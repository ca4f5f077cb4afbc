/** White space as ECMA-262 has it, and how a string is trimmed. */
module Whitespace {

  predicate IsSpace(c: char) {
    || '\t' <= c <= '\r'
    || c in {' ', '\U{A0}', '\U{1680}', '\U{2028}', '\U{2029}', '\U{202F}', '\U{205F}', '\U{3000}', '\U{FEFF}'}
    || '\U{2000}' <= c <= '\U{200A}'
  }

  function TrimStart(s: string): string { if s != "" && IsSpace(s[0]) then TrimStart(s[1..]) else s }

  function TrimEnd(s: string): string
    decreases |s|
  {
    if s != "" && IsSpace(s[|s| - 1]) then TrimEnd(s[..|s| - 1]) else s
  }

  function Trim(s: string): string { TrimEnd(TrimStart(s)) }

  lemma {:induction false} TrimStartKeeps(s: string) returns (k: nat)
    ensures k <= |s| && TrimStart(s) == s[k..] && forall i: nat :: i < k ==> IsSpace(s[i])
    ensures TrimStart(s) != "" ==> !IsSpace(TrimStart(s)[0])
    decreases |s|
  {
    k := 0;
    if s != "" && IsSpace(s[0]) {
      var n := TrimStartKeeps(s[1..]);
      k := n + 1;
      assert forall i: nat :: 0 < i < k ==> s[i] == s[1..][i - 1];
    }
  }

  lemma {:induction false} TrimEndKeeps(s: string) returns (k: nat)
    ensures k <= |s| && TrimEnd(s) == s[..k] && forall i: nat :: k <= i < |s| ==> IsSpace(s[i])
    ensures k > 0 ==> !IsSpace(s[k - 1])
    decreases |s|
  {
    k := |s|;
    if s != "" && IsSpace(s[|s| - 1]) {
      k := TrimEndKeeps(s[..|s| - 1]);
    }
  }

  predicate Spaces(s: string) { forall i: nat :: i < |s| ==> IsSpace(s[i]) }

  lemma TrimKeeps(s: string) returns (before: string, after: string)
    ensures s == before + Trim(s) + after && Spaces(before) && Spaces(after)
    ensures Trim(s) != "" ==> !IsSpace(Trim(s)[0]) && !IsSpace(Trim(s)[|Trim(s)| - 1])
  {
    var i := TrimStartKeeps(s);
    var start := TrimStart(s);
    var j := TrimEndKeeps(start);
    before, after := s[..i], start[j..];
    Parts(s, i, j);
    if j > 0 { assert Trim(s)[0] == start[0] && Trim(s)[|Trim(s)| - 1] == start[j - 1]; }
  }

  lemma Parts(s: string, i: nat, j: nat)
    requires i + j <= |s|
    ensures s == s[..i] + s[i..][..j] + s[i..][j..]
  {
  }
}
