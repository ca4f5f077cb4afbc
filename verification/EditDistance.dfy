/**
 levenshtein: a two-row table that computes the length of a shortest sequence of
 single-character edits, and what makes that length a metric.
 */
module EditDistance {

  function Init(s: string): string
    requires s != ""
  {
    s[..|s| - 1]
  }

  function Last(s: string): char
    requires s != ""
  {
    s[|s| - 1]
  }

  function Min(x: nat, y: nat): nat { if x <= y then x else y }

  /** The recurrence, on the last characters. */
  function Lev(a: string, b: string): (n: nat)
    decreases |a| + |b|
  {
    if a == "" then |b|
    else if b == "" then |a|
    else Min(Min(Lev(Init(a), b) + 1, Lev(a, Init(b)) + 1),
             Lev(Init(a), Init(b)) + (if Last(a) == Last(b) then 0 else 1))
  }

  method Levenshtein(a: string, b: string) returns (n: nat)
    ensures n == Lev(a, b)
  {
    var prev := new nat[|b| + 1](j => j);
    assert a[..0] == "";
    for i := 1 to |a| + 1
      invariant prev.Length == |b| + 1 && IsRow(prev[..], a[..i - 1], b)
    {
      var cur := new nat[|b| + 1];
      cur[0] := i;
      for j := 1 to |b| + 1
        invariant IsRow(prev[..], a[..i - 1], b) && IsRow(cur[..j], a[..i], b)
      {
        NextCell(a, b, i, j, prev[..], cur[..j]);
        cur[j] := Min(Min(prev[j] + 1, cur[j - 1] + 1), prev[j - 1] + (if a[i - 1] == b[j - 1] then 0 else 1));
        assert cur[..j + 1] == cur[..j] + [cur[j]];
      }
      prev := cur;
      assert cur[..] == cur[..|b| + 1];
    }
    assert a[..|a|] == a && b[..|b|] == b;
    return prev[|b|];
  }

  /** The distances from one string to the prefixes of another, as far as they go. */
  predicate IsRow(row: seq<nat>, s: string, b: string) {
    |row| <= |b| + 1 && forall j: nat :: j < |row| ==> row[j] == Lev(s, b[..j])
  }

  lemma NextCell(a: string, b: string, i: nat, j: nat, prev: seq<nat>, cur: seq<nat>)
    requires 0 < i <= |a| && 0 < j <= |b| && |prev| == |b| + 1 && |cur| == j
    requires IsRow(prev, a[..i - 1], b) && IsRow(cur, a[..i], b)
    ensures IsRow(cur + [Min(Min(prev[j] + 1, cur[j - 1] + 1), prev[j - 1] + (if a[i - 1] == b[j - 1] then 0 else 1))],
                  a[..i], b)
  {
    Prefix(a, i);
    Prefix(b, j);
  }

  lemma Prefix(s: string, i: nat)
    requires 0 < i <= |s|
    ensures s[..i] != "" && Init(s[..i]) == s[..i - 1] && Last(s[..i]) == s[i - 1]
  {
  }

  // ---------------------------------------------------------------------------
  // A metric
  // ---------------------------------------------------------------------------

  lemma {:induction false} Bounds(a: string, b: string)
    ensures Lev(a, b) <= if |a| >= |b| then |a| else |b|
    ensures Lev(a, b) >= if |a| >= |b| then |a| - |b| else |b| - |a|
    decreases |a| + |b|
  {
    if a != "" && b != "" {
      Bounds(Init(a), b);
      Bounds(a, Init(b));
      Bounds(Init(a), Init(b));
    }
  }

  lemma {:induction false} Symmetric(a: string, b: string)
    ensures Lev(a, b) == Lev(b, a)
    decreases |a| + |b|
  {
    if a != "" && b != "" {
      Symmetric(Init(a), b);
      Symmetric(a, Init(b));
      Symmetric(Init(a), Init(b));
    }
  }

  lemma {:induction false} ZeroIffEqual(a: string, b: string)
    ensures Lev(a, b) == 0 <==> a == b
    decreases |a|
  {
    if a != "" && b != "" {
      ZeroIffEqual(Init(a), Init(b));
      Bounds(a, b);
      Bounds(Init(a), b);
      Bounds(a, Init(b));
      assert a == Init(a) + [Last(a)] && b == Init(b) + [Last(b)];
    }
  }

  lemma {:induction false} Triangle(a: string, b: string, c: string)
    ensures Lev(a, c) <= Lev(a, b) + Lev(b, c)
    decreases |a| + |b| + |c|
  {
    Bounds(a, b);
    Bounds(b, c);
    Bounds(a, c);
    if a != "" && b != "" && c != "" {
      var a', b', c' := Init(a), Init(b), Init(c);
      Triangle(a', b, c);
      Triangle(a, b, c');
      Triangle(a, b', c);
      Triangle(a, b', c');
      Triangle(a', b', c);
      Triangle(a', b', c');
    }
  }

  // ---------------------------------------------------------------------------
  // Shortest edit sequences
  // ---------------------------------------------------------------------------

  /** t is s with one character inserted somewhere. */
  ghost predicate Inserted(s: string, t: string) {
    exists k :: 0 <= k < |t| && t[..k] + t[k + 1..] == s
  }

  ghost predicate Substituted(s: string, t: string) {
    |s| == |t| && exists k :: 0 <= k < |t| && t[..k] == s[..k] && t[k + 1..] == s[k + 1..]
  }

  /** One insertion, deletion or substitution. */
  ghost predicate Edit(s: string, t: string) { Inserted(s, t) || Inserted(t, s) || Substituted(s, t) }

  /** A sequence of strings, each one edit away from the one before. */
  ghost predicate Edits(path: seq<string>, a: string, b: string) {
    path != [] && path[0] == a && path[|path| - 1] == b
    && forall i :: 0 <= i < |path| - 1 ==> Edit(path[i], path[i + 1])
  }

  lemma {:induction false} CommonTail(x: string, y: string, tail: string)
    ensures Lev(x + tail, y + tail) <= Lev(x, y)
    decreases |tail|
  {
    if tail == "" {
      assert x + tail == x && y + tail == y;
    } else {
      CommonTail(x, y, Init(tail));
      assert Init(x + tail) == x + Init(tail) && Init(y + tail) == y + Init(tail);
      assert Last(x + tail) == Last(tail) == Last(y + tail);
    }
  }

  lemma InsertionIsOne(s: string, t: string)
    requires Inserted(s, t)
    ensures Lev(s, t) <= 1
  {
    var k :| 0 <= k < |t| && t[..k] + t[k + 1..] == s;
    assert t[..k + 1] + t[k + 1..] == t;
    OneMoreLetter(t[..k], t[..k + 1], t[k + 1..]);
  }

  lemma OneMoreLetter(head: string, longer: string, tail: string)
    requires longer != "" && Init(longer) == head
    ensures Lev(head + tail, longer + tail) <= 1
  {
    LastIsOne(head, longer);
    CommonTail(head, longer, tail);
  }

  lemma LastIsOne(head: string, longer: string)
    requires longer != "" && Init(longer) == head
    ensures Lev(head, longer) <= 1
  {
    ZeroIffEqual(head, head);
    assert Lev(head, longer) <= Lev(head, Init(longer)) + 1;
  }

  lemma SubstitutionIsOne(s: string, t: string, k: nat)
    requires k < |t| == |s| && t[..k] == s[..k] && t[k + 1..] == s[k + 1..]
    ensures Lev(s, t) <= 1
  {
    ZeroIffEqual(s[..k], t[..k]);
    Prefix(s, k + 1);
    Prefix(t, k + 1);
    CommonTail(s[..k + 1], t[..k + 1], t[k + 1..]);
    assert s[..k + 1] + s[k + 1..] == s && t[..k + 1] + t[k + 1..] == t;
  }

  lemma EditIsOne(s: string, t: string)
    requires Edit(s, t)
    ensures Lev(s, t) <= 1
  {
    if Inserted(s, t) {
      InsertionIsOne(s, t);
    } else if Inserted(t, s) {
      InsertionIsOne(t, s);
      Symmetric(s, t);
    } else {
      var k :| 0 <= k < |t| && t[..k] == s[..k] && t[k + 1..] == s[k + 1..];
      SubstitutionIsOne(s, t, k);
    }
  }

  lemma {:induction false} NoShorterEdits(path: seq<string>, a: string, b: string)
    requires Edits(path, a, b)
    ensures Lev(a, b) <= |path| - 1
    decreases |path|
  {
    if |path| == 1 {
      ZeroIffEqual(a, b);
    } else {
      EditIsOne(path[0], path[1]);
      NoShorterEdits(path[1..], path[1], b);
      Triangle(a, path[1], b);
    }
  }

  lemma TailKeepsEdit(s: string, t: string, c: char)
    requires Edit(s, t)
    ensures Edit(s + [c], t + [c])
  {
    if Inserted(s, t) {
      TailKeepsInserted(s, t, c);
    } else if Inserted(t, s) {
      TailKeepsInserted(t, s, c);
    } else {
      var k :| 0 <= k < |t| && t[..k] == s[..k] && t[k + 1..] == s[k + 1..];
      assert (t + [c])[..k] == (s + [c])[..k];
      assert (t + [c])[k + 1..] == t[k + 1..] + [c] && (s + [c])[k + 1..] == s[k + 1..] + [c];
    }
  }

  lemma TailKeepsInserted(s: string, t: string, c: char)
    requires Inserted(s, t)
    ensures Inserted(s + [c], t + [c])
  {
    var k :| 0 <= k < |t| && t[..k] + t[k + 1..] == s;
    assert (t + [c])[..k] + (t + [c])[k + 1..] == s + [c];
  }

  lemma DropLastIsEdit(s: string)
    requires s != ""
    ensures Edit(s, Init(s)) && Edit(Init(s), s)
  {
    assert s[..|s| - 1] + s[|s|..] == Init(s);
  }

  lemma LongerPath(path: seq<string>, a: string, b: string, c: string)
    requires Edits(path, a, b) && Edit(b, c)
    ensures Edits(path + [c], a, c)
  {
    var longer := path + [c];
    forall i | 0 <= i < |longer| - 1
      ensures Edit(longer[i], longer[i + 1])
    {
      assert i < |path| - 1 ==> Edit(path[i], path[i + 1]);
    }
  }

  lemma PathBefore(path: seq<string>, a: string, b: string, z: string)
    requires Edits(path, a, b) && Edit(z, a)
    ensures Edits([z] + path, z, b)
  {
    var longer := [z] + path;
    forall i | 0 <= i < |longer| - 1
      ensures Edit(longer[i], longer[i + 1])
    {
      assert i > 0 ==> Edit(path[i - 1], path[i]);
    }
  }

  lemma PathWithTail(path: seq<string>, a: string, b: string, c: char) returns (longer: seq<string>)
    requires Edits(path, a, b)
    ensures Edits(longer, a + [c], b + [c]) && |longer| == |path|
  {
    longer := seq(|path|, i requires 0 <= i < |path| => path[i] + [c]);
    forall i | 0 <= i < |longer| - 1
      ensures Edit(longer[i], longer[i + 1])
    {
      TailKeepsEdit(path[i], path[i + 1], c);
    }
  }

  /** A sequence of exactly that many edits. */
  lemma {:induction false} ShortestEdits(a: string, b: string) returns (path: seq<string>)
    ensures Edits(path, a, b) && |path| - 1 == Lev(a, b)
    decreases |a| + |b|
  {
    if a == "" && b == "" {
      path := [""];
    } else if a == "" || (b != "" && Lev(a, b) == Lev(a, Init(b)) + 1) {
      var shorter := ShortestEdits(a, Init(b));
      DropLastIsEdit(b);
      LongerPath(shorter, a, Init(b), b);
      path := shorter + [b];
    } else if b == "" || Lev(a, b) == Lev(Init(a), b) + 1 {
      var shorter := ShortestEdits(Init(a), b);
      DropLastIsEdit(a);
      PathBefore(shorter, Init(a), b, a);
      path := [a] + shorter;
    } else {
      var shorter := ShortestEdits(Init(a), Init(b));
      path := PathWithTail(shorter, Init(a), Init(b), Last(a));
      assert Init(a) + [Last(a)] == a && Init(b) + [Last(b)] == b;
      if Last(a) != Last(b) {
        var near := Init(b) + [Last(a)];
        assert b[..|b| - 1] == near[..|b| - 1] && b[|b|..] == near[|b|..];
        assert Substituted(near, b);
        LongerPath(path, a, near, b);
        path := path + [b];
      }
    }
  }

  /** The distance is at most n if and only if n single-character edits, or fewer, turn the
      one string into the other: checkProvider suggests the names within two edits. */
  lemma WithinEdits(a: string, b: string, n: nat)
    ensures Lev(a, b) <= n <==> exists path :: Edits(path, a, b) && |path| - 1 <= n
  {
    var path := ShortestEdits(a, b);
    forall p | Edits(p, a, b)
      ensures Lev(a, b) <= |p| - 1
    {
      NoShorterEdits(p, a, b);
    }
  }
}
