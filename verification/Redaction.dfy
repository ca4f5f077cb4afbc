/**
 Invite tokens are redacted from raw and percent-encoded text by two global
 replacements.  Each pattern is deterministic, so its leftmost-greedy match at a
 position is a function of the text there.
 */
module Redaction {
  import opened Options
  import opened Whitespace

  const REDACTED := "ssinv_redacted"

  // ---------------------------------------------------------------------------
  // One raw or encoded character
  // ---------------------------------------------------------------------------

  predicate IsHex(c: char) { '0' <= c <= '9' || 'a' <= c <= 'f' || 'A' <= c <= 'F' }

  function HexValue(c: char): (v: nat)
    requires IsHex(c)
    ensures v < 16
  {
    if c <= '9' then c as nat - '0' as nat
    else if c <= 'F' then c as nat - 'A' as nat + 10
    else c as nat - 'a' as nat + 10
  }

  /** The length of the extra %25 layers: (?:25)* */
  function Layers(s: string): (n: nat)
    ensures n <= |s|
  {
    if |s| >= 2 && s[0] == '2' && s[1] == '5' then 2 + Layers(s[2..]) else 0
  }

  /** %(?:25)* and two hexadecimal digits */
  predicate Encoded(s: string) {
    s != "" && s[0] == '%' &&
    var n := 1 + Layers(s[1..]);
    |s| >= n + 2 && IsHex(s[n]) && IsHex(s[n + 1])
  }

  datatype Unit = Unit(c: char, n: nat, encoded: bool)

  /** The character a text begins with, and how much of the text spells it.  No code the
      patterns accept is 25, so the layers are always taken whole. */
  function ReadUnit(s: string): (u: Unit)
    requires s != ""
    ensures 0 < u.n <= |s|
  {
    if Encoded(s) then
      var n := 1 + Layers(s[1..]);
      Unit((16 * HexValue(s[n]) + HexValue(s[n + 1])) as char, n + 2, true)
    else Unit(s[0], 1, false)
  }

  function Rest(s: string): (r: string)
    requires s != ""
    ensures |r| < |s|
  {
    s[ReadUnit(s).n..]
  }

  function Lower(c: char): char { if 'A' <= c <= 'Z' then (c as nat + 32) as char else c }

  /** [A-Za-z0-9_-] */
  predicate IsBody(c: char) {
    'a' <= c <= 'z' || 'A' <= c <= 'Z' || '0' <= c <= '9' || c == '_' || c == '-'
  }

  /** The codes ENCODED_BODY_CHAR lists. */
  predicate BodyCode(h: char, l: char) {
    || (h in {'4', '6'} && ('1' <= l <= '9' || 'A' <= l <= 'F' || 'a' <= l <= 'f'))
    || (h in {'5', '7'} && ('0' <= l <= '9' || l in {'A', 'a'}))
    || (h == '3' && '0' <= l <= '9')
    || (h == '5' && l in {'F', 'f'})
    || (h == '2' && l in {'D', 'd'})
  }

  /** They are the codes of the body characters, and no others. */
  lemma BodyCodesAreBody(h: char, l: char)
    requires IsHex(h) && IsHex(l)
    ensures BodyCode(h, l) <==> IsBody((16 * HexValue(h) + HexValue(l)) as char)
  {
  }

  /** [^/?#&%\s"'<>] or an encoded body character */
  predicate IsSegment(u: Unit) {
    if u.encoded then IsBody(u.c)
    else u.c !in {'/', '?', '#', '&', '%', '"', '\'', '<', '>'} && !IsSpace(u.c)
  }

  // ---------------------------------------------------------------------------
  // The two patterns
  // ---------------------------------------------------------------------------

  predicate LetterAt(s: string, w: char) { s != "" && Lower(ReadUnit(s).c) == w }

  /** The text after a word spelled raw or encoded, in either case. */
  function AfterWord(s: string, word: string): (r: Option<string>)
    ensures r.Some? ==> |r.value| <= |s|
    decreases |s|
  {
    if word == "" then Some(s)
    else if LetterAt(s, word[0]) then AfterWord(Rest(s), word[1..])
    else None
  }

  predicate BodyAt(s: string) { s != "" && IsBody(ReadUnit(s).c) }

  predicate SegmentAt(s: string) { s != "" && IsSegment(ReadUnit(s)) }

  function AfterBody(s: string): (r: string)
    ensures |r| <= |s| && !BodyAt(r)
  {
    if BodyAt(s) then AfterBody(Rest(s)) else s
  }

  function AfterSegment(s: string): (r: string)
    ensures |r| <= |s| && !SegmentAt(r)
  {
    if SegmentAt(s) then AfterSegment(Rest(s)) else s
  }

  datatype Rule = Token | Segment

  /** A match at the head of the text: what is kept in front of the placeholder, and what
      is left behind the match. */
  datatype Hit = Hit(body: string, rest: string)

  /** ssinv_ with a token body, or the segment after /invite/. */
  function HitAt(rule: Rule, s: string): (h: Option<Hit>)
    ensures h.Some? ==> |h.value.rest| < |h.value.body| <= |s|
  {
    match rule
    case Token =>
      var after := AfterWord(s, "ssinv_");
      if after.Some? && BodyAt(after.value) then Some(Hit(s, AfterBody(Rest(after.value)))) else None
    case Segment =>
      var after := AfterWord(s, "/invite/");
      if after.Some? && SegmentAt(after.value) then Some(Hit(after.value, AfterSegment(Rest(after.value)))) else None
  }

  /** text.replace(pattern, "$1" + placeholder) with the g flag. */
  function Rewrite(rule: Rule, s: string): string
    decreases |s|
  {
    if s == "" then ""
    else
      var h := HitAt(rule, s);
      if h.Some? then s[..|s| - |h.value.body|] + (REDACTED + Rewrite(rule, h.value.rest))
      else [s[0]] + Rewrite(rule, s[1..])
  }

  /** MIGHT_CONTAIN */
  predicate MightContain(s: string) {
    s != "" && (AfterWord(s, "ssinv").Some? || AfterWord(s, "invite").Some? || MightContain(s[1..]))
  }

  function RedactInviteTokens(text: string): string {
    if !MightContain(text) then text else Rewrite(Segment, Rewrite(Token, text))
  }

  predicate CarriesInviteToken(address: string) { RedactInviteTokens(address) != address }

  // ---------------------------------------------------------------------------
  // Rewriting keeps the units that are not part of a match
  // ---------------------------------------------------------------------------

  /** The letter every match of a rule begins with. */
  function Starter(rule: Rule): char { if rule.Token? then 's' else '/' }

  function HexRun(s: string): (n: nat)
    ensures n <= |s|
    ensures forall i: nat :: i < n ==> IsHex(s[i])
    ensures n < |s| ==> !IsHex(s[n])
  {
    if s != "" && IsHex(s[0]) then 1 + HexRun(s[1..]) else 0
  }

  /** An encoded character is decided by the hexadecimal digits behind its percent sign. */
  lemma {:induction false} LayersInRun(a: string, b: string)
    requires HexRun(a) == HexRun(b) && a[..HexRun(a)] == b[..HexRun(b)]
    ensures Layers(a) == Layers(b) <= HexRun(a)
    decreases |a|
  {
    var n := HexRun(a);
    if n >= 2 {
      assert a[0] == a[..n][0] == b[..n][0] == b[0];
      assert a[1] == a[..n][1] == b[..n][1] == b[1];
      assert HexRun(a[1..]) == n - 1 && HexRun(a[1..][1..]) == n - 2;
      assert HexRun(b[1..]) == n - 1 && HexRun(b[1..][1..]) == n - 2;
      assert a[1..][1..] == a[2..] && b[1..][1..] == b[2..];
      assert a[2..][..n - 2] == a[..n][2..] == b[..n][2..] == b[2..][..n - 2];
      LayersInRun(a[2..], b[2..]);
    }
  }

  lemma SameRunSameUnit(a: string, b: string)
    requires a != "" && b != "" && a[0] == b[0]
    requires HexRun(a[1..]) == HexRun(b[1..]) && a[1..][..HexRun(a[1..])] == b[1..][..HexRun(b[1..])]
    ensures ReadUnit(a) == ReadUnit(b)
    ensures ReadUnit(a).n <= 1 + HexRun(a[1..])
  {
    LayersInRun(a[1..], b[1..]);
    var n, run := 1 + Layers(a[1..]), HexRun(a[1..]);
    if Encoded(a) || Encoded(b) {
      assert n + 2 <= 1 + run;
      assert a[n] == a[1..][..run][n - 1] == b[1..][..run][n - 1] == b[n];
      assert a[n + 1] == a[1..][..run][n] == b[1..][..run][n] == b[n + 1];
    }
  }

  lemma HitStarts(rule: Rule, s: string)
    requires HitAt(rule, s).Some?
    ensures s != "" && LetterAt(s, Starter(rule)) && !IsHex(s[0])
  {
    assert AfterWord(s, if rule.Token? then "ssinv_" else "/invite/").Some?;
  }

  lemma {:induction false} AfterWordIsSuffix(s: string, word: string)
    requires AfterWord(s, word).Some?
    ensures AfterWord(s, word).value == s[|s| - |AfterWord(s, word).value|..]
    decreases |word|
  {
    if word != "" {
      AfterWordIsSuffix(Rest(s), word[1..]);
    }
  }

  /** The prefix of a match that is kept still spells its word in front of any other text. */
  lemma {:induction false} WordThen(kept: string, tail: string, word: string, other: string)
    requires '%' !in word && AfterWord(kept + tail, word) == Some(tail)
    ensures AfterWord(kept + other, word) == Some(other)
    decreases |word|
  {
    if word == "" {
      assert kept == "";
      assert kept + other == other;
    } else {
      var n := LetterThen(kept, tail, word, other);
      assert '%' !in word[1..];
      WordThen(kept[n..], tail, word[1..], other);
    }
  }

  lemma LetterThen(kept: string, tail: string, word: string, other: string) returns (n: nat)
    requires word != "" && word[0] != '%' && AfterWord(kept + tail, word) == Some(tail)
    ensures 0 < n <= |kept| && kept + other != "" && LetterAt(kept + other, word[0])
    ensures Rest(kept + tail) == kept[n..] + tail && Rest(kept + other) == kept[n..] + other
    ensures AfterWord(kept[n..] + tail, word[1..]) == Some(tail)
    ensures AfterWord(kept + other, word) == AfterWord(kept[n..] + other, word[1..])
  {
    var s, t := kept + tail, kept + other;
    n := ReadUnit(s).n;
    assert |tail| <= |s| - n;
    assert t[..n] == kept[..n] == s[..n];
    UnitThen(s, t);
  }

  /** A letter reads the same in front of any other text. */
  lemma UnitThen(s: string, t: string)
    requires s != "" && (s[0] == '%' ==> Encoded(s))
    requires ReadUnit(s).n <= |t| && t[..ReadUnit(s).n] == s[..ReadUnit(s).n]
    ensures ReadUnit(t) == ReadUnit(s)
  {
    var n := ReadUnit(s).n;
    assert s[0] == s[..n][0] == t[..n][0] == t[0];
    if Encoded(s) {
      assert s[1..][..n - 1] == s[..n][1..] == t[..n][1..] == t[1..][..n - 1];
      LayersThen(s[1..], t[1..]);
      assert s[n - 2] == s[..n][n - 2] == t[..n][n - 2] == t[n - 2];
      assert s[n - 1] == s[..n][n - 1] == t[..n][n - 1] == t[n - 1];
    }
  }

  lemma {:induction false} LayersThen(a: string, b: string)
    requires Layers(a) + 2 <= |a| && Layers(a) + 2 <= |b| && a[..Layers(a) + 2] == b[..Layers(a) + 2]
    ensures Layers(a) == Layers(b)
    decreases |a|
  {
    var n := Layers(a);
    assert a[0] == a[..n + 2][0] == b[..n + 2][0] == b[0];
    assert a[1] == a[..n + 2][1] == b[..n + 2][1] == b[1];
    if n > 0 {
      assert a[2..][..n] == a[..n + 2][2..] == b[..n + 2][2..] == b[2..][..n];
      LayersThen(a[2..], b[2..]);
    }
  }

  /** What a match keeps in front of the placeholder. */
  function Kept(rule: Rule, s: string): (kept: string)
    requires HitAt(rule, s).Some?
  {
    s[..|s| - |HitAt(rule, s).value.body|]
  }

  lemma RewriteHit(rule: Rule, s: string)
    requires HitAt(rule, s).Some?
    ensures s == Kept(rule, s) + HitAt(rule, s).value.body
    ensures Rewrite(rule, s) == Kept(rule, s) + (REDACTED + Rewrite(rule, HitAt(rule, s).value.rest))
  {
    if rule.Segment? {
      SegmentKept(s);
    }
  }

  lemma SegmentKept(s: string)
    requires HitAt(Segment, s).Some?
    ensures AfterWord(s, "/invite/") == Some(HitAt(Segment, s).value.body)
    ensures Kept(Segment, s) != "" && s == Kept(Segment, s) + HitAt(Segment, s).value.body
  {
    SegmentBody(s);
    AfterWordIsSuffix(s, "/invite/");
    WordIsNotEmpty(s, "/invite/");
  }

  lemma SegmentBody(s: string)
    requires HitAt(Segment, s).Some?
    ensures AfterWord(s, "/invite/") == Some(HitAt(Segment, s).value.body)
  {
  }

  lemma WordIsNotEmpty(s: string, word: string)
    requires word != "" && AfterWord(s, word).Some?
    ensures |AfterWord(s, word).value| < |s|
  {
    assert AfterWord(Rest(s), word[1..]).Some?;
  }

  lemma RewriteStart(rule: Rule, s: string)
    requires HitAt(rule, s).Some?
    ensures Rewrite(rule, s) != "" && !IsHex(Rewrite(rule, s)[0]) && s != "" && !IsHex(s[0])
  {
    HitStarts(rule, s);
    RewriteHit(rule, s);
    if rule.Segment? {
      SegmentKept(s);
      assert Rewrite(rule, s)[0] == s[0];
    }
  }

  lemma {:induction false} SameRun(rule: Rule, s: string)
    ensures HexRun(Rewrite(rule, s)) == HexRun(s)
    ensures Rewrite(rule, s)[..HexRun(s)] == s[..HexRun(s)]
    decreases |s|
  {
    if s != "" {
      if HitAt(rule, s).Some? {
        RewriteStart(rule, s);
      } else {
        SameRun(rule, s[1..]);
        RewriteMiss(rule, s);
        RunOfCons(s[0], s[1..], Rewrite(rule, s[1..]));
        assert s == [s[0]] + s[1..];
      }
    }
  }

  lemma RunOfCons(c: char, a: string, b: string)
    requires HexRun(a) == HexRun(b) && a[..HexRun(a)] == b[..HexRun(b)]
    ensures var x, y := [c] + a, [c] + b;
            HexRun(x) == HexRun(y) && x[..HexRun(x)] == y[..HexRun(y)]
  {
    var x, y := [c] + a, [c] + b;
    assert x[1..] == a && y[1..] == b;
    if IsHex(c) {
      assert x[..1 + HexRun(a)] == [c] + a[..HexRun(a)];
      assert y[..1 + HexRun(b)] == [c] + b[..HexRun(b)];
    }
  }

  lemma RewriteMiss(rule: Rule, s: string)
    requires s != "" && HitAt(rule, s).None?
    ensures var t := Rewrite(rule, s);
            t != "" && t == [s[0]] + t[1..] && t[1..] == Rewrite(rule, s[1..])
  {
  }

  lemma ConsTake(s: string, k: nat, tail: string)
    requires 0 < k <= |s|
    ensures s[..k] + tail == [s[0]] + (s[1..][..k - 1] + tail) && s[1..][k - 1..] == s[k..]
  {
  }

  /** No match begins inside an encoded character. */
  lemma {:induction false} RewriteSkips(rule: Rule, s: string, k: nat)
    requires k <= HexRun(s)
    ensures Rewrite(rule, s) == s[..k] + Rewrite(rule, s[k..])
    decreases k
  {
    if k > 0 {
      if HitAt(rule, s).Some? {
        HitStarts(rule, s);
      }
      RewriteMiss(rule, s);
      RewriteSkips(rule, s[1..], k - 1);
      ConsTake(s, k, Rewrite(rule, s[k..]));
    }
  }

  lemma UnitSurvives(rule: Rule, s: string)
    requires s != "" && HitAt(rule, s).None?
    ensures var t := Rewrite(rule, s);
            t != "" && ReadUnit(t) == ReadUnit(s) && Rest(t) == Rewrite(rule, Rest(s))
  {
    var t := Rewrite(rule, s);
    RewriteMiss(rule, s);
    SameRun(rule, s[1..]);
    SameRunSameUnit(s, t);
    var n := ReadUnit(s).n;
    RewriteSkips(rule, s[1..], n - 1);
    assert s[1..][n - 1..] == s[n..];
    assert t[n..] == t[1..][n - 1..];
  }

  /** A rewritten match still begins with the letter a match begins with. */
  lemma HitKeepsStarter(rule: Rule, s: string)
    requires HitAt(rule, s).Some?
    ensures LetterAt(Rewrite(rule, s), Starter(rule))
  {
    RewriteHit(rule, s);
    if rule.Segment? {
      SegmentKept(s);
      SlashThen(Kept(rule, s), HitAt(rule, s).value.body, REDACTED + Rewrite(rule, HitAt(rule, s).value.rest));
    } else {
      RawUnit(Rewrite(rule, s));
    }
  }

  lemma SlashThen(kept: string, tail: string, other: string)
    requires AfterWord(kept + tail, "/invite/") == Some(tail)
    ensures LetterAt(kept + other, '/')
  {
    var n := LetterThen(kept, tail, "/invite/", other);
  }

  lemma RawUnit(s: string)
    requires s != "" && s[0] != '%'
    ensures ReadUnit(s) == Unit(s[0], 1, false) && Rest(s) == s[1..]
  {
  }

  /** A word without the starting letter is spelled after rewriting only where it was before. */
  lemma {:induction false} WordSurvives(rule: Rule, s: string, word: string)
    requires Starter(rule) !in word && AfterWord(Rewrite(rule, s), word).Some?
    ensures AfterWord(s, word).Some?
    ensures AfterWord(Rewrite(rule, s), word).value == Rewrite(rule, AfterWord(s, word).value)
    decreases |word|
  {
    if word != "" {
      if HitAt(rule, s).Some? {
        HitKeepsStarter(rule, s);
        assert false;
      }
      UnitSurvives(rule, s);
      assert Starter(rule) !in word[1..];
      WordSurvives(rule, Rest(s), word[1..]);
    }
  }

  // ---------------------------------------------------------------------------
  // The placeholder
  // ---------------------------------------------------------------------------

  lemma {:induction false} RawWord(word: string, tail: string)
    requires forall i: nat :: i < |word| ==> word[i] != '%' && Lower(word[i]) == word[i]
    ensures AfterWord(word + tail, word) == Some(tail)
    decreases |word|
  {
    if word == "" {
      assert word + tail == tail;
    } else {
      RawUnit(word + tail);
      assert (word + tail)[1..] == word[1..] + tail;
      RawWord(word[1..], tail);
    }
  }

  lemma {:induction false} RawBody(word: string, tail: string)
    requires forall i: nat :: i < |word| ==> IsBody(word[i])
    ensures !BodyAt(tail) ==> AfterBody(word + tail) == tail
    ensures !SegmentAt(tail) ==> AfterSegment(word + tail) == tail
    decreases |word|
  {
    if word == "" {
      assert word + tail == tail;
    } else {
      RawUnit(word + tail);
      assert (word + tail)[1..] == word[1..] + tail;
      RawBody(word[1..], tail);
    }
  }

  lemma TokenHit(s: string, after: string, tail: string)
    requires AfterWord(s, "ssinv_") == Some(after) && BodyAt(after) && AfterBody(Rest(after)) == tail
    ensures HitAt(Token, s) == Some(Hit(s, tail))
  {
  }

  lemma SegmentHit(s: string, after: string, tail: string)
    requires AfterWord(s, "/invite/") == Some(after) && SegmentAt(after) && AfterSegment(Rest(after)) == tail
    ensures HitAt(Segment, s) == Some(Hit(after, tail))
  {
  }

  lemma PlaceholderParts(tail: string)
    ensures REDACTED + tail == "ssinv_" + ("redacted" + tail)
    ensures REDACTED + tail == ['s'] + ("sinv_redacted" + tail)
    ensures "redacted" + tail == ['r'] + ("edacted" + tail)
  {
  }

  lemma FirstUnit(c: char, tail: string)
    requires IsBody(c)
    ensures BodyAt([c] + tail) && SegmentAt([c] + tail) && Rest([c] + tail) == tail
  {
    RawUnit([c] + tail);
  }

  /** The placeholder is a match of the token pattern that is replaced by itself. */
  lemma PlaceholderHit(tail: string)
    requires !BodyAt(tail)
    ensures HitAt(Token, REDACTED + tail) == Some(Hit(REDACTED + tail, tail))
  {
    PlaceholderParts(tail);
    PlaceholderWord("redacted" + tail);
    FirstUnit('r', "edacted" + tail);
    PlaceholderBody(tail);
    TokenHit(REDACTED + tail, "redacted" + tail, tail);
  }

  lemma PlaceholderWord(tail: string)
    ensures AfterWord("ssinv_" + tail, "ssinv_") == Some(tail)
  {
    RawWord("ssinv_", tail);
  }

  lemma PlaceholderBody(tail: string)
    ensures !BodyAt(tail) ==> AfterBody("edacted" + tail) == tail
    ensures !SegmentAt(tail) ==> AfterSegment("sinv_redacted" + tail) == tail
  {
    RawBody("edacted", tail);
    RawBody("sinv_redacted", tail);
  }

  /** So is the placeholder behind /invite/. */
  lemma PlaceholderSegment(kept: string, body: string, tail: string)
    requires AfterWord(kept + body, "/invite/") == Some(body) && !SegmentAt(tail)
    ensures HitAt(Segment, kept + (REDACTED + tail)) == Some(Hit(REDACTED + tail, tail))
  {
    var after := REDACTED + tail;
    WordThen(kept, body, "/invite/", after);
    PlaceholderParts(tail);
    FirstUnit('s', "sinv_redacted" + tail);
    PlaceholderBody(tail);
    SegmentHit(kept + after, after, tail);
  }

  // ---------------------------------------------------------------------------
  // Texts without a credential
  // ---------------------------------------------------------------------------

  predicate IsPlaceholder(h: Hit) { h.body == REDACTED + h.rest }

  /** Wherever the pattern matches, at any position of the text, what it would replace is
      the placeholder. */
  predicate Clean(rule: Rule, s: string) {
    s != "" ==>
      && (HitAt(rule, s).Some? ==> IsPlaceholder(HitAt(rule, s).value))
      && Clean(rule, s[1..])
  }

  lemma {:induction false} CleanSuffix(rule: Rule, s: string, k: nat)
    requires Clean(rule, s) && k <= |s|
    ensures Clean(rule, s[k..])
    decreases k
  {
    if k > 0 {
      CleanSuffix(rule, s[1..], k - 1);
      assert s[1..][k - 1..] == s[k..];
    } else {
      assert s[0..] == s;
    }
  }

  lemma {:induction false} CleanIsFixed(rule: Rule, s: string)
    requires Clean(rule, s)
    ensures Rewrite(rule, s) == s
    decreases |s|
  {
    if s != "" {
      if HitAt(rule, s).Some? {
        var rest := HitAt(rule, s).value.rest;
        RewriteHit(rule, s);
        PlaceholderLeaves(s, Kept(rule, s), rest);
        CleanSuffix(rule, s, |s| - |rest|);
        CleanIsFixed(rule, rest);
      } else {
        RewriteMiss(rule, s);
        CleanIsFixed(rule, s[1..]);
      }
    }
  }

  lemma PlaceholderLeaves(s: string, kept: string, rest: string)
    requires s == kept + (REDACTED + rest)
    ensures |rest| < |s| && s[|s| - |rest|..] == rest
  {
  }

  lemma BodyIsSegment(s: string)
    requires BodyAt(s)
    ensures SegmentAt(s)
  {
  }

  /** What stops a run still stops it after rewriting. */
  lemma StillNotBody(rule: Rule, s: string)
    requires !BodyAt(s)
    ensures !BodyAt(Rewrite(rule, s))
  {
    if s != "" {
      if HitAt(rule, s).Some? {
        HitStarts(rule, s);
        HitKeepsStarter(rule, s);
      } else {
        UnitSurvives(rule, s);
      }
    }
  }

  lemma StillNotSegment(s: string)
    requires !SegmentAt(s)
    ensures !SegmentAt(Rewrite(Segment, s))
  {
    if s != "" {
      if HitAt(Segment, s).Some? {
        HitKeepsStarter(Segment, s);
        SlashIsNoSegment(Rewrite(Segment, s));
      } else {
        UnitSurvives(Segment, s);
      }
    }
  }

  lemma SlashIsNoSegment(s: string)
    requires LetterAt(s, '/')
    ensures !SegmentAt(s)
  {
  }

  lemma {:induction false} AfterWordSplit(s: string, word: string, c: char)
    requires AfterWord(s, word + [c]).Some?
    ensures AfterWord(s, word).Some? && LetterAt(AfterWord(s, word).value, c)
    ensures AfterWord(s, word + [c]).value == Rest(AfterWord(s, word).value)
    decreases |word|
  {
    if word == "" {
      assert word + [c] == [c];
      assert AfterWord(Rest(s), [c][1..]) == Some(Rest(s));
    } else {
      assert (word + [c])[1..] == word[1..] + [c];
      AfterWordSplit(Rest(s), word[1..], c);
    }
  }

  lemma {:induction false} AfterWordJoin(s: string, word: string, c: char)
    requires AfterWord(s, word).Some? && LetterAt(AfterWord(s, word).value, c)
    ensures AfterWord(s, word + [c]) == Some(Rest(AfterWord(s, word).value))
    decreases |word|
  {
    if word == "" {
      assert word + [c] == [c];
      assert AfterWord(Rest(s), [c][1..]) == Some(Rest(s));
    } else {
      assert (word + [c])[1..] == word[1..] + [c];
      AfterWordJoin(Rest(s), word[1..], c);
    }
  }

  lemma AfterWordStep(s: string, c: char, word: string)
    ensures AfterWord(s, [c] + word) == if LetterAt(s, c) then AfterWord(Rest(s), word) else None
  {
    assert ([c] + word)[1..] == word;
  }

  lemma TokenWord(s: string)
    ensures AfterWord(s, "ssinv_") == if LetterAt(s, 's') then AfterWord(Rest(s), "sinv_") else None
    ensures AfterWord(s, "sinv_") == if LetterAt(s, 's') then AfterWord(Rest(s), "inv_") else None
    ensures AfterWord(s, "ssinv_").Some? ==> AfterWord(s, "ssinv").Some?
  {
    assert ['s'] + "sinv_" == "ssinv_" && ['s'] + "inv_" == "sinv_" && "ssinv" + ['_'] == "ssinv_";
    AfterWordStep(s, 's', "sinv_");
    AfterWordStep(s, 's', "inv_");
    if AfterWord(s, "ssinv_").Some? {
      AfterWordSplit(s, "ssinv", '_');
    }
  }

  lemma SegmentWord(s: string)
    ensures AfterWord(s, "/invite/") == if LetterAt(s, '/') then AfterWord(Rest(s), "invite/") else None
  {
    assert ['/'] + "invite/" == "/invite/";
    AfterWordStep(s, '/', "invite/");
  }

  lemma InviteWord(s: string)
    ensures var a := AfterWord(s, "invite");
            AfterWord(s, "invite/") == if a.Some? && LetterAt(a.value, '/') then Some(Rest(a.value)) else None
  {
    assert "invite" + ['/'] == "invite/";
    if AfterWord(s, "invite/").Some? {
      AfterWordSplit(s, "invite", '/');
    } else if AfterWord(s, "invite").Some? && LetterAt(AfterWord(s, "invite").value, '/') {
      AfterWordJoin(s, "invite", '/');
    }
  }

  /** Behind a position where no token begins, rewriting makes none begin. */
  lemma NoTokenAppears(s: string)
    requires HitAt(Token, s).None?
    ensures HitAt(Token, Rewrite(Token, s)).None?
  {
    var t := Rewrite(Token, s);
    if HitAt(Token, t).Some? {
      TokenWord(t);
      UnitSurvives(Token, s);
      TokenWord(s);
      SecondLetterSurvives(Rest(s));
      TokenIsBack(s);
    }
  }

  lemma SecondLetterSurvives(s: string)
    requires AfterWord(Rewrite(Token, s), "sinv_").Some?
    ensures AfterWord(s, "sinv_").Some?
    ensures AfterWord(Rewrite(Token, s), "sinv_").value == Rewrite(Token, AfterWord(s, "sinv_").value)
  {
    TokenWord(Rewrite(Token, s));
    if HitAt(Token, s).Some? {
      TwoRawLetters(s);
      assert false;
    }
    UnitSurvives(Token, s);
    TokenWord(s);
    WordSurvives(Token, Rest(s), "inv_");
  }

  lemma TokenRewrite(s: string)
    requires HitAt(Token, s).Some?
    ensures HitAt(Token, s).value.body == s
    ensures Rewrite(Token, s) == REDACTED + Rewrite(Token, HitAt(Token, s).value.rest)
  {
    RewriteHit(Token, s);
    TokenBody(s);
    NothingKept(REDACTED + Rewrite(Token, HitAt(Token, s).value.rest));
  }

  lemma NothingKept(s: string)
    ensures "" + s == s
  {
  }

  lemma TokenBody(s: string)
    requires HitAt(Token, s).Some?
    ensures HitAt(Token, s).value.body == s && Kept(Token, s) == ""
  {
  }

  lemma TwoRawLetters(s: string)
    requires HitAt(Token, s).Some?
    ensures AfterWord(Rewrite(Token, s), "sinv_").None?
  {
    TokenRewrite(s);
    PlaceholderIsNoTail(Rewrite(Token, HitAt(Token, s).value.rest));
  }

  lemma PlaceholderIsNoTail(tail: string)
    ensures AfterWord(REDACTED + tail, "sinv_").None?
  {
    var second := "sinv_redacted" + tail;
    PlaceholderParts(tail);
    FirstUnit('s', second);
    assert ['s'] + "inv_" == "sinv_";
    AfterWordStep(REDACTED + tail, 's', "inv_");
    SecondLetterIsS(second);
  }

  lemma SecondLetterIsS(s: string)
    requires s != "" && s[0] == 's'
    ensures AfterWord(s, "inv_").None?
  {
    RawUnit(s);
    assert ['i'] + "nv_" == "inv_";
    AfterWordStep(s, 'i', "nv_");
  }

  lemma TokenIsBack(s: string)
    requires AfterWord(s, "ssinv_").Some? && HitAt(Token, s).None?
    ensures !BodyAt(Rewrite(Token, AfterWord(s, "ssinv_").value))
  {
    StillNotBody(Token, AfterWord(s, "ssinv_").value);
  }

  /** Behind a position where no /invite/ segment begins, rewriting makes none begin. */
  lemma NoSegmentAppears(s: string)
    requires HitAt(Segment, s).None?
    ensures HitAt(Segment, Rewrite(Segment, s)).None?
  {
    var t := Rewrite(Segment, s);
    if HitAt(Segment, t).Some? {
      SegmentWord(t);
      UnitSurvives(Segment, s);
      SegmentWord(s);
      InviteWord(Rest(t));
      WordSurvives(Segment, Rest(s), "invite");
      var s7 := AfterWord(Rest(s), "invite").value;
      if HitAt(Segment, s7).Some? {
        InviteBehindInvite(s);
        assert false;
      }
      UnitSurvives(Segment, s7);
      InviteWord(Rest(s));
      StillNotSegment(Rest(s7));
    }
  }

  /** /invite/invite/ is a match: the second word is the segment behind the first. */
  lemma InviteBehindInvite(s: string)
    requires LetterAt(s, '/') && AfterWord(Rest(s), "invite").Some?
    requires HitAt(Segment, AfterWord(Rest(s), "invite").value).Some?
    ensures HitAt(Segment, s).Some?
  {
    var s7 := AfterWord(Rest(s), "invite").value;
    SegmentWord(s7);
    SegmentWord(s);
    InviteWord(Rest(s));
    assert LetterAt(Rest(s7), 'i') by {
      assert ['i'] + "nvite/" == "invite/";
      AfterWordStep(Rest(s7), 'i', "nvite/");
    }
    LetterIsSegment(Rest(s7));
  }

  lemma LetterIsSegment(s: string)
    requires LetterAt(s, 'i')
    ensures SegmentAt(s)
  {
  }

  // ---------------------------------------------------------------------------
  // A rewritten text is clean
  // ---------------------------------------------------------------------------

  predicate Quiet(rule: Rule, c: char) { c != '%' && Lower(c) != Starter(rule) }

  lemma NoHitAtQuiet(rule: Rule, s: string)
    requires s != "" && Quiet(rule, s[0])
    ensures HitAt(rule, s).None?
    ensures Clean(rule, s[1..]) ==> Clean(rule, s)
    ensures Rewrite(rule, s) == [s[0]] + Rewrite(rule, s[1..])
  {
    RawUnit(s);
    if HitAt(rule, s).Some? {
      HitStarts(rule, s);
      assert false;
    }
    RewriteMiss(rule, s);
  }

  lemma {:induction false} QuietPrefix(rule: Rule, word: string, tail: string)
    requires forall i: nat :: i < |word| ==> Quiet(rule, word[i])
    ensures Clean(rule, tail) ==> Clean(rule, word + tail)
    ensures Rewrite(rule, word + tail) == word + Rewrite(rule, tail)
    decreases |word|
  {
    if word == "" {
      assert word + tail == tail;
      assert word + Rewrite(rule, tail) == Rewrite(rule, tail);
    } else {
      var s := word + tail;
      NoHitAtQuiet(rule, s);
      assert s[1..] == word[1..] + tail;
      QuietPrefix(rule, word[1..], tail);
      assert word == [word[0]] + word[1..];
    }
  }

  lemma DigitsAreQuiet(rule: Rule, s: string)
    requires s != "" && Clean(rule, Rest(s))
    requires HitAt(rule, s).Some? ==> IsPlaceholder(HitAt(rule, s).value)
    ensures Clean(rule, s)
  {
    var n := ReadUnit(s).n;
    if Encoded(s) {
      RunOfUnit(s);
    }
    assert s[1..] == s[1..n] + s[n..];
    QuietPrefix(rule, s[1..n], s[n..]);
  }

  lemma RunOfUnit(s: string)
    requires s != "" && Encoded(s)
    ensures forall i: nat :: 1 <= i < ReadUnit(s).n ==> IsHex(s[i])
  {
    SameRunSameUnit(s, s);
    assert forall i: nat :: 1 <= i < ReadUnit(s).n ==> s[i] == s[1..][i - 1];
  }

  lemma {:induction false} WordIsQuiet(rule: Rule, s: string, word: string)
    requires Starter(rule) !in word && AfterWord(s, word).Some?
    requires Clean(rule, AfterWord(s, word).value)
    ensures Clean(rule, s)
    decreases |word|
  {
    if word != "" {
      assert Starter(rule) !in word[1..];
      WordIsQuiet(rule, Rest(s), word[1..]);
      if HitAt(rule, s).Some? {
        HitStarts(rule, s);
        assert false;
      }
      DigitsAreQuiet(rule, s);
    }
  }

  lemma SecondLetterIsClean(tail: string)
    requires Clean(Token, "inv_redacted" + tail)
    ensures Clean(Token, "sinv_redacted" + tail)
  {
    var s1 := "sinv_redacted" + tail;
    assert s1[1..] == "inv_redacted" + tail;
    RawUnit(s1);
    RawUnit(s1[1..]);
    TokenWord(s1);
    TokenWord(s1[1..]);
  }

  lemma CleanPlaceholder(rule: Rule, tail: string)
    requires Clean(rule, tail) && (rule.Token? ==> !BodyAt(tail))
    ensures Clean(rule, REDACTED + tail)
  {
    if rule.Segment? {
      QuietPrefix(rule, REDACTED, tail);
    } else {
      QuietPrefix(rule, "inv_redacted", tail);
      SecondLetterIsClean(tail);
      PlaceholderParts(tail);
      PlaceholderHit(tail);
      assert (REDACTED + tail)[1..] == "sinv_redacted" + tail;
    }
  }

  lemma CleanMatch(s: string)
    requires HitAt(Segment, s).Some? && Clean(Segment, Rewrite(Segment, HitAt(Segment, s).value.rest))
    ensures Clean(Segment, Rewrite(Segment, s))
  {
    var h := HitAt(Segment, s).value;
    var tail := Rewrite(Segment, h.rest);
    RewriteHit(Segment, s);
    SegmentKept(s);
    CleanPlaceholder(Segment, tail);
    SegmentEnds(s);
    StillNotSegment(h.rest);
    CleanInvite(Kept(Segment, s), h.body, tail);
  }

  lemma CleanInvite(kept: string, body: string, tail: string)
    requires AfterWord(kept + body, "/invite/") == Some(body) && !SegmentAt(tail)
    requires Clean(Segment, REDACTED + tail)
    ensures Clean(Segment, kept + (REDACTED + tail))
  {
    var t := kept + (REDACTED + tail);
    WordThen(kept, body, "/invite/", REDACTED + tail);
    PlaceholderSegment(kept, body, tail);
    BehindFirstSlash(t, tail);
    DigitsAreQuiet(Segment, t);
  }

  lemma BehindFirstSlash(s: string, tail: string)
    requires AfterWord(s, "/invite/") == Some(REDACTED + tail) && Clean(Segment, REDACTED + tail)
    ensures s != "" && Clean(Segment, Rest(s))
  {
    SegmentWord(s);
    InviteWord(Rest(s));
    LastSlashIsClean(AfterWord(Rest(s), "invite").value, tail);
    WordIsQuiet(Segment, Rest(s), "invite");
  }

  lemma SegmentEnds(s: string)
    requires HitAt(Segment, s).Some?
    ensures !SegmentAt(HitAt(Segment, s).value.rest)
  {
  }

  lemma LastSlashIsClean(s: string, tail: string)
    requires LetterAt(s, '/') && Rest(s) == REDACTED + tail && Clean(Segment, Rest(s))
    ensures Clean(Segment, s)
  {
    SegmentWord(s);
    RawUnit(REDACTED + tail);
    assert ['i'] + "nvite/" == "invite/";
    AfterWordStep(Rest(s), 'i', "nvite/");
    DigitsAreQuiet(Segment, s);
  }

  lemma {:induction false} RewriteCleans(rule: Rule, s: string)
    ensures Clean(rule, Rewrite(rule, s))
    decreases |s|
  {
    if s != "" {
      if HitAt(rule, s).Some? {
        RewriteCleans(rule, HitAt(rule, s).value.rest);
        if rule.Token? {
          TokenRewrite(s);
          TokenEnds(s);
          StillNotBody(Token, HitAt(Token, s).value.rest);
          CleanPlaceholder(Token, Rewrite(Token, HitAt(Token, s).value.rest));
        } else {
          CleanMatch(s);
        }
      } else {
        RewriteCleans(rule, s[1..]);
        RewriteMiss(rule, s);
        if rule.Token? { NoTokenAppears(s); } else { NoSegmentAppears(s); }
      }
    }
  }

  lemma TokenEnds(s: string)
    requires HitAt(Token, s).Some?
    ensures !BodyAt(HitAt(Token, s).value.rest)
  {
  }

  /** Redacting segments leaves no new token behind. */
  lemma {:induction false} SegmentsKeepTokens(s: string)
    requires Clean(Token, s)
    ensures Clean(Token, Rewrite(Segment, s))
    decreases |s|
  {
    if s != "" {
      if HitAt(Segment, s).Some? {
        var h := HitAt(Segment, s).value;
        SegmentRest(s);
        CleanSuffix(Token, s, |s| - |h.rest|);
        SegmentsKeepTokens(h.rest);
        TokenInSegment(s);
      } else {
        SegmentsKeepTokens(s[1..]);
        RewriteMiss(Segment, s);
        TokenWasThere(s);
      }
    }
  }

  lemma SegmentRest(s: string)
    requires HitAt(Segment, s).Some?
    ensures HitAt(Segment, s).value.rest == s[|s| - |HitAt(Segment, s).value.rest|..]
  {
    SegmentIsSuffix(s);
    SegmentTail(s);
    TailOfTail(s, HitAt(Segment, s).value.body);
  }

  lemma SegmentIsSuffix(s: string)
    requires HitAt(Segment, s).Some?
    ensures HitAt(Segment, s).value.body == s[|s| - |HitAt(Segment, s).value.body|..]
  {
    SegmentKept(s);
  }

  lemma TailOfTail(s: string, body: string)
    requires body != "" && |body| <= |s| && body == s[|s| - |body|..]
    ensures var rest := AfterSegment(Rest(body)); |rest| <= |s| && rest == s[|s| - |rest|..]
  {
    var n, rest := ReadUnit(body).n, AfterSegment(Rest(body));
    AfterSegmentIsSuffix(Rest(body));
    SuffixOfSuffix(s, |s| - |body|, n, |body| - n - |rest|);
  }

  lemma SegmentTail(s: string)
    requires HitAt(Segment, s).Some?
    ensures HitAt(Segment, s).value.rest == AfterSegment(Rest(HitAt(Segment, s).value.body))
  {
  }

  lemma SuffixOfSuffix(s: string, i: nat, j: nat, k: nat)
    requires i + j + k <= |s|
    ensures s[i..][j..][k..] == s[i + j + k..]
  {
  }

  lemma {:induction false} AfterSegmentIsSuffix(s: string)
    ensures AfterSegment(s) == s[|s| - |AfterSegment(s)|..]
    decreases |s|
  {
    if SegmentAt(s) {
      AfterSegmentIsSuffix(Rest(s));
    }
  }

  lemma TokenInSegment(s: string)
    requires HitAt(Segment, s).Some? && Clean(Token, Rewrite(Segment, HitAt(Segment, s).value.rest))
    ensures Clean(Token, Rewrite(Segment, s))
  {
    var h := HitAt(Segment, s).value;
    var tail := Rewrite(Segment, h.rest);
    RewriteHit(Segment, s);
    SegmentKept(s);
    assert !BodyAt(tail) by {
      SegmentEnds(s);
      StillNotSegment(h.rest);
      if BodyAt(tail) { BodyIsSegment(tail); }
    }
    CleanPlaceholder(Token, tail);
    CleanBehindInvite(Kept(Segment, s), h.body, REDACTED + tail);
  }

  lemma CleanBehindInvite(kept: string, body: string, after: string)
    requires AfterWord(kept + body, "/invite/") == Some(body) && Clean(Token, after)
    ensures Clean(Token, kept + after)
  {
    WordThen(kept, body, "/invite/", after);
    WordIsQuiet(Token, kept + after, "/invite/");
  }

  /** A token in front of which segments were rewritten was a token before. */
  lemma TokenWasThere(s: string)
    requires s != "" && Clean(Token, s) && HitAt(Segment, s).None?
    ensures var t := Rewrite(Segment, s);
            HitAt(Token, t).Some? ==> IsPlaceholder(HitAt(Token, t).value)
  {
    if HitAt(Token, Rewrite(Segment, s)).Some? {
      WordSurvives(Segment, s, "ssinv_");
      StillNotBodyThere(s);
      TokenBody(s);
      TokenEnds(s);
      PlaceholderStays(HitAt(Token, s).value.rest);
    }
  }

  lemma PlaceholderStays(rest: string)
    requires !BodyAt(rest)
    ensures var t := Rewrite(Segment, REDACTED + rest);
            HitAt(Token, t).Some? && IsPlaceholder(HitAt(Token, t).value)
  {
    StillNotBody(Segment, rest);
    SegmentsKeepPlaceholder(rest);
    PlaceholderHit(Rewrite(Segment, rest));
  }

  lemma SegmentsKeepPlaceholder(rest: string)
    ensures Rewrite(Segment, REDACTED + rest) == REDACTED + Rewrite(Segment, rest)
  {
    QuietPrefix(Segment, REDACTED, rest);
  }

  lemma StillNotBodyThere(s: string)
    requires AfterWord(s, "ssinv_").Some? && BodyAt(Rewrite(Segment, AfterWord(s, "ssinv_").value))
    ensures HitAt(Token, s).Some?
  {
    if !BodyAt(AfterWord(s, "ssinv_").value) {
      StillNotBody(Segment, AfterWord(s, "ssinv_").value);
    }
  }

  // ---------------------------------------------------------------------------
  // The whole redaction
  // ---------------------------------------------------------------------------

  lemma {:induction false} MightContainLater(s: string, k: nat)
    requires k <= |s| && MightContain(s[k..])
    ensures MightContain(s)
    decreases k
  {
    if k > 0 {
      assert s[1..][k - 1..] == s[k..];
      MightContainLater(s[1..], k - 1);
    } else {
      assert s[0..] == s;
    }
  }

  /** The quick look misses no match of either pattern. */
  lemma {:induction false} QuickLookIsSafe(rule: Rule, s: string)
    requires !MightContain(s)
    ensures Clean(rule, s)
  {
    if s != "" {
      QuickLookIsSafe(rule, s[1..]);
      if HitAt(rule, s).Some? {
        if rule.Token? {
          TokenWord(s);
        } else {
          SegmentKept(s);
          SegmentWord(s);
          InviteWord(Rest(s));
          MightContainLater(s, ReadUnit(s).n);
        }
        assert false;
      }
    }
  }

  /** No position of a redacted text spells a token other than the placeholder, raw or
      encoded in any number of layers, and none has another segment behind /invite/. */
  lemma NoTokenRemains(text: string)
    ensures Clean(Token, RedactInviteTokens(text)) && Clean(Segment, RedactInviteTokens(text))
  {
    if MightContain(text) {
      RewriteCleans(Token, text);
      SegmentsKeepTokens(Rewrite(Token, text));
      RewriteCleans(Segment, Rewrite(Token, text));
    } else {
      QuickLookIsSafe(Token, text);
      QuickLookIsSafe(Segment, text);
    }
  }

  lemma CleanTextIsKept(text: string)
    requires Clean(Token, text) && Clean(Segment, text)
    ensures RedactInviteTokens(text) == text
  {
    CleanIsFixed(Token, text);
    CleanIsFixed(Segment, text);
  }

  /** One pass reaches the fixed point. */
  lemma OnePassIsEnough(text: string)
    ensures RedactInviteTokens(RedactInviteTokens(text)) == RedactInviteTokens(text)
    ensures !CarriesInviteToken(RedactInviteTokens(text))
  {
    NoTokenRemains(text);
    CleanTextIsKept(RedactInviteTokens(text));
  }

  /** An address carries a token exactly when some position of it spells one. */
  lemma CarriesIffSpelled(address: string)
    ensures CarriesInviteToken(address) <==> !(Clean(Token, address) && Clean(Segment, address))
  {
    if Clean(Token, address) && Clean(Segment, address) {
      CleanTextIsKept(address);
    }
    NoTokenRemains(address);
  }

  /** Text that begins no match is kept. */
  lemma {:induction false} OnlyMatchesChange(rule: Rule, s: string, k: nat)
    requires k <= |s| && forall i: nat :: i < k ==> HitAt(rule, s[i..]).None?
    ensures Rewrite(rule, s) == s[..k] + Rewrite(rule, s[k..])
    decreases k
  {
    assert s[0..] == s;
    if k > 0 {
      RewriteMiss(rule, s);
      assert forall i: nat :: i < k - 1 ==> s[1..][i..] == s[i + 1..];
      OnlyMatchesChange(rule, s[1..], k - 1);
      ConsTake(s, k, Rewrite(rule, s[k..]));
    }
  }

  // ---------------------------------------------------------------------------
  // Nothing but credentials changes
  // ---------------------------------------------------------------------------

  /** A character that begins no match, or a match: what it keeps, and the credential. */
  datatype Part = Plain(c: char) | Match(kept: string, credential: string)

  function TextOf(parts: seq<Part>): string {
    if parts == [] then ""
    else match parts[0]
      case Plain(c) => [c] + TextOf(parts[1..])
      case Match(kept, credential) => kept + (credential + TextOf(parts[1..]))
  }

  function Masked(parts: seq<Part>): string {
    if parts == [] then ""
    else match parts[0]
      case Plain(c) => [c] + Masked(parts[1..])
      case Match(kept, _) => kept + (REDACTED + Masked(parts[1..]))
  }

  /** The text falls into these parts: a match is taken wherever one begins, with a whole
      run as its credential. */
  predicate Cut(rule: Rule, parts: seq<Part>) {
    parts != [] ==>
      && (match parts[0]
          case Plain(_) => HitAt(rule, TextOf(parts)).None?
          case Match(_, credential) =>
            credential != ""
            && HitAt(rule, TextOf(parts)) == Some(Hit(credential + TextOf(parts[1..]), TextOf(parts[1..]))))
      && Cut(rule, parts[1..])
  }

  lemma {:induction false} AfterBodyIsSuffix(s: string)
    ensures AfterBody(s) == s[|s| - |AfterBody(s)|..]
    decreases |s|
  {
    if BodyAt(s) {
      AfterBodyIsSuffix(Rest(s));
    }
  }

  lemma TokenRest(s: string)
    requires HitAt(Token, s).Some?
    ensures HitAt(Token, s).value.rest == s[|s| - |HitAt(Token, s).value.rest|..]
  {
    TokenTail(s);
    BodyOfTail(s, AfterWord(s, "ssinv_").value);
  }

  lemma TokenTail(s: string)
    requires HitAt(Token, s).Some?
    ensures var after := AfterWord(s, "ssinv_");
            after.Some? && after.value != "" && after.value == s[|s| - |after.value|..]
            && HitAt(Token, s).value.rest == AfterBody(Rest(after.value))
  {
    AfterWordIsSuffix(s, "ssinv_");
  }

  lemma BodyOfTail(s: string, after: string)
    requires after != "" && |after| <= |s| && after == s[|s| - |after|..]
    ensures var rest := AfterBody(Rest(after)); |rest| <= |s| && rest == s[|s| - |rest|..]
  {
    var n, rest := ReadUnit(after).n, AfterBody(Rest(after));
    AfterBodyIsSuffix(Rest(after));
    SuffixOfSuffix(s, |s| - |after|, n, |after| - n - |rest|);
  }

  lemma RestIsSuffix(rule: Rule, s: string)
    requires HitAt(rule, s).Some?
    ensures HitAt(rule, s).value.rest == s[|s| - |HitAt(rule, s).value.rest|..]
  {
    if rule.Token? { TokenRest(s); } else { SegmentRest(s); }
  }

  lemma HitParts(rule: Rule, s: string) returns (credential: string)
    requires HitAt(rule, s).Some?
    ensures var h := HitAt(rule, s).value;
            credential != "" && h.body == credential + h.rest && s == Kept(rule, s) + (credential + h.rest)
  {
    RewriteHit(rule, s);
    RestIsSuffix(rule, s);
    credential := Credential(s, Kept(rule, s), HitAt(rule, s).value);
  }

  lemma Credential(s: string, kept: string, h: Hit) returns (credential: string)
    requires s == kept + h.body && |h.rest| < |h.body| && h.rest == s[|s| - |h.rest|..]
    ensures credential != "" && h.body == credential + h.rest
  {
    credential := h.body[..|h.body| - |h.rest|];
    SuffixIn(s, kept, h.body, h.rest);
  }

  lemma SuffixIn(s: string, kept: string, body: string, rest: string)
    requires s == kept + body && |rest| <= |body| && rest == s[|s| - |rest|..]
    ensures body == body[..|body| - |rest|] + rest
  {
    assert body[|body| - |rest|..] == s[|s| - |rest|..];
  }

  /** Every text falls into such parts, and rewriting it puts the placeholder in the place of
      each credential and keeps all the rest, in order. */
  lemma {:induction false} OnlyCredentialsChange(rule: Rule, s: string) returns (parts: seq<Part>)
    ensures TextOf(parts) == s && Cut(rule, parts) && Rewrite(rule, s) == Masked(parts)
    decreases |s|
  {
    if s == "" {
      parts := [];
    } else if HitAt(rule, s).Some? {
      var credential := HitParts(rule, s);
      RewriteHit(rule, s);
      var rest := OnlyCredentialsChange(rule, HitAt(rule, s).value.rest);
      parts := [Match(Kept(rule, s), credential)] + rest;
      assert parts[1..] == rest;
    } else {
      RewriteMiss(rule, s);
      var rest := OnlyCredentialsChange(rule, s[1..]);
      parts := [Plain(s[0])] + rest;
      assert parts[1..] == rest && s == [s[0]] + s[1..];
    }
  }

  // ---------------------------------------------------------------------------
  // No spelling of a token escapes
  // ---------------------------------------------------------------------------

  /** One character as it is, or percent-encoded (section 2.1 of RFC 3986) with the percent
      sign itself encoded again that many times; hexadecimal digits in either case. */
  datatype Spelling = AsIs | Percent(layers: nat, lower: bool)

  function HexDigit(v: nat, lower: bool): (c: char)
    requires v < 16
    ensures IsHex(c) && HexValue(c) == v
  {
    if v < 10 then ('0' as nat + v) as char
    else if lower then ('a' as nat + v - 10) as char
    else ('A' as nat + v - 10) as char
  }

  function LayersOf(k: nat, rest: string): string { if k == 0 then rest else ['2', '5'] + LayersOf(k - 1, rest) }

  function Code(c: char, lower: bool): string
    requires c < 128 as char
  {
    [HexDigit(c as nat / 16, lower), HexDigit(c as nat % 16, lower)]
  }

  /** The character spelled in front of a text. */
  function Spelled(c: char, how: Spelling, rest: string): string
    requires c < 128 as char
  {
    match how
    case AsIs => [c] + rest
    case Percent(layers, lower) => ['%'] + LayersOf(layers, Code(c, lower) + rest)
  }

  function SpelledAll(word: string, how: seq<Spelling>, rest: string): string
    requires |how| == |word| && forall i: nat :: i < |word| ==> word[i] < 128 as char
  {
    if word == "" then rest else Spelled(word[0], how[0], SpelledAll(word[1..], how[1..], rest))
  }

  lemma {:induction false} LayersAreRead(k: nat, code: string, rest: string)
    requires |code| == 2 && code != "25"
    ensures var s := LayersOf(k, code + rest);
            Layers(s) == 2 * k && |s| >= 2 * k + 2 && s[2 * k..] == code + rest
  {
    var s := LayersOf(k, code + rest);
    if k == 0 {
      assert s == code + rest && s[0..] == s;
      assert s[0] == code[0] && s[1] == code[1];
      assert code == [code[0], code[1]];
    } else {
      LayersAreRead(k - 1, code, rest);
      var inner := LayersOf(k - 1, code + rest);
      assert s[2..] == inner;
      assert s[2 * k..] == inner[2 * k - 2..];
    }
  }

  lemma CodeIsNoLayer(c: char, lower: bool)
    requires c < 128 as char && c != '%'
    ensures Code(c, lower) != "25"
  {
    assert HexValue(Code(c, lower)[0]) == c as nat / 16 && HexValue(Code(c, lower)[1]) == c as nat % 16;
  }

  lemma SpellingIsRead(c: char, how: Spelling, rest: string)
    requires c < 128 as char && c != '%'
    ensures var s := Spelled(c, how, rest);
            s != "" && ReadUnit(s).c == c && Rest(s) == rest
  {
    var s := Spelled(c, how, rest);
    match how
    case AsIs => RawUnit(s);
    case Percent(k, lower) =>
      CodeIsNoLayer(c, lower);
      LayersAreRead(k, Code(c, lower), rest);
      var inner := LayersOf(k, Code(c, lower) + rest);
      assert s[1..] == inner;
      EncodedIsRead(s, inner, 2 * k, c, lower, rest);
  }

  lemma EncodedIsRead(s: string, inner: string, n: nat, c: char, lower: bool, rest: string)
    requires s == ['%'] + inner && Layers(inner) == n && n + 2 <= |inner|
    requires c < 128 as char && inner[n..] == Code(c, lower) + rest
    ensures ReadUnit(s).c == c && Rest(s) == rest
  {
    assert s[1..] == inner;
    assert s[n + 1] == inner[n..][0] == HexDigit(c as nat / 16, lower);
    assert s[n + 2] == inner[n..][1] == HexDigit(c as nat % 16, lower);
    assert s[n + 3..] == inner[n..][2..] == rest;
    assert c as nat == 16 * (c as nat / 16) + c as nat % 16;
  }

  /** A word in any case and any spelling is the word. */
  lemma {:induction false} WordIsRead(word: string, token: string, how: seq<Spelling>, rest: string)
    requires |token| == |word| == |how|
    requires forall i: nat :: i < |word| ==> token[i] < 128 as char && token[i] != '%' && Lower(token[i]) == word[i]
    ensures AfterWord(SpelledAll(token, how, rest), word) == Some(rest)
    decreases |word|
  {
    if word != "" {
      SpellingIsRead(token[0], how[0], SpelledAll(token[1..], how[1..], rest));
      WordIsRead(word[1..], token[1..], how[1..], rest);
    }
  }

  /** However the characters of a token are spelled, wherever it stands: it is redacted,
      unless what stands there is the placeholder. */
  lemma NoSpellingEscapes(before: string, token: string, how: seq<Spelling>, c: char, cHow: Spelling, after: string)
    requires |token| == |how| == |"ssinv_"| && IsBody(c)
    requires forall i: nat :: i < |token| ==>
               token[i] < 128 as char && token[i] != '%' && Lower(token[i]) == "ssinv_"[i]
    ensures var text := before + SpelledAll(token, how, Spelled(c, cHow, after));
            CarriesInviteToken(text) || REDACTED <= text[|before|..]
  {
    var body := Spelled(c, cHow, after);
    var s := SpelledAll(token, how, body);
    var text := before + s;
    WordIsRead("ssinv_", token, how, body);
    SpellingIsRead(c, cHow, after);
    assert HitAt(Token, s).Some? by { TokenHit(s, body, AfterBody(Rest(body))); }
    assert text[|before|..] == s;
    if !CarriesInviteToken(text) {
      CarriesIffSpelled(text);
      CleanSuffix(Token, text, |before|);
      TokenBody(s);
      assert IsPlaceholder(HitAt(Token, s).value);
    }
  }

  /** However /invite/ is spelled: the segment behind it is redacted, unless it is the
      placeholder already. */
  lemma NoInviteEscapes(before: string, word: string, how: seq<Spelling>, segment: string)
    requires |word| == |how| == |"/invite/"| && SegmentAt(segment)
    requires forall i: nat :: i < |word| ==> word[i] < 128 as char && word[i] != '%' && Lower(word[i]) == "/invite/"[i]
    ensures CarriesInviteToken(before + SpelledAll(word, how, segment)) || REDACTED <= segment
  {
    var s := SpelledAll(word, how, segment);
    var text := before + s;
    WordIsRead("/invite/", word, how, segment);
    assert HitAt(Segment, s).Some? && HitAt(Segment, s).value.body == segment by {
      SegmentHit(s, segment, AfterSegment(Rest(segment)));
    }
    assert text[|before|..] == s;
    if !CarriesInviteToken(text) {
      CarriesIffSpelled(text);
      CleanSuffix(Segment, text, |before|);
      assert IsPlaceholder(HitAt(Segment, s).value);
    }
  }

  // ---------------------------------------------------------------------------
  // Values
  // ---------------------------------------------------------------------------

  /** Plain objects and arrays; everything else that is not a string is kept as it is. */
  datatype Json = Str(text: string) | Arr(items: seq<Json>) | Obj(fields: seq<Field>) | Other(id: int)
  datatype Field = Field(name: string, value: Json)

  const MAX_DEPTH := 80

  function Deep(v: Json, depth: nat): (r: Json)
    decreases v
  {
    match v
    case Str(text) => Str(RedactInviteTokens(text))
    case Other(_) => v
    case Arr(items) =>
      if depth > MAX_DEPTH then v
      else Arr(seq(|items|, i requires 0 <= i < |items| => Deep(items[i], depth + 1)))
    case Obj(fields) =>
      if depth > MAX_DEPTH then v
      else Obj(seq(|fields|, i requires 0 <= i < |fields| =>
             Field(fields[i].name, Deep(fields[i].value, depth + 1))))
  }

  method RedactInviteTokensDeep(value: Json, depth: nat) returns (r: Json)
    ensures r == Deep(value, depth)
    decreases value, 1
  {
    match value {
      case Str(text) => r := Str(RedactInviteTokens(text));
      case Other(_) => r := value;
      case Arr(_) =>
        if depth > MAX_DEPTH { return value; }
        r := RedactArray(value, depth);
      case Obj(_) =>
        if depth > MAX_DEPTH { return value; }
        r := RedactObject(value, depth);
    }
  }

  /** The loop over an array, which it copies at the first change. */
  method RedactArray(value: Json, depth: nat) returns (r: Json)
    requires value.Arr? && depth <= MAX_DEPTH
    ensures r == Deep(value, depth)
    decreases value, 0
  {
    var items := value.items;
    var copy: Option<seq<Json>> := None;
    for i := 0 to |items|
      invariant copy.Some? ==> |copy.value| == |items|
      invariant forall j: nat :: j < i ==> (if copy.Some? then copy.value else items)[j] == Deep(items[j], depth + 1)
      invariant forall j: nat :: i <= j < |items| ==> (if copy.Some? then copy.value else items)[j] == items[j]
    {
      var next := RedactInviteTokensDeep(items[i], depth + 1);
      if next != items[i] {
        copy := Some((if copy.Some? then copy.value else items)[i := next]);
      }
    }
    r := if copy.Some? then Arr(copy.value) else value;
  }

  method RedactObject(value: Json, depth: nat) returns (r: Json)
    requires value.Obj? && depth <= MAX_DEPTH
    ensures r == Deep(value, depth)
    decreases value, 0
  {
    var fields := value.fields;
    var copy: Option<seq<Field>> := None;
    for i := 0 to |fields|
      invariant copy.Some? ==> |copy.value| == |fields|
      invariant forall j: nat :: j < i ==> (if copy.Some? then copy.value else fields)[j] == DeepField(fields[j], depth)
      invariant forall j: nat :: i <= j < |fields| ==> (if copy.Some? then copy.value else fields)[j] == fields[j]
    {
      var next := RedactInviteTokensDeep(fields[i].value, depth + 1);
      if next != fields[i].value {
        copy := Some((if copy.Some? then copy.value else fields)[i := Field(fields[i].name, next)]);
      }
    }
    r := if copy.Some? then Obj(copy.value) else value;
  }

  function DeepField(field: Field, depth: nat): Field { Field(field.name, Deep(field.value, depth + 1)) }

  /** The value a path of positions leads to. */
  function At(v: Json, path: seq<nat>): Option<Json>
    decreases |path|
  {
    if path == [] then Some(v)
    else match v
      case Arr(items) => if path[0] < |items| then At(items[path[0]], path[1..]) else None
      case Obj(fields) => if path[0] < |fields| then At(fields[path[0]].value, path[1..]) else None
      case _ => None
  }

  function Names(fields: seq<Field>): (names: seq<string>)
    ensures |names| == |fields|
  {
    seq(|fields|, i requires 0 <= i < |fields| => fields[i].name)
  }

  /** One constructor, as many members, and the same keys. */
  predicate SameNode(a: Json, b: Json) {
    match (a, b)
    case (Str(_), Str(_)) => true
    case (Arr(x), Arr(y)) => |x| == |y|
    case (Obj(x), Obj(y)) => Names(x) == Names(y)
    case (Other(x), Other(y)) => x == y
    case _ => false
  }

  lemma {:induction false} DeepAt(v: Json, depth: nat, path: seq<nat>)
    requires depth <= MAX_DEPTH + 1
    ensures At(Deep(v, depth), path) ==
            match At(v, path) {
              case None => None
              case Some(u) => Some(if depth + |path| <= MAX_DEPTH + 1 then Deep(u, depth + |path|) else u)
            }
    decreases |path|
  {
    if path != [] && depth <= MAX_DEPTH {
      match v
      case Arr(items) => if path[0] < |items| { DeepAt(items[path[0]], depth + 1, path[1..]); }
      case Obj(fields) => if path[0] < |fields| { DeepAt(fields[path[0]].value, depth + 1, path[1..]); }
      case _ =>
    }
  }

  /** The shape is preserved wherever a path leads, and a string is redacted exactly when
      at most 81 steps lead to it. */
  lemma DeepRedactsWhatItReaches(v: Json, path: seq<nat>)
    ensures var (a, b) := (At(v, path), At(Deep(v, 0), path));
            && (a.Some? <==> b.Some?)
            && (a.Some? ==> SameNode(a.value, b.value))
            && (a.Some? && a.value.Str? ==>
                b.value.text == if |path| <= MAX_DEPTH + 1 then RedactInviteTokens(a.value.text) else a.value.text)
  {
    DeepAt(v, 0, path);
  }

  /** A credential survives exactly in the strings that lie deeper. */
  lemma CredentialsSurviveOnlyBelow(v: Json, path: seq<nat>)
    requires At(v, path).Some? && At(v, path).value.Str?
    ensures At(Deep(v, 0), path).Some? && At(Deep(v, 0), path).value.Str?
    ensures CarriesInviteToken(At(Deep(v, 0), path).value.text)
            <==> |path| > MAX_DEPTH + 1 && CarriesInviteToken(At(v, path).value.text)
  {
    DeepRedactsWhatItReaches(v, path);
    OnePassIsEnough(At(v, path).value.text);
  }

  lemma {:induction false} DeepOnce(v: Json, depth: nat)
    ensures Deep(Deep(v, depth), depth) == Deep(v, depth)
    decreases v
  {
    match v
    case Str(text) => OnePassIsEnough(text);
    case Other(_) =>
    case Arr(items) =>
      forall i: nat | i < |items| ensures Deep(Deep(items[i], depth + 1), depth + 1) == Deep(items[i], depth + 1) {
        DeepOnce(items[i], depth + 1);
      }
    case Obj(fields) =>
      forall i: nat | i < |fields|
        ensures Deep(Deep(fields[i].value, depth + 1), depth + 1) == Deep(fields[i].value, depth + 1)
      {
        DeepOnce(fields[i].value, depth + 1);
      }
  }
}
