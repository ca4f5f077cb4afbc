/**
 globToRegExp compiles a glob to the source text of a regular expression.  The text,
 parsed back, means exactly what the glob means, and excluder applies it.
 */
module Glob {
  import opened Options
  import opened Regex

  // ---------------------------------------------------------------------------
  // What a glob means
  // ---------------------------------------------------------------------------

  /** The pieces of a glob: ** with a slash, ** alone, *, ?, and every other character. */
  datatype Piece = Dirs | Deep | Run | One | Char(c: char)

  /** The piece a glob begins with. */
  function Head(glob: string): (p: Piece)
    requires glob != ""
    ensures Width(p) <= |glob|
  {
    if glob[0] == '*' && |glob| > 1 && glob[1] == '*' then
      if |glob| > 2 && glob[2] == '/' then Dirs else Deep
    else if glob[0] == '*' then Run
    else if glob[0] == '?' then One
    else Char(glob[0])
  }

  /** How many characters of the glob a piece takes. */
  function Width(p: Piece): (n: nat)
    ensures n > 0
  {
    match p
    case Dirs => 3
    case Deep => 2
    case _ => 1
  }

  function Tail(glob: string): (rest: string)
    requires glob != ""
    ensures |rest| < |glob|
  {
    glob[Width(Head(glob))..]
  }

  /** No line terminator in the run, unless the reading is wide. */
  predicate AnyRun(s: string, wide: bool) { wide || forall i :: 0 <= i < |s| ==> !LineTerminator(s[i]) }

  predicate SlashFree(s: string) { forall i :: 0 <= i < |s| ==> s[i] != '/' }

  /** What a piece may stand for.  Read wide, ** stands for any run; read as the
      regular expression reads it, for a run without line terminators. */
  predicate StandsFor(p: Piece, s: string, wide: bool) {
    match p
    case Dirs => s == "" || (s[|s| - 1] == '/' && AnyRun(s[..|s| - 1], wide))
    case Deep => AnyRun(s, wide)
    case Run => SlashFree(s)
    case One => |s| == 1 && s[0] != '/'
    case Char(c) => s == [c]
  }

  /** The direct meaning of a glob. */
  predicate GlobMatches(glob: string, path: string, wide: bool)
    decreases |glob|
  {
    if glob == "" then path == ""
    else
      exists k ::
        0 <= k <= |path| && StandsFor(Head(glob), path[..k], wide) && GlobMatches(Tail(glob), path[k..], wide)
  }

  // ---------------------------------------------------------------------------
  // The compiler
  // ---------------------------------------------------------------------------

  /** c.replace(/[.+^${}()|[\]\\]/g, "\\$&") */
  function Escape(c: char): string {
    if c in {'.', '+', '^', '$', '{', '}', '(', ')', '|', '[', ']', '\\'} then ['\\', c] else [c]
  }

  function Source(p: Piece): (s: string)
    ensures s != ""
  {
    match p
    case Dirs => "(?:.*/)?"
    case Deep => ".*"
    case Run => "[^/]*"
    case One => "[^/]"
    case Char(c) => Escape(c)
  }

  /** The text between ^ and $. */
  function Compiled(glob: string): string
    decreases |glob|
  {
    if glob == "" then "" else Source(Head(glob)) + Compiled(Tail(glob))
  }

  /** The piece at an index, told from the characters there. */
  function PieceAt(glob: string, i: nat): Piece
    requires i < |glob|
  {
    if glob[i] == '*' && i + 1 < |glob| && glob[i + 1] == '*' then
      if i + 2 < |glob| && glob[i + 2] == '/' then Dirs else Deep
    else if glob[i] == '*' then Run
    else if glob[i] == '?' then One
    else Char(glob[i])
  }

  /** The text written so far, with what the rest of the glob adds to it. */
  function Written(re: string, rest: string): string
    decreases |rest|
  {
    if rest == "" then re else Written(re + Source(Head(rest)), Tail(rest))
  }

  lemma {:induction false} WrittenIsCompiled(re: string, rest: string)
    ensures Written(re, rest) == re + Compiled(rest)
    decreases |rest|
  {
    if rest != "" {
      var s := Source(Head(rest));
      WrittenIsCompiled(re + s, Tail(rest));
      assert re + s + Compiled(Tail(rest)) == re + (s + Compiled(Tail(rest)));
    }
  }

  /** One piece moves from the glob still to read to the text already written. */
  lemma PieceTaken(glob: string, i: nat, re: string)
    requires i < |glob|
    ensures var p := PieceAt(glob, i);
            i + Width(p) <= |glob| && Written(re + Source(p), glob[i + Width(p)..]) == Written(re, glob[i..])
  {
    var rest := glob[i..];
    assert Head(rest) == PieceAt(glob, i);
    assert Tail(rest) == glob[i + Width(Head(rest))..];
  }

  method GlobToRegExp(glob: string) returns (source: string)
    ensures source == "^" + Compiled(glob) + "$"
  {
    var re := "";
    var i := 0;
    assert glob[0..] == glob;
    while i < |glob|
      invariant 0 <= i <= |glob|
      invariant Written(re, glob[i..]) == Written("", glob)
    {
      PieceTaken(glob, i, re);
      var c := glob[i];
      var piece := Char(c);
      if c == '*' && i + 1 < |glob| && glob[i + 1] == '*' {
        i := i + 1;
        if i + 1 < |glob| && glob[i + 1] == '/' {
          i := i + 1;
          piece := Dirs;
        } else {
          piece := Deep;
        }
      } else if c == '*' {
        piece := Run;
      } else if c == '?' {
        piece := One;
      }
      re := re + Source(piece);
      i := i + 1;
    }
    WrittenToTheEnd(glob, re);
    return "^" + re + "$";
  }

  lemma WrittenToTheEnd(glob: string, re: string)
    requires Written(re, "") == Written("", glob)
    ensures re == Compiled(glob)
  {
    WrittenIsCompiled("", glob);
    assert "" + Compiled(glob) == Compiled(glob);
  }

  // ---------------------------------------------------------------------------
  // The text parses back to the expression it denotes
  // ---------------------------------------------------------------------------

  function PieceRegex(p: Piece): Regex {
    match p
    case Dirs => Opt(Cat(Star(Dot), Cat(Lit('/'), Eps)))
    case Deep => Star(Dot)
    case Run => Star(NotSlash)
    case One => NotSlash
    case Char(c) => Lit(c)
  }

  function Denoted(glob: string): Regex
    decreases |glob|
  {
    if glob == "" then Eps else Cat(PieceRegex(Head(glob)), Denoted(Tail(glob)))
  }

  /** No quantifier and no closing parenthesis: what comes before is complete. */
  predicate Fresh(text: string) { text == "" || text[0] !in {'*', '?', ')'} }

  lemma CompiledIsFresh(glob: string)
    ensures Fresh(Compiled(glob))
  {
    if glob != "" {
      assert Compiled(glob)[0] == Source(Head(glob))[0];
    }
  }

  lemma GroupParses(regex: Regex, inner: string, rest: string)
    requires ParseItems(inner) == Some(Parsed(regex, ")" + rest))
    ensures ParseAtom("(?:" + inner) == Some(Parsed(regex, rest))
  {
    var text := "(?:" + inner;
    assert text[..3] == "(?:" && text[3..] == inner;
    assert (")" + rest)[1..] == rest;
  }

  lemma LastSlashParses(rest: string)
    ensures ParseItems("/" + (")" + rest)) == Some(Parsed(Cat(Lit('/'), Eps), ")" + rest))
  {
    var close := ")" + rest;
    assert ("/" + close)[1..] == close;
    assert ParseItems(close) == Some(Parsed(Eps, close));
    assert Quantified(Parsed(Lit('/'), close)) == Parsed(Lit('/'), close);
  }

  lemma DirsGroupParses(more: string)
    ensures ParseAtom("(?:.*/)?" + more) == Some(Parsed(Cat(Star(Dot), Cat(Lit('/'), Eps)), "?" + more))
  {
    var slash := "/" + (")" + ("?" + more));
    var inner := "." + ("*" + slash);
    LastSlashParses("?" + more);
    assert inner[1..] == "*" + slash;
    StarParses(Dot, inner, slash);
    GroupParses(Cat(Star(Dot), Cat(Lit('/'), Eps)), inner, "?" + more);
    DirsText(more);
  }

  lemma DirsText(more: string)
    ensures "(?:.*/)?" + more == "(?:" + ("." + ("*" + ("/" + (")" + ("?" + more)))))
  {
  }

  /** An atom followed by a star is the starred atom. */
  lemma StarParses(atom: Regex, text: string, more: string)
    requires text != "" && text[0] != ')' && ParseAtom(text) == Some(Parsed(atom, "*" + more))
    ensures ParseItems(more).Some? ==>
              ParseItems(text) ==
              Some(Parsed(Cat(Star(atom), ParseItems(more).value.regex), ParseItems(more).value.rest))
  {
    assert ("*" + more)[1..] == more;
  }

  lemma AtomParses(atom: Regex, text: string, more: string)
    requires text != "" && text[0] != ')' && ParseAtom(text) == Some(Parsed(atom, more)) && Fresh(more)
    ensures ParseItems(more).Some? ==>
              ParseItems(text) == Some(Parsed(Cat(atom, ParseItems(more).value.regex), ParseItems(more).value.rest))
  {
  }

  lemma CharParses(c: char, more: string)
    requires c !in {'*', '?'}
    ensures ParseAtom(Escape(c) + more) == Some(Parsed(Lit(c), more))
    ensures (Escape(c) + more)[0] != ')'
  {
    var text := Escape(c) + more;
    if Escape(c) == [c] {
      assert text[0] == c && text[1..] == more;
    } else {
      assert text[0] == '\\' && text[1] == c && text[2..] == more;
    }
  }

  /** A piece's text, followed by the text of another piece, parses to the piece. */
  lemma PieceParses(p: Piece, more: string)
    requires Fresh(more)
    requires p.Char? ==> p.c !in {'*', '?'}
    ensures ParseItems(more).Some? ==>
              ParseItems(Source(p) + more) ==
              Some(Parsed(Cat(PieceRegex(p), ParseItems(more).value.regex), ParseItems(more).value.rest))
  {
    var text := Source(p) + more;
    match p
    case Dirs =>
      DirsGroupParses(more);
      assert ("?" + more)[1..] == more;
    case Deep =>
      assert text[1..] == "*" + more;
      StarParses(Dot, text, more);
    case Run =>
      assert text[..4] == "[^/]" && text[4..] == "*" + more;
      StarParses(NotSlash, text, more);
    case One =>
      assert text[..4] == "[^/]" && text[4..] == more;
      AtomParses(NotSlash, text, more);
    case Char(c) =>
      CharParses(c, more);
      AtomParses(Lit(c), text, more);
  }

  lemma {:induction false} CompiledParses(glob: string)
    ensures ParseItems(Compiled(glob)) == Some(Parsed(Denoted(glob), ""))
    decreases |glob|
  {
    if glob != "" {
      CompiledIsFresh(Tail(glob));
      CompiledParses(Tail(glob));
      PieceParses(Head(glob), Compiled(Tail(glob)));
    }
  }

  /** Whatever characters the glob holds, the text is a well-formed regular expression,
      and escaping makes it the one the glob denotes. */
  lemma SourceParses(glob: string)
    ensures Parse("^" + Compiled(glob) + "$") == Some(Denoted(glob))
  {
    var source := "^" + Compiled(glob) + "$";
    assert source[1..|source| - 1] == Compiled(glob);
    CompiledParses(glob);
  }

  // ---------------------------------------------------------------------------
  // The expression means what the glob means
  // ---------------------------------------------------------------------------

  lemma {:induction false} StarOfDots(s: string)
    ensures Matches(Star(Dot), s) <==> AnyRun(s, false)
    decreases |s|
  {
    if s != "" {
      StarOfDots(s[1..]);
      if AnyRun(s, false) {
        assert AnyRun(s[1..], false);
        assert Matches(Dot, s[..1]);
      }
      if Matches(Star(Dot), s) {
        var k :| 0 < k <= |s| && Matches(Dot, s[..k]) && Matches(Star(Dot), s[k..]);
        assert k == 1 && s[..1][0] == s[0];
        assert forall i :: 1 <= i < |s| ==> s[i] == s[1..][i - 1];
      }
    }
  }

  lemma {:induction false} StarOfNotSlash(s: string)
    ensures Matches(Star(NotSlash), s) <==> SlashFree(s)
    decreases |s|
  {
    if s != "" {
      StarOfNotSlash(s[1..]);
      if SlashFree(s) {
        assert SlashFree(s[1..]);
        assert Matches(NotSlash, s[..1]);
      }
      if Matches(Star(NotSlash), s) {
        var k :| 0 < k <= |s| && Matches(NotSlash, s[..k]) && Matches(Star(NotSlash), s[k..]);
        assert k == 1 && s[..1][0] == s[0];
        assert forall i :: 1 <= i < |s| ==> s[i] == s[1..][i - 1];
      }
    }
  }

  lemma SlashMatches(s: string)
    ensures Matches(Cat(Lit('/'), Eps), s) <==> s == "/"
  {
    if s == "/" {
      assert s[..1] == "/" && s[1..] == "";
    }
    if Matches(Cat(Lit('/'), Eps), s) {
      var j :| 0 <= j <= |s| && Matches(Lit('/'), s[..j]) && Matches(Eps, s[j..]);
      assert s == s[..j] + s[j..];
    }
  }

  /** The only cut in front of a last slash. */
  lemma LastSlash(s: string, front: string -> bool, slash: string -> bool)
    requires forall t :: slash(t) <==> t == "/"
    ensures (exists k :: 0 <= k <= |s| && front(s[..k]) && slash(s[k..])) <==>
            s != "" && s[|s| - 1] == '/' && front(s[..|s| - 1])
  {
    if k :| 0 <= k <= |s| && front(s[..k]) && slash(s[k..]) {
      assert s[k..] == "/" && k == |s| - 1;
    }
    if s != "" && s[|s| - 1] == '/' {
      assert s[|s| - 1..] == "/";
    }
  }

  lemma CatMeans(a: Regex, b: Regex, s: string)
    ensures Matches(Cat(a, b), s) <==> exists k :: 0 <= k <= |s| && Matches(a, s[..k]) && Matches(b, s[k..])
  {
  }

  lemma CatOf(a: Regex, b: Regex, s: string, front: string -> bool, back: string -> bool)
    requires forall t :: front(t) <==> Matches(a, t)
    requires forall t :: back(t) <==> Matches(b, t)
    ensures Matches(Cat(a, b), s) <==> exists k :: 0 <= k <= |s| && front(s[..k]) && back(s[k..])
  {
    CatMeans(a, b, s);
  }

  lemma DirsMatch(s: string)
    ensures Matches(Cat(Star(Dot), Cat(Lit('/'), Eps)), s) <==>
            s != "" && s[|s| - 1] == '/' && AnyRun(s[..|s| - 1], false)
  {
    var front, slash := t => AnyRun(t, false), (t: string) => t == "/";
    forall t: string
      ensures Matches(Star(Dot), t) <==> front(t)
      ensures Matches(Cat(Lit('/'), Eps), t) <==> slash(t)
    {
      StarOfDots(t);
      SlashMatches(t);
    }
    CatOf(Star(Dot), Cat(Lit('/'), Eps), s, front, slash);
    LastSlash(s, front, slash);
  }

  lemma PieceMatches(p: Piece, s: string)
    ensures Matches(PieceRegex(p), s) <==> StandsFor(p, s, false)
  {
    match p
    case Dirs => DirsMatch(s);
    case Deep => StarOfDots(s);
    case Run => StarOfNotSlash(s);
    case One =>
    case Char(c) =>
  }

  lemma {:induction false} DenotedMatches(glob: string, path: string)
    ensures Matches(Denoted(glob), path) <==> GlobMatches(glob, path, false)
    decreases |glob|
  {
    if glob != "" {
      forall k | 0 <= k <= |path|
        ensures Matches(PieceRegex(Head(glob)), path[..k]) <==> StandsFor(Head(glob), path[..k], false)
        ensures Matches(Denoted(Tail(glob)), path[k..]) <==> GlobMatches(Tail(glob), path[k..], false)
      {
        PieceMatches(Head(glob), path[..k]);
        DenotedMatches(Tail(glob), path[k..]);
      }
    }
  }

  predicate NoTerminators(s: string) { forall i :: 0 <= i < |s| ==> !LineTerminator(s[i]) }

  lemma {:induction false} WideReading(glob: string, path: string)
    requires NoTerminators(path)
    ensures GlobMatches(glob, path, true) <==> GlobMatches(glob, path, false)
    decreases |glob|
  {
    if glob != "" {
      forall k | 0 <= k <= |path|
        ensures StandsFor(Head(glob), path[..k], true) <==> StandsFor(Head(glob), path[..k], false)
        ensures GlobMatches(Tail(glob), path[k..], true) <==> GlobMatches(Tail(glob), path[k..], false)
      {
        WideReading(Tail(glob), path[k..]);
      }
    }
  }

  /** For every glob, and every path without line terminators, the expression that
      globToRegExp writes matches exactly what the glob means. */
  lemma CompilerIsCorrect(glob: string, path: string)
    requires NoTerminators(path)
    ensures Test("^" + Compiled(glob) + "$", path) <==> GlobMatches(glob, path, true)
  {
    SourceParses(glob);
    DenotedMatches(glob, path);
    WideReading(glob, path);
  }

  /** And for every path at all, what the glob means when ** stops at line terminators. */
  lemma CompilerOnAnyPath(glob: string, path: string)
    ensures Test("^" + Compiled(glob) + "$", path) <==> GlobMatches(glob, path, false)
  {
    SourceParses(glob);
    DenotedMatches(glob, path);
  }

  // ---------------------------------------------------------------------------
  // Line breaks
  // ---------------------------------------------------------------------------

  predicate DoubleAt(glob: string, i: nat) { i + 1 < |glob| && glob[i] == '*' && glob[i + 1] == '*' }

  predicate HoldsDouble(glob: string) { exists i: nat :: i < |glob| && DoubleAt(glob, i) }

  predicate IsDouble(p: Piece) { p.Deep? || p.Dirs? }

  lemma DoubleIsPiece(glob: string)
    requires glob != ""
    ensures IsDouble(Head(glob)) ==> HoldsDouble(glob)
    ensures !IsDouble(Head(glob)) ==> (HoldsDouble(glob) <==> HoldsDouble(Tail(glob)))
  {
    if IsDouble(Head(glob)) {
      assert DoubleAt(glob, 0);
    } else {
      assert forall i: nat :: 0 < i < |glob| ==> (DoubleAt(glob, i) <==> DoubleAt(Tail(glob), i - 1));
      if HoldsDouble(Tail(glob)) {
        var j: nat :| j < |Tail(glob)| && DoubleAt(Tail(glob), j);
        assert DoubleAt(glob, j + 1);
      }
    }
  }

  lemma {:induction false} WithoutDouble(glob: string, path: string)
    requires !HoldsDouble(glob)
    ensures GlobMatches(glob, path, true) <==> GlobMatches(glob, path, false)
    decreases |glob|
  {
    if glob != "" {
      DoubleIsPiece(glob);
      forall k | 0 <= k <= |path|
        ensures StandsFor(Head(glob), path[..k], true) <==> StandsFor(Head(glob), path[..k], false)
        ensures GlobMatches(Tail(glob), path[k..], true) <==> GlobMatches(Tail(glob), path[k..], false)
      {
        WithoutDouble(Tail(glob), path[k..]);
      }
    }
  }

  /** How often a line feed stands in front of a slash. */
  function Breaks(s: string): nat {
    if |s| < 2 then 0 else (if s[0] == '\n' && s[1] == '/' then 1 else 0) + Breaks(s[1..])
  }

  lemma {:induction false} BreaksOfConcat(a: string, b: string)
    ensures Breaks(a) + Breaks(b) <= Breaks(a + b) <= Breaks(a) + Breaks(b) + 1
    decreases |a|
  {
    if a == "" {
      assert a + b == b;
    } else {
      assert (a + b)[1..] == a[1..] + b;
      BreaksOfConcat(a[1..], b);
      if |a| == 1 {
        assert a[1..] == "" && "" + b == b;
      }
    }
  }

  lemma {:induction false} NoBreaks(s: string)
    requires (forall i: nat :: i < |s| ==> s[i] != '\n') || SlashFree(s)
    ensures Breaks(s) == 0
  {
    if |s| >= 2 {
      assert forall i: nat :: i < |s[1..]| ==> s[1..][i] == s[i + 1];
      NoBreaks(s[1..]);
    }
  }

  /** The expression's pieces hold no break, so a path it matches has few. */
  lemma PieceHasNoBreak(p: Piece, s: string)
    requires StandsFor(p, s, false)
    ensures Breaks(s) == 0
  {
    match p
    case Dirs =>
      if s != "" {
        var t := s[..|s| - 1];
        assert forall i: nat :: i < |t| ==> t[i] == s[i] && !LineTerminator(t[i]);
        assert forall i: nat :: i < |s| ==> s[i] != '\n';
      }
      NoBreaks(s);
    case Deep =>
      assert forall i: nat :: i < |s| ==> !LineTerminator(s[i]);
      NoBreaks(s);
    case Run => NoBreaks(s);
    case One =>
    case Char(_) =>
  }

  lemma {:induction false} FewBreaks(glob: string, path: string)
    requires GlobMatches(glob, path, false)
    ensures Breaks(path) <= |glob|
    decreases |glob|
  {
    if glob != "" {
      var k :| 0 <= k <= |path| && StandsFor(Head(glob), path[..k], false) && GlobMatches(Tail(glob), path[k..], false);
      PieceHasNoBreak(Head(glob), path[..k]);
      FewBreaks(Tail(glob), path[k..]);
      BreaksOfConcat(path[..k], path[k..]);
      assert path[..k] + path[k..] == path;
    }
  }

  /** That many breaks, behind which a slash stands. */
  function Zigzag(n: nat): (s: string)
    ensures s != "" && s[|s| - 1] == '/' && s[0] in {'\n', '/'}
  {
    if n == 0 then "/" else ['\n', '/'] + Zigzag(n - 1)
  }

  lemma {:induction false} ZigzagBreaks(n: nat)
    ensures Breaks(Zigzag(n)) >= n
  {
    if n > 0 {
      ZigzagBreaks(n - 1);
      BreaksOfConcat(['\n', '/'], Zigzag(n - 1));
      assert ['\n', '/'][1..] == ['/'];
      assert Breaks(['\n', '/']) == 1;
    }
  }

  function Filler(p: Piece): string {
    match p
    case One => "x"
    case Char(c) => [c]
    case _ => ""
  }

  lemma MatchesConcat(glob: string, s: string, rest: string)
    requires glob != "" && StandsFor(Head(glob), s, true) && GlobMatches(Tail(glob), rest, true)
    ensures GlobMatches(glob, s + rest, true)
  {
    assert (s + rest)[..|s|] == s && (s + rest)[|s|..] == rest;
  }

  lemma {:induction false} SomePath(glob: string) returns (path: string)
    ensures GlobMatches(glob, path, true)
    decreases |glob|
  {
    path := "";
    if glob != "" {
      var rest := SomePath(Tail(glob));
      MatchesConcat(glob, Filler(Head(glob)), rest);
      path := Filler(Head(glob)) + rest;
    }
  }

  /** A glob that holds ** means paths with as many breaks as one likes. */
  lemma {:induction false} ManyBreaks(glob: string, n: nat) returns (path: string)
    requires HoldsDouble(glob)
    ensures GlobMatches(glob, path, true) && Breaks(path) >= n
    decreases |glob|
  {
    DoubleIsPiece(glob);
    var s, rest;
    if IsDouble(Head(glob)) {
      s := Zigzag(n);
      ZigzagBreaks(n);
      rest := SomePath(Tail(glob));
    } else {
      s := Filler(Head(glob));
      rest := ManyBreaks(Tail(glob), n);
    }
    MatchesConcat(glob, s, rest);
    BreaksOfConcat(s, rest);
    path := s + rest;
  }

  /** The expression matches what the glob means, line terminators included, for every path
      if and only if the glob does not hold **. */
  lemma MeansTheSameIff(glob: string)
    ensures (forall path :: Test("^" + Compiled(glob) + "$", path) <==> GlobMatches(glob, path, true))
            <==> !HoldsDouble(glob)
  {
    if HoldsDouble(glob) {
      var path := ManyBreaks(glob, |glob| + 1);
      if GlobMatches(glob, path, false) { FewBreaks(glob, path); }
      CompilerOnAnyPath(glob, path);
    } else {
      forall path ensures Test("^" + Compiled(glob) + "$", path) <==> GlobMatches(glob, path, true) {
        CompilerOnAnyPath(glob, path);
        WithoutDouble(glob, path);
      }
    }
  }

  // ---------------------------------------------------------------------------
  // excluder
  // ---------------------------------------------------------------------------

  function WithoutTrailingSlashes(s: string): (r: string)
    ensures r == "" || r[|r| - 1] != '/'
    ensures |r| <= |s| && r == s[..|r|] && forall i :: |r| <= i < |s| ==> s[i] == '/'
  {
    if s != "" && s[|s| - 1] == '/' then WithoutTrailingSlashes(s[..|s| - 1]) else s
  }

  /** p.replace(/^\.\//, "").replace(/\/+$/, "") */
  function Trimmed(pattern: string): string {
    WithoutTrailingSlashes(if StartsWith(pattern, "./") then pattern[2..] else pattern)
  }

  ghost predicate AllSlashes(s: string) { forall i :: 0 <= i < |s| ==> s[i] == '/' }

  function Lead(pattern: string): string {
    if |pattern| >= 2 && pattern[0] == '.' && pattern[1] == '/' then "./" else ""
  }

  /** The text between one "./" in front, if there is one, and the slashes at the end. */
  ghost predicate Strips(pattern: string, core: string, tail: string) {
    pattern == Lead(pattern) + core + tail && AllSlashes(tail) && (core == "" || core[|core| - 1] != '/')
  }

  /** A pattern is taken without one leading "./" and without any slash at its end, and
      nothing else of it is dropped. */
  lemma TrimmedIff(pattern: string, core: string)
    ensures core == Trimmed(pattern) <==> exists tail :: Strips(pattern, core, tail)
  {
    if core == Trimmed(pattern) {
      LeadIsDropped(pattern);
      Stripped(pattern, pattern[|Lead(pattern)|..]);
    }
    if tail :| Strips(pattern, core, tail) {
      CoreIsTrimmed(pattern, core, tail);
    }
  }

  lemma CoreIsTrimmed(pattern: string, core: string, tail: string)
    requires Strips(pattern, core, tail)
    ensures core == Trimmed(pattern)
  {
    LeadIsDropped(pattern);
    Behind(Lead(pattern), core, tail);
    OneCore(core, tail);
  }

  lemma Behind(lead: string, core: string, tail: string)
    ensures (lead + core + tail)[|lead|..] == core + tail
  {
  }

  lemma LeadIsDropped(pattern: string)
    ensures Trimmed(pattern) == WithoutTrailingSlashes(pattern[|Lead(pattern)|..])
    ensures pattern == Lead(pattern) + pattern[|Lead(pattern)|..]
  {
    assert Lead(pattern) == "" ==> pattern[0..] == pattern && !StartsWith(pattern, "./");
  }

  lemma Stripped(pattern: string, rest: string)
    requires pattern == Lead(pattern) + rest
    ensures var kept := WithoutTrailingSlashes(rest); Strips(pattern, kept, rest[|kept|..])
  {
    var kept := WithoutTrailingSlashes(rest);
    assert rest == kept + rest[|kept|..];
  }

  lemma {:induction false} OneCore(core: string, tail: string)
    requires AllSlashes(tail) && (core == "" || core[|core| - 1] != '/')
    ensures WithoutTrailingSlashes(core + tail) == core
    decreases |tail|
  {
    if tail == "" {
      assert core + tail == core;
    } else {
      assert (core + tail)[..|core + tail| - 1] == core + tail[..|tail| - 1];
      OneCore(core, tail[..|tail| - 1]);
    }
  }

  /** Where the text behind the last slash begins. */
  function NameStart(s: string): (n: nat)
    ensures n <= |s| && (n > 0 ==> s[n - 1] == '/') && forall i :: n <= i < |s| ==> s[i] != '/'
  {
    if s == "" then 0 else if s[|s| - 1] == '/' then |s| else NameStart(s[..|s| - 1])
  }

  function AfterLastSlash(s: string): string { s[NameStart(s)..] }

  /** posix.basename */
  function Basename(path: string): string { AfterLastSlash(WithoutTrailingSlashes(path)) }

  datatype Rule = Rule(source: string, byName: bool)

  function RuleOf(pattern: string): Rule {
    Rule("^" + Compiled(Trimmed(pattern)) + "$", SlashFree(Trimmed(pattern)))
  }

  /** excluder(patterns)(rel) */
  ghost predicate Excluded(patterns: seq<string>, rel: string) {
    exists i :: 0 <= i < |patterns| && Applies(RuleOf(patterns[i]), rel)
  }

  ghost predicate Applies(rule: Rule, rel: string) { Test(rule.source, if rule.byName then Basename(rel) else rel) }

  /** A path is excluded if and only if some pattern means its basename (a pattern
      without a slash) or the whole path. */
  lemma ExcluderIsCorrect(patterns: seq<string>, rel: string)
    requires NoTerminators(rel)
    ensures Excluded(patterns, rel) <==>
            exists i :: 0 <= i < |patterns| && var glob := Trimmed(patterns[i]);
                        GlobMatches(glob, if SlashFree(glob) then Basename(rel) else rel, true)
  {
    var trimmed := WithoutTrailingSlashes(rel);
    assert NoTerminators(Basename(rel)) by {
      assert forall i :: 0 <= i < |Basename(rel)| ==> Basename(rel)[i] == rel[NameStart(trimmed) + i];
    }
    forall i | 0 <= i < |patterns|
      ensures Applies(RuleOf(patterns[i]), rel) <==>
              GlobMatches(Trimmed(patterns[i]), if SlashFree(Trimmed(patterns[i])) then Basename(rel) else rel, true)
    {
      var glob := Trimmed(patterns[i]);
      CompilerIsCorrect(glob, if SlashFree(glob) then Basename(rel) else rel);
    }
  }

  /** A pattern without a slash applies at any depth, as in .gitignore. */
  lemma BasenameAtAnyDepth(dir: string, name: string)
    requires name != "" && SlashFree(name)
    ensures Basename(dir + "/" + name) == name == Basename(name)
  {
    var path := dir + "/" + name;
    assert path[|path| - 1] == name[|name| - 1];
    assert WithoutTrailingSlashes(path) == path && WithoutTrailingSlashes(name) == name;
    LastComponent(dir + "/", name);
    LastComponent("", name);
    assert "" + name == name;
  }

  lemma LastComponent(prefix: string, name: string)
    requires SlashFree(name) && (prefix == "" || prefix[|prefix| - 1] == '/')
    ensures AfterLastSlash(prefix + name) == name
  {
    var s := prefix + name;
    assert |prefix| > 0 ==> s[|prefix| - 1] == '/';
    assert forall i :: |prefix| <= i < |s| ==> s[i] == name[i - |prefix|];
    assert s[|prefix|..] == name;
  }

  lemma SlashFreePatternsIgnoreDepth(pattern: string, dir: string, name: string)
    requires SlashFree(Trimmed(pattern)) && name != "" && SlashFree(name)
    ensures Excluded([pattern], dir + "/" + name) <==> Excluded([pattern], name)
  {
    BasenameAtAnyDepth(dir, name);
    ExcludedByOne(pattern, dir + "/" + name);
    ExcludedByOne(pattern, name);
  }

  lemma ExcludedByOne(pattern: string, path: string)
    ensures Excluded([pattern], path) <==> Applies(RuleOf(pattern), path)
  {
    assert [pattern][0] == pattern;
  }
}
