/**
 Several arguments become one command line for the remote shell: each is printed so that
 the shell reads it back as one word.  The reader here is the token recognition and quote
 removal of the Shell Command Language (IEEE Std 1003.1-2017, sections 2.2 and 2.3), which
 refuses every text that asks the shell for more than splitting and unquoting.
 */
module Quoting {

  // ---------------------------------------------------------------------------
  // The printer
  // ---------------------------------------------------------------------------

  /** [\w@%+=:,./-] */
  predicate IsSafe(c: char) {
    || 'a' <= c <= 'z' || 'A' <= c <= 'Z' || '0' <= c <= '9'
    || c in {'_', '@', '%', '+', '=', ':', ',', '.', '/', '-'}
  }

  predicate AllSafe(s: string) { s != "" && forall i: nat :: i < |s| ==> IsSafe(s[i]) }

  /** Each quote closes the quotation, is escaped, and opens it again. */
  function EscapeQuotes(s: string): string {
    if s == "" then ""
    else (if s[0] == '\'' then ['\'', '\\', '\'', '\''] else [s[0]]) + EscapeQuotes(s[1..])
  }

  function Quote(arg: string): string {
    if AllSafe(arg) then arg else ['\''] + EscapeQuotes(arg) + ['\'']
  }

  /** The quoted arguments, a space in front of each. */
  function Spaced(argv: seq<string>): string {
    if argv == [] then "" else [' '] + (Quote(argv[0]) + Spaced(argv[1..]))
  }

  function CommandString(argv: seq<string>): string {
    if |argv| == 1 then argv[0]
    else if argv == [] then ""
    else Quote(argv[0]) + Spaced(argv[1..])
  }

  // ---------------------------------------------------------------------------
  // The reader
  // ---------------------------------------------------------------------------

  datatype Reading = Words(words: seq<string>) | Refused(why: Reason)
  datatype Reason = Operator | Expansion | Unfinished

  /** Between two words, inside a comment, or inside a word that reads `word` so far. */
  datatype Mode = Between | Comment | Bare(word: string) | Single(word: string) | Double(word: string)

  predicate IsBlank(c: char) { c == ' ' || c == '\t' }
  predicate IsOperator(c: char) { c in {'|', '&', ';', '<', '>', '(', ')', '\n'} }
  predicate IsExpansion(c: char) { c in {'$', '`', '*', '?', '[', '~', '{', '}', '!'} }

  function Cons(word: string, r: Reading): Reading {
    match r
    case Words(words) => Words([word] + words)
    case Refused(_) => r
  }

  function Scan(s: string, mode: Mode): Reading
    decreases |s|, if mode.Between? then 1 else 0
  {
    match mode
    case Between =>
      if s == "" then Words([])
      else if IsBlank(s[0]) then Scan(s[1..], Between)
      else if s[0] == '#' then Scan(s[1..], Comment)
      else if |s| >= 2 && s[0] == '\\' && s[1] == '\n' then Scan(s[2..], Between)
      else Scan(s, Bare(""))
    case Comment =>
      if s == "" then Words([])
      else if s[0] == '\n' then Refused(Operator)
      else Scan(s[1..], Comment)
    case Bare(word) =>
      if s == "" then Words([word])
      else if IsBlank(s[0]) then Cons(word, Scan(s[1..], Between))
      else if IsOperator(s[0]) then Refused(Operator)
      else if IsExpansion(s[0]) then Refused(Expansion)
      else if s[0] == '\'' then Scan(s[1..], Single(word))
      else if s[0] == '"' then Scan(s[1..], Double(word))
      else if s[0] != '\\' then Scan(s[1..], Bare(word + [s[0]]))
      else if |s| == 1 then Refused(Unfinished)
      else Scan(s[2..], Bare(if s[1] == '\n' then word else word + [s[1]]))
    case Single(word) =>
      if s == "" then Refused(Unfinished)
      else if s[0] == '\'' then Scan(s[1..], Bare(word))
      else Scan(s[1..], Single(word + [s[0]]))
    case Double(word) =>
      if s == "" then Refused(Unfinished)
      else if s[0] == '"' then Scan(s[1..], Bare(word))
      else if s[0] in {'$', '`'} then Refused(Expansion)
      else if |s| >= 2 && s[0] == '\\' && s[1] == '\n' then Scan(s[2..], Double(word))
      else if |s| >= 2 && s[0] == '\\' && s[1] in {'$', '`', '"', '\\'} then Scan(s[2..], Double(word + [s[1]]))
      else Scan(s[1..], Double(word + [s[0]]))
  }

  /** The words a command line is split into. */
  function ShellWords(line: string): Reading { Scan(line, Between) }

  // ---------------------------------------------------------------------------
  // What is printed is read back
  // ---------------------------------------------------------------------------

  lemma {:induction false} SafeIsBare(arg: string, rest: string, word: string)
    requires forall i: nat :: i < |arg| ==> IsSafe(arg[i])
    ensures Scan(arg + rest, Bare(word)) == Scan(rest, Bare(word + arg))
    decreases |arg|
  {
    if arg == "" {
      assert arg + rest == rest && word + arg == word;
    } else {
      assert (arg + rest)[1..] == arg[1..] + rest;
      assert word + arg == (word + [arg[0]]) + arg[1..];
      SafeIsBare(arg[1..], rest, word + [arg[0]]);
    }
  }

  /** A quotation with its quotes escaped reads as the text itself. */
  lemma {:induction false} EscapedIsItself(arg: string, rest: string, word: string)
    ensures Scan(EscapeQuotes(arg) + (['\''] + rest), Single(word)) == Scan(rest, Bare(word + arg))
    decreases |arg|
  {
    var end := ['\''] + rest;
    if arg == "" {
      assert EscapeQuotes(arg) + end == end && end[1..] == rest && word + arg == word;
    } else {
      var next := EscapeQuotes(arg[1..]) + end;
      assert word + arg == (word + [arg[0]]) + arg[1..];
      if arg[0] == '\'' {
        QuoteInQuotes(next, word);
        assert EscapeQuotes(arg) + end == ['\'', '\\', '\'', '\''] + next;
      } else {
        assert EscapeQuotes(arg) + end == [arg[0]] + next;
        assert ([arg[0]] + next)[1..] == next;
      }
      EscapedIsItself(arg[1..], rest, word + [arg[0]]);
    }
  }

  lemma QuoteInQuotes(next: string, word: string)
    ensures Scan(['\'', '\\', '\'', '\''] + next, Single(word)) == Scan(next, Single(word + ['\'']))
  {
    var s := ['\'', '\\', '\'', '\''] + next;
    assert s[1..][2..][1..] == next;
    assert Scan(s, Single(word)) == Scan(s[1..], Bare(word));
    assert Scan(s[1..], Bare(word)) == Scan(s[1..][2..], Bare(word + ['\'']));
  }

  lemma WordBegins(s: string)
    requires s != "" && (IsSafe(s[0]) || s[0] == '\'')
    ensures Scan(s, Between) == Scan(s, Bare(""))
    ensures s[0] == '\'' ==> Scan(s, Between) == Scan(s[1..], Single(""))
  {
  }

  lemma QuotedBegins(arg: string, rest: string)
    requires !AllSafe(arg)
    ensures Scan(Quote(arg) + rest, Between) == Scan(EscapeQuotes(arg) + (['\''] + rest), Single(""))
  {
    var inner := EscapeQuotes(arg) + (['\''] + rest);
    var s := ['\''] + inner;
    assert Quote(arg) + rest == s;
    assert s[1..] == inner;
    WordBegins(s);
  }

  lemma QuoteIsOneWord(arg: string, rest: string)
    ensures Scan(Quote(arg) + rest, Between) == Scan(rest, Bare(arg))
  {
    assert "" + arg == arg;
    if AllSafe(arg) {
      WordBegins(arg + rest);
      SafeIsBare(arg, rest, "");
    } else {
      QuotedBegins(arg, rest);
      EscapedIsItself(arg, rest, "");
    }
  }

  lemma {:induction false} SpacedAreWords(argv: seq<string>, word: string)
    ensures Scan(Spaced(argv), Bare(word)) == Words([word] + argv)
    decreases |argv|
  {
    if argv != [] {
      var rest := Quote(argv[0]) + Spaced(argv[1..]);
      assert Spaced(argv)[1..] == rest;
      assert Scan(Spaced(argv), Bare(word)) == Cons(word, Scan(rest, Between));
      QuoteIsOneWord(argv[0], Spaced(argv[1..]));
      SpacedAreWords(argv[1..], argv[0]);
      assert [argv[0]] + argv[1..] == argv;
    }
  }

  /** Except for a single argument, the shell reads back exactly the arguments, empty ones
      and ones made of quotes included. */
  lemma QuotingRoundTrip(argv: seq<string>)
    requires |argv| != 1
    ensures ShellWords(CommandString(argv)) == Words(argv)
  {
    if argv != [] {
      QuoteIsOneWord(argv[0], Spaced(argv[1..]));
      SpacedAreWords(argv[1..], argv[0]);
      assert [argv[0]] + argv[1..] == argv;
    }
  }

  /** Two argument lists are never printed alike. */
  lemma QuotingIsInjective(a: seq<string>, b: seq<string>)
    requires |a| != 1 && |b| != 1 && CommandString(a) == CommandString(b)
    ensures a == b
  {
    QuotingRoundTrip(a);
    QuotingRoundTrip(b);
  }

  // ---------------------------------------------------------------------------
  // A single argument is a shell string
  // ---------------------------------------------------------------------------

  predicate IsPlain(c: char) {
    !IsBlank(c) && !IsOperator(c) && !IsExpansion(c) && c !in {'\'', '"', '\\'}
  }

  predicate AllPlain(s: string) { forall i: nat :: i < |s| ==> IsPlain(s[i]) }

  function Total(words: seq<string>): nat { if words == [] then 0 else |words[0]| + Total(words[1..]) }

  function Begun(mode: Mode): string {
    match mode
    case Between => ""
    case Comment => ""
    case Bare(word) => word
    case Single(word) => word
    case Double(word) => word
  }

  /** Reading never lengthens a text, and a closing quote is always lost. */
  lemma {:induction false} ReadingShrinks(s: string, mode: Mode)
    requires Scan(s, mode).Words?
    ensures Total(Scan(s, mode).words) + (if mode.Single? || mode.Double? then 1 else 0) <= |Begun(mode)| + |s|
    decreases |s|, if mode.Between? then 1 else 0
  {
    match mode
    case Between =>
      if s == "" {
      } else if IsBlank(s[0]) {
        ReadingShrinks(s[1..], Between);
      } else if s[0] == '#' {
        ReadingShrinks(s[1..], Comment);
      } else if |s| >= 2 && s[0] == '\\' && s[1] == '\n' {
        ReadingShrinks(s[2..], Between);
      } else {
        ReadingShrinks(s, Bare(""));
      }
    case Comment => if s != "" { ReadingShrinks(s[1..], Comment); }
    case Bare(word) =>
      if s == "" {
        assert Scan(s, mode).words[1..] == [];
      } else if IsBlank(s[0]) {
        ReadingShrinks(s[1..], Between);
        assert Scan(s, mode).words[1..] == Scan(s[1..], Between).words;
      } else if s[0] == '\'' {
        ReadingShrinks(s[1..], Single(word));
      } else if s[0] == '"' {
        ReadingShrinks(s[1..], Double(word));
      } else if s[0] != '\\' {
        ReadingShrinks(s[1..], Bare(word + [s[0]]));
      } else {
        ReadingShrinks(s[2..], Bare(if s[1] == '\n' then word else word + [s[1]]));
      }
    case Single(word) =>
      ReadingShrinks(s[1..], if s[0] == '\'' then Bare(word) else Single(word + [s[0]]));
    case Double(word) =>
      if s[0] == '"' {
        ReadingShrinks(s[1..], Bare(word));
      } else if |s| >= 2 && s[0] == '\\' && s[1] == '\n' {
        ReadingShrinks(s[2..], Double(word));
      } else if |s| >= 2 && s[0] == '\\' && s[1] in {'$', '`', '"', '\\'} {
        ReadingShrinks(s[2..], Double(word + [s[1]]));
      } else {
        ReadingShrinks(s[1..], Double(word + [s[0]]));
      }
  }

  lemma TotalOfOne(word: string)
    ensures Total([word]) == |word|
  {
    assert [word][1..] == [];
  }

  lemma {:induction false} PlainStays(s: string, word: string)
    ensures Scan(s, Bare(word)) == Words([word + s]) <==> AllPlain(s)
    decreases |s|
  {
    TotalOfOne(word + s);
    if s == "" {
      assert word + s == word;
    } else if IsBlank(s[0]) {
      assert !IsPlain(s[0]) && word != word + s;
    } else if IsPlain(s[0]) {
      PlainStays(s[1..], word + [s[0]]);
      assert (word + [s[0]]) + s[1..] == word + s;
      assert forall i: nat :: 0 < i < |s| ==> s[i] == s[1..][i - 1];
    } else {
      assert !AllPlain(s);
      if s[0] == '\'' && Scan(s[1..], Single(word)).Words? {
        ReadingShrinks(s[1..], Single(word));
      } else if s[0] == '"' && Scan(s[1..], Double(word)).Words? {
        ReadingShrinks(s[1..], Double(word));
      } else if s[0] == '\\' && |s| > 1 && Scan(s, Bare(word)).Words? {
        ReadingShrinks(s[2..], Bare(if s[1] == '\n' then word else word + [s[1]]));
      }
    }
  }

  /** A single argument reaches the shell as it is.  It stays one word exactly when it is
      not empty, starts no comment, and has no character the shell treats specially. */
  lemma SingleArgumentIsKeptIff(s: string)
    ensures ShellWords(CommandString([s])) == Words([s]) <==> s != "" && s[0] != '#' && AllPlain(s)
  {
    if s != "" && IsBlank(s[0]) {
      assert !IsPlain(s[0]);
      TotalOfOne(s);
      if Scan(s[1..], Between).Words? { ReadingShrinks(s[1..], Between); }
    } else if s != "" && s[0] == '#' {
      TotalOfOne(s);
      if Scan(s[1..], Comment).Words? { ReadingShrinks(s[1..], Comment); }
    } else if |s| >= 2 && s[0] == '\\' && s[1] == '\n' {
      assert !IsPlain(s[0]);
      TotalOfOne(s);
      if Scan(s[2..], Between).Words? { ReadingShrinks(s[2..], Between); }
    } else {
      PlainStays(s, "");
      assert "" + s == s;
    }
  }
}
