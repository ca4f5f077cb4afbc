/**
 The regular expressions globToRegExp writes: their syntax, a parser for their source
 text, and what it means that one matches a string.  (Regular expressions of
 ECMA-262 without flags, cut down to the constructs used.)
 */
module Regex {
  import opened Options

  datatype Regex =
    | Eps
    | Lit(c: char)
    | Dot                     // .  any character but a line terminator
    | NotSlash                // [^/]
    | Cat(left: Regex, right: Regex)
    | Star(body: Regex)
    | Opt(body: Regex)

  predicate LineTerminator(c: char) { c == '\n' || c == '\r' || c == '\U{2028}' || c == '\U{2029}' }

  /** The whole string matches, as between ^ and $. */
  ghost predicate Matches(r: Regex, s: string)
    decreases r, |s|
  {
    match r
    case Eps => s == ""
    case Lit(c) => s == [c]
    case Dot => |s| == 1 && !LineTerminator(s[0])
    case NotSlash => |s| == 1 && s[0] != '/'
    case Cat(a, b) => exists k :: 0 <= k <= |s| && Matches(a, s[..k]) && Matches(b, s[k..])
    case Star(a) => s == "" || exists k :: 0 < k <= |s| && Matches(a, s[..k]) && Matches(r, s[k..])
    case Opt(a) => s == "" || Matches(a, s)
  }

  /** ^ $ \ . * + ? ( ) [ ] { } | */
  predicate Syntax(c: char) {
    c in {'^', '$', '\\', '.', '*', '+', '?', '(', ')', '[', ']', '{', '}', '|'}
  }

  predicate StartsWith(s: string, prefix: string) { |prefix| <= |s| && s[..|prefix|] == prefix }

  datatype Parsed = Parsed(regex: Regex, rest: string)

  /** One atom: an escaped or plain character, ., [^/] or a (?:...) group. */
  function ParseAtom(s: string): (r: Option<Parsed>)
    requires s != ""
    ensures r.Some? ==> |r.value.rest| < |s|
    decreases |s|, 0
  {
    if s[0] == '\\' then
      if |s| >= 2 && Syntax(s[1]) then Some(Parsed(Lit(s[1]), s[2..])) else None
    else if s[0] == '.' then Some(Parsed(Dot, s[1..]))
    else if StartsWith(s, "[^/]") then Some(Parsed(NotSlash, s[4..]))
    else if StartsWith(s, "(?:") then
      var inner := ParseItems(s[3..]);
      if inner.Some? && inner.value.rest != "" then Some(Parsed(inner.value.regex, inner.value.rest[1..])) else None
    else if Syntax(s[0]) then None
    else Some(Parsed(Lit(s[0]), s[1..]))
  }

  /** Atoms with their quantifiers, up to the end or a closing parenthesis. */
  function ParseItems(s: string): (r: Option<Parsed>)
    ensures r.Some? ==> |r.value.rest| <= |s| && (r.value.rest != "" ==> r.value.rest[0] == ')')
    decreases |s|, 1
  {
    if s == "" || s[0] == ')' then Some(Parsed(Eps, s))
    else
      var atom := ParseAtom(s);
      if atom.None? then None
      else
        var item := Quantified(atom.value);
        var more := ParseItems(item.rest);
        if more.None? then None else Some(Parsed(Cat(item.regex, more.value.regex), more.value.rest))
  }

  function Quantified(atom: Parsed): (r: Parsed)
    ensures |r.rest| <= |atom.rest|
  {
    if atom.rest != "" && atom.rest[0] == '*' then Parsed(Star(atom.regex), atom.rest[1..])
    else if atom.rest != "" && atom.rest[0] == '?' then Parsed(Opt(atom.regex), atom.rest[1..])
    else atom
  }

  /** new RegExp(source) for a source of the form ^...$ */
  function Parse(source: string): (r: Option<Regex>)
  {
    if |source| < 2 || source[0] != '^' || source[|source| - 1] != '$' then None
    else
      var items := ParseItems(source[1..|source| - 1]);
      if items.Some? && items.value.rest == "" then Some(items.value.regex) else None
  }

  /** RegExp.prototype.test */
  ghost predicate Test(source: string, s: string) {
    Parse(source).Some? && Matches(Parse(source).value, s)
  }
}
