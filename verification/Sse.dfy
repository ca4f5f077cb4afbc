/**
 Server-sent events arrive as decoded text in chunks cut anywhere.  The reader keeps the
 unfinished line and hands the value of each finished `data:` line to the JSON parser
 (line format of section 9.2 of the WHATWG HTML standard).
 */
module Sse {
  import opened Options
  import opened Whitespace

  // ---------------------------------------------------------------------------
  // Lines
  // ---------------------------------------------------------------------------

  /** text.split("\n") */
  function Split(text: string): (lines: seq<string>)
    ensures lines != []
  {
    if text == "" then [""] else Push(text[0], Split(text[1..]))
  }

  /** One more character in front. */
  function Push(c: char, lines: seq<string>): (r: seq<string>)
    requires lines != []
    ensures r != []
  {
    if c == '\n' then [""] + lines else [[c] + lines[0]] + lines[1..]
  }

  function Last(lines: seq<string>): string requires lines != [] { lines[|lines| - 1] }

  function Init(lines: seq<string>): seq<string> requires lines != [] { lines[..|lines| - 1] }

  /** The lines put back, each but the last with its line feed. */
  function Join(lines: seq<string>): string
    requires lines != []
  {
    if |lines| == 1 then lines[0] else lines[0] + ['\n'] + Join(lines[1..])
  }

  predicate NoLineFeed(line: string) { '\n' !in line }

  predicate AreLines(lines: seq<string>) { lines != [] && forall i: nat :: i < |lines| ==> NoLineFeed(lines[i]) }

  lemma {:induction false} SplitIsLines(text: string)
    ensures AreLines(Split(text)) && Join(Split(text)) == text
    decreases |text|
  {
    if text != "" {
      SplitIsLines(text[1..]);
      PushIsLines(text[0], Split(text[1..]));
      assert text == [text[0]] + text[1..];
    }
  }

  lemma PushIsLines(c: char, lines: seq<string>)
    requires AreLines(lines)
    ensures AreLines(Push(c, lines)) && Join(Push(c, lines)) == [c] + Join(lines)
  {
    var r := Push(c, lines);
    if c == '\n' {
      assert r[1..] == lines;
      assert "" + ['\n'] + Join(lines) == [c] + Join(lines);
    } else if |lines| == 1 {
      assert r == [[c] + lines[0]];
    } else {
      assert r[1..] == lines[1..];
      assert ([c] + lines[0]) + ['\n'] + Join(lines[1..]) == [c] + (lines[0] + ['\n'] + Join(lines[1..]));
    }
  }

  lemma {:induction false} SplitOfLine(line: string, rest: string)
    requires NoLineFeed(line)
    ensures Split(line) == [line] && Split(line + ['\n'] + rest) == [line] + Split(rest)
    decreases |line|
  {
    var text := line + ['\n'] + rest;
    if line == "" {
      assert text == ['\n'] + rest && text[1..] == rest;
    } else {
      assert text[1..] == line[1..] + ['\n'] + rest;
      SplitOfLine(line[1..], rest);
      assert line == [line[0]] + line[1..];
    }
  }

  /** A text has one division into lines. */
  lemma {:induction false} LinesAreUnique(lines: seq<string>)
    requires AreLines(lines)
    ensures Split(Join(lines)) == lines
    decreases |lines|
  {
    if |lines| == 1 {
      SplitOfLine(lines[0], "");
    } else {
      LinesAreUnique(lines[1..]);
      SplitOfLine(lines[0], Join(lines[1..]));
    }
  }

  /** The lines with more text behind them: only the unfinished one is continued. */
  function Continue(lines: seq<string>, more: string): (r: seq<string>)
    requires lines != []
    ensures r != []
  {
    Init(lines) + Split(Last(lines) + more)
  }

  lemma PushContinue(c: char, lines: seq<string>, more: string)
    requires lines != []
    ensures Continue(Push(c, lines), more) == Push(c, Continue(lines, more))
  {
    if c != '\n' && |lines| == 1 {
      PushContinueLine(c, lines[0], more);
      assert Push(c, lines) == [[c] + lines[0]] && lines == [lines[0]];
    } else {
      PushInFront(c, lines, Split(Last(lines) + more));
    }
  }

  lemma PushContinueLine(c: char, line: string, more: string)
    requires c != '\n'
    ensures Continue([[c] + line], more) == Push(c, Continue([line], more))
  {
    assert Init([[c] + line]) == [] && Init([line]) == [];
    assert (([c] + line) + more)[1..] == line + more;
  }

  lemma PushInFront(c: char, lines: seq<string>, tail: seq<string>)
    requires lines != [] && tail != [] && (c == '\n' || |lines| > 1)
    ensures Last(Push(c, lines)) == Last(lines)
    ensures Init(Push(c, lines)) + tail == Push(c, Init(lines) + tail)
  {
    if c == '\n' {
      assert Init([""] + lines) == [""] + Init(lines);
    } else {
      InitOfCons([c] + lines[0], lines[1..], tail);
      assert Init(lines) + tail == [lines[0]] + (Init(lines[1..]) + tail);
    }
  }

  lemma InitOfCons(line: string, lines: seq<string>, tail: seq<string>)
    requires lines != []
    ensures Init([line] + lines) + tail == [line] + (Init(lines) + tail)
  {
  }

  lemma {:induction false} SplitOfConcat(a: string, b: string)
    ensures Split(a + b) == Continue(Split(a), b)
    decreases |a|
  {
    if a == "" {
      assert a + b == b && "" + b == b && Init([""]) == [];
    } else {
      assert (a + b)[1..] == a[1..] + b;
      SplitOfConcat(a[1..], b);
      PushContinue(a[0], Split(a[1..]), b);
    }
  }

  // ---------------------------------------------------------------------------
  // Values
  // ---------------------------------------------------------------------------

  /** What a finished line hands to the parser. */
  function Payload(line: string): Option<string> {
    if "data:" <= line then
      var json := Trim(line[5..]);
      if json == "" || json == "[DONE]" then None else Some(json)
    else None
  }

  function Payloads(lines: seq<string>): seq<string> {
    if lines == [] then []
    else
      var rest := Payloads(lines[1..]);
      if Payload(lines[0]).Some? then [Payload(lines[0]).value] + rest else rest
  }

  lemma {:induction false} PayloadsOfConcat(a: seq<string>, b: seq<string>)
    ensures Payloads(a + b) == Payloads(a) + Payloads(b)
    decreases |a|
  {
    if a == [] {
      assert a + b == b;
    } else {
      assert (a + b)[1..] == a[1..] + b;
      PayloadsOfConcat(a[1..], b);
    }
  }

  function Concat(chunks: seq<string>): string {
    if chunks == [] then "" else Concat(chunks[..|chunks| - 1]) + chunks[|chunks| - 1]
  }

  /** The values of the finished lines of a text. */
  function Handed(text: string): seq<string> { Payloads(Init(Split(text))) }

  lemma OneMoreChunk(before: string, chunk: string)
    ensures var lines := Split(Last(Split(before)) + chunk);
            && Last(Split(before + chunk)) == Last(lines)
            && Handed(before + chunk) == Handed(before) + Payloads(Init(lines))
  {
    SplitOfConcat(before, chunk);
    var lines := Split(Last(Split(before)) + chunk);
    assert Init(Init(Split(before)) + lines) == Init(Split(before)) + Init(lines);
    PayloadsOfConcat(Init(Split(before)), Init(lines));
  }

  lemma OneMoreLine(lines: seq<string>, j: nat)
    requires j < |lines|
    ensures Payloads(lines[..j + 1]) ==
            Payloads(lines[..j]) + if Payload(lines[j]).Some? then [Payload(lines[j]).value] else []
  {
    assert lines[..j + 1] == lines[..j] + [lines[j]];
    PayloadsOfConcat(lines[..j], [lines[j]]);
    assert [lines[j]][1..] == [];
  }

  lemma OneMoreConcat(chunks: seq<string>, i: nat)
    requires i < |chunks|
    ensures Concat(chunks[..i + 1]) == Concat(chunks[..i]) + chunks[i]
  {
    assert chunks[..i + 1][..i] == chunks[..i];
  }

  /** However the text is cut, the parser is handed the values of its finished lines, in
      order; a line the stream ends in the middle of is dropped. */
  method StreamSse(chunks: seq<string>) returns (payloads: seq<string>)
    ensures payloads == Handed(Concat(chunks))
  {
    var buffer := "";
    payloads := [];
    for i := 0 to |chunks|
      invariant payloads == Handed(Concat(chunks[..i]))
      invariant buffer == Last(Split(Concat(chunks[..i])))
    {
      OneMoreConcat(chunks, i);
      OneMoreChunk(Concat(chunks[..i]), chunks[i]);
      buffer := buffer + chunks[i];
      var lines := Split(buffer);
      buffer := lines[|lines| - 1];
      lines := lines[..|lines| - 1];
      ghost var start := payloads;
      for j := 0 to |lines|
        invariant payloads == start + Payloads(lines[..j])
      {
        OneMoreLine(lines, j);
        if !("data:" <= lines[j]) { continue; }
        var json := Trim(lines[j][5..]);
        if json == "" || json == "[DONE]" { continue; }
        payloads := payloads + [json];
      }
      assert lines[..|lines|] == lines;
    }
    assert chunks[..|chunks|] == chunks;
  }

  // ---------------------------------------------------------------------------
  // What is handed over
  // ---------------------------------------------------------------------------

  /** A value is its line behind `data:` without the white space around it, and never empty
      or the closing marker. */
  lemma PayloadIsRest(line: string) returns (before: string, after: string)
    requires Payload(line).Some?
    ensures line == "data:" + (before + Payload(line).value + after) && Spaces(before) && Spaces(after)
    ensures var p := Payload(line).value;
            p != "" && p != "[DONE]" && !IsSpace(p[0]) && !IsSpace(p[|p| - 1])
  {
    before, after := TrimKeeps(line[5..]);
    assert line == "data:" + line[5..];
  }

  /** A finished line is handed over on its own, whatever stands around it. */
  lemma LineByLine(before: string, line: string, after: string)
    requires NoLineFeed(line)
    ensures Handed(before + ['\n'] + (line + ['\n'] + after)) ==
            Handed(before + ['\n']) + (Payloads([line]) + Handed(after))
  {
    var a := before + ['\n'];
    var more := line + ['\n'] + after;
    EndsLine(before);
    OneMoreChunk(a, more);
    assert "" + more == more;
    SplitOfLine(line, after);
    assert Init([line] + Split(after)) == [line] + Init(Split(after));
    PayloadsOfConcat([line], Init(Split(after)));
  }

  lemma EndsLine(before: string)
    ensures Last(Split(before + ['\n'])) == ""
  {
    SplitIsLines(before);
    var last := Last(Split(before));
    assert NoLineFeed(last);
    SplitOfConcat(before, ['\n']);
    SplitOfLine(last, "");
    assert last + ['\n'] + "" == last + ['\n'];
  }
}
