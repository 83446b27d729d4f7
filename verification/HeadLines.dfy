/** Heads of messages: lines ended by CRLF, and an empty one after the last, as text and as bytes. */
module HeadLines {
  import opened Sequences
  import opened Text
  import opened HttpResponse
  import Utf8

  predicate OneLine(s: string) {
    CR !in s && LF !in s
  }

  predicate IsWord(s: string) {
    s != "" && forall c | c in s :: !IsWhitespace(c)
  }

  /** The lines, each with its CRLF, and the empty line. */
  function Block(lines: seq<string>): string {
    if lines == [] then "\r\n" else lines[0] + "\r\n" + Block(lines[1..])
  }

  lemma WordsAreOneLine(s: string)
    requires IsWord(s)
    ensures OneLine(s)
  {
    assert IsWhitespace(CR) && IsWhitespace(LF);
  }

  lemma SpaceBefore()
    ensures IsWhitespace(' ')
  {
  }

  lemma SkipSpace(s: string)
    ensures Words(" " + s) == Words(s)
  {
    assert (" " + s)[1..] == s;
    assert TrimStart(" " + s) == TrimStart(s);
  }

  // ---- In bytes ----

  /** A line without line ends in it does not move the first empty line after it. */
  lemma SkipLine(line: bytes, data: bytes, p: nat)
    requires 13 !in line && data != [] && data[0] != 13
    requires Position(data, BLANK_LINE) == Some(p)
    ensures Position(line + CRLF + data, BLANK_LINE) == Some(|line| + 2 + p)
  {
    var s, start := line + CRLF + data, |line| + 2;
    assert s[start..] == data;
    assert s == (line + CRLF) + data;
    forall j | 0 <= j < start + p ensures !OccursAt(s, BLANK_LINE, j) {
      if j < |line| {
        assert s[j] in line;
        NoOccurrence(s, BLANK_LINE, j, 0);
      } else if j == |line| {
        NoOccurrence(s, BLANK_LINE, j, 2);
      } else if j < start {
        NoOccurrence(s, BLANK_LINE, j, 0);
      } else {
        OccursInSuffix(line + CRLF, data, BLANK_LINE, j - start);
      }
    }
    assert s[start + p..start + p + 4] == data[p..p + 4];
    PositionIs(s, BLANK_LINE, start + p);
  }

  lemma LastLineEnds(line: bytes, tail: bytes)
    requires 13 !in line
    ensures Position(line + CRLF + (CRLF + tail), BLANK_LINE) == Some(|line|)
  {
    var s := line + CRLF + (CRLF + tail);
    forall j | 0 <= j < |line| ensures !OccursAt(s, BLANK_LINE, j) {
      assert s[j] in line;
      NoOccurrence(s, BLANK_LINE, j, 0);
    }
    assert s[|line|..|line| + 4] == BLANK_LINE;
    PositionIs(s, BLANK_LINE, |line|);
  }

  lemma LineEndBytes()
    ensures Utf8.Encode("\r\n") == CRLF
  {
    assert "\r\n"[1..] == "\n" && "\n"[1..] == "";
    assert Utf8.EncodeChar('\r') == [13] && Utf8.EncodeChar('\n') == [10];
  }

  lemma LineBytes(line: string)
    requires OneLine(line) && line != ""
    ensures var b := Utf8.Encode(line);
            b != [] && 13 !in b && b[0] != 13
  {
    Utf8.AsciiBytes(line, CR);
    assert CR as int == 13;
    var b := Utf8.Encode(line);
    assert b[0] in b;
  }

  /** In bytes, as in text, a head ends at its first empty line. */
  lemma {:induction false} BlockEnds(first: string, lines: seq<string>, tail: bytes)
    requires OneLine(first) && first != ""
    requires forall i | 0 <= i < |lines| :: OneLine(lines[i]) && lines[i] != ""
    ensures var head := Utf8.Encode(first + "\r\n" + Block(lines));
            |head| >= 4 && Position(head + tail, BLANK_LINE) == Some(|head| - 4)
    decreases |lines|
  {
    hide OneLine, Utf8.Encode, Position;
    LineEndBytes();
    LineBytes(first);
    var line, block := Utf8.Encode(first), Block(lines);
    Utf8.EncodeOfSum(first + "\r\n", block);
    Utf8.EncodeOfSum(first, "\r\n");
    var head := line + CRLF + Utf8.Encode(block);
    if lines == [] {
      assert head + tail == line + CRLF + (CRLF + tail);
      LastLineEnds(line, tail);
    } else {
      LineBytes(lines[0]);
      BlockEnds(lines[0], lines[1..], tail);
      Utf8.EncodeOfSum(lines[0], "\r\n" + Block(lines[1..]));
      assert block == lines[0] + ("\r\n" + Block(lines[1..]));
      var rest := Utf8.Encode(block);
      assert rest[0] == Utf8.Encode(lines[0])[0];
      assert head + tail == line + CRLF + (rest + tail);
      SkipLine(line, rest + tail, |rest| - 4);
    }
  }

  // ---- In text ----

  /** A line is cut off at its CRLF. */
  lemma SplitStep(line: string, rest: string)
    requires OneLine(line)
    ensures Split(line + "\r\n" + rest, "\r\n") == [line] + Split(rest, "\r\n")
  {
    var s := line + "\r\n" + rest;
    forall j | 0 <= j < |line| ensures !OccursAt(s, "\r\n", j) {
      assert s[j] == line[j] && line[j] in line;
      NoOccurrence(s, "\r\n", j, 0);
    }
    assert s[|line|..|line| + 2] == "\r\n";
    PositionIs(s, "\r\n", |line|);
    assert s[..|line|] == line && s[|line| + 2..] == rest;
  }

  lemma SplitNothing()
    ensures Split("", "\r\n") == [""]
  {
  }

  /** Splitting a block gives its lines, and what is on either side of the last CRLF. */
  lemma {:induction false} SplitBlock(lines: seq<string>)
    requires forall i | 0 <= i < |lines| :: OneLine(lines[i])
    ensures Split(Block(lines), "\r\n") == lines + ["", ""]
  {
    hide Split, OneLine;
    if lines == [] {
      SplitNothing();
      EmptyIsOneLine();
      SplitStep("", "");
      assert "" + "\r\n" + "" == "\r\n";
    } else {
      SplitBlock(lines[1..]);
      SplitStep(lines[0], Block(lines[1..]));
      assert lines == [lines[0]] + lines[1..];
    }
  }

  lemma EmptyIsOneLine()
    ensures OneLine("")
  {
  }
}
