/**
 * Reading one CRLF-ended line from runs of bytes. This is the one place where the source's
 * answer depends on how the bytes were cut: the size check of `read_line_crlf` is made
 * between reads, on whatever has been buffered by then.
 */
module LineReading {
  import opened Sequences
  import opened HttpResponse
  import opened ByteStreams
  import opened Cuttings

  const READ_BUFFER_SIZE: nat := 8_192

  /** The most a reader holds when it turns to the next line. */
  const MAX_BUFFERED: nat := MAX_RESPONSE_HEADERS + READ_BUFFER_SIZE

  datatype LineOutcome = NoLine | GotLine(line: bytes, buffered: bytes, left: seq<bytes>)

  /** The reads `read_line_crlf` makes, one run at a time. */
  function LineRun(buffered: bytes, arrivals: seq<bytes>): LineOutcome
    requires WellFormed(arrivals)
    decreases |Flatten(arrivals)|
  {
    match Position(buffered, CRLF)
    case Some(p) => GotLine(buffered[..p], buffered[p + 2..], arrivals)
    case None =>
      if |buffered| > MAX_RESPONSE_HEADERS || arrivals == [] then NoLine
      else
        var t := TakeRun(arrivals, READ_BUFFER_SIZE);
        LineRun(buffered + t.data, t.left)
  }

  /**
   * However the bytes are cut, a line that is read is the one all of them start with and has at
   * most 73,726 bytes, and one that is refused is missing or has more than 65,535.
   */
  lemma {:induction false} LineRunBetween(buffered: bytes, arrivals: seq<bytes>)
    requires WellFormed(arrivals) && |buffered| <= MAX_BUFFERED
    ensures var data, r := buffered + Flatten(arrivals), LineRun(buffered, arrivals);
            && (r.GotLine? ==> WellFormed(r.left) && |r.buffered| <= MAX_BUFFERED)
            && (r.GotLine? ==> Line(data, MOST_LINE) == Piece(r.line, r.buffered + Flatten(r.left)))
            && (r.NoLine? ==> Line(data, SURE_LINE).NoPiece?)
    decreases |Flatten(arrivals)|
  {
    var tail := Flatten(arrivals);
    PositionInPrefix(buffered, tail, CRLF);
    match Position(buffered, CRLF)
    case Some(p) =>
      assert (buffered + tail)[..p] == buffered[..p];
      assert (buffered + tail)[p + 2..] == buffered[p + 2..] + tail;
    case None =>
      if |buffered| <= MAX_RESPONSE_HEADERS {
        if arrivals == [] {
          assert buffered + tail == buffered;
        } else {
          var t := TakeRun(arrivals, READ_BUFFER_SIZE);
          assert buffered + tail == buffered + t.data + Flatten(t.left);
          LineRunBetween(buffered + t.data, t.left);
        }
      }
  }

  /** While no CRLF has been buffered, some of the line is still unread. */
  lemma LineUnfinished(buffered: bytes, tail: bytes, maxLine: nat)
    requires Position(buffered, CRLF).None? && Line(buffered + tail, maxLine).Piece?
    ensures |Line(buffered + tail, maxLine).rest| < |tail|
  {
    PositionInPrefix(buffered, tail, CRLF);
  }

  // ---- Which lines the cutting decides ----

  /** One more read, with nothing in the buffer that ends the line. */
  lemma ReadsOn(buffered: bytes, arrivals: seq<bytes>)
    requires WellFormed(arrivals) && arrivals != []
    requires Position(buffered, CRLF).None? && |buffered| <= MAX_RESPONSE_HEADERS
    ensures var t := TakeRun(arrivals, READ_BUFFER_SIZE);
            LineRun(buffered, arrivals) == LineRun(buffered + t.data, t.left)
  {
    hide Position;
  }

  /** The prefixes of the data that have no line end yet, and the one that has just got it. */
  lemma PrefixPosition(data: bytes, n: nat)
    requires n <= |data|
    ensures Position(data, CRLF).None? ==> Position(data[..n], CRLF).None?
    ensures Position(data, CRLF).Some? && n < Position(data, CRLF).value + 2 ==>
              Position(data[..n], CRLF).None?
    ensures Position(data, CRLF).Some? && n == Position(data, CRLF).value + 2 ==>
              Position(data[..n], CRLF) == Position(data, CRLF)
  {
    assert data[..n] + data[n..] == data;
    PositionInPrefix(data[..n], data[n..], CRLF);
  }

  lemma TakesOneByte(data: bytes)
    requires data != []
    ensures TakeRun(CutBytes(data), READ_BUFFER_SIZE) == Taken([data[0]], CutBytes(data[1..]))
    ensures CutBytes(data) != []
  {
  }

  /** The end of the line is in the buffer, and nothing else is. */
  lemma LineJustEnded(data: bytes, arrivals: seq<bytes>)
    requires WellFormed(arrivals) && Position(data, CRLF).Some?
    ensures var p := Position(data, CRLF).value;
            LineRun(data[..p + 2], arrivals) == GotLine(data[..p], [], arrivals)
  {
    var p := Position(data, CRLF).value;
    PrefixPosition(data, p + 2);
    assert data[..p + 2][..p] == data[..p] && data[..p + 2][p + 2..] == [];
  }

  lemma {:induction false} ByteByByteReads(data: bytes, n: nat)
    requires Position(data, CRLF).Some? && n <= Position(data, CRLF).value + 1
    ensures var p := Position(data, CRLF).value;
            LineRun(data[..n], CutBytes(data[n..]))
            == if p <= SURE_LINE then GotLine(data[..p], [], CutBytes(data[p + 2..])) else NoLine
    decreases |data| - n
  {
    hide Position, LineRun, CutBytes, TakeRun;
    var p := Position(data, CRLF).value;
    PrefixPosition(data, n);
    if n > MAX_RESPONSE_HEADERS {
      GivesUp(data[..n], CutBytes(data[n..]));
    } else {
      TakesOneByte(data[n..]);
      ReadsOn(data[..n], CutBytes(data[n..]));
      assert data[..n] + [data[n]] == data[..n + 1] && data[n..][1..] == data[n + 1..];
      if n == p + 1 {
        LineJustEnded(data, CutBytes(data[p + 2..]));
      } else {
        ByteByByteReads(data, n + 1);
      }
    }
  }

  lemma GivesUp(buffered: bytes, arrivals: seq<bytes>)
    requires WellFormed(arrivals)
    requires Position(buffered, CRLF).None? && |buffered| > MAX_RESPONSE_HEADERS
    ensures LineRun(buffered, arrivals) == NoLine
  {
  }

  lemma TakesOneRun(run: bytes, runs: seq<bytes>)
    requires run != [] && WellFormed(runs)
    ensures TakeRun(Prefixed(run, runs), READ_BUFFER_SIZE)
            == if |run| <= READ_BUFFER_SIZE then Taken(run, runs)
               else Taken(run[..READ_BUFFER_SIZE], Prefixed(run[READ_BUFFER_SIZE..], runs))
  {
  }

  /** `n` bytes of a line that is one run have been read, in full reads. */
  lemma {:induction false} LineByLineReads(data: bytes, n: nat)
    requires Position(data, CRLF).Some? && Position(data, CRLF).value <= MOST_LINE
    requires n < Position(data, CRLF).value + 2 && n % READ_BUFFER_SIZE == 0
    ensures var p := Position(data, CRLF).value;
            LineRun(data[..n], Prefixed(data[n..p + 2], CutLines(data[p + 2..])))
            == GotLine(data[..p], [], CutLines(data[p + 2..]))
    decreases |data| - n
  {
    hide Position, LineRun, CutLines, TakeRun, Prefixed;
    var p := Position(data, CRLF).value;
    var run, runs := data[n..p + 2], CutLines(data[p + 2..]);
    PrefixPosition(data, n);
    TakesOneRun(run, runs);
    ReadsOn(data[..n], Prefixed(run, runs));
    if |run| <= READ_BUFFER_SIZE {
      assert data[..n] + run == data[..p + 2];
      LineJustEnded(data, runs);
    } else {
      var m := n + READ_BUFFER_SIZE;
      assert data[..n] + run[..READ_BUFFER_SIZE] == data[..m];
      assert run[READ_BUFFER_SIZE..] == data[m..p + 2];
      LineByLineReads(data, m);
    }
  }

  /** Cut in one of the two ways, a line is read exactly within that cutting's bound. */
  lemma {:induction false} LineRunInStep(how: Cutting, data: bytes)
    ensures var line := Line(data, LineBound(how));
            LineRun([], Cut(how, data))
            == if line.Piece? then GotLine(line.data, [], Cut(how, line.rest)) else NoLine
  {
    hide Position, LineRun, CutLines, CutBytes, Prefixed;
    var line := Line(data, LineBound(how));
    LineRunBetween([], Cut(how, data));
    assert [] + data == data;
    if Position(data, CRLF).Some? {
      var p := Position(data, CRLF).value;
      if how.ByteByByte? {
        assert data[..0] == [] && data[0..] == data;
        ByteByByteReads(data, 0);
      } else if p <= MOST_LINE {
        CutLinesUnfolds(data);
        FirstEndIs(data);
        assert data[..0] == [] && data[0..p + 2] == data[..p + 2];
        LineByLineReads(data, 0);
      }
    }
  }

  lemma FirstEndIs(data: bytes)
    requires Position(data, CRLF).Some?
    ensures data != [] && FirstEnd(data) == Position(data, CRLF).value + 2
  {
  }

  /**
   * The cutting decides about a line exactly when it has from 65,536 to 73,726 bytes: shorter
   * ones are read in every cutting, longer ones in none, and each of these in one and not in
   * another.
   */
  lemma {:induction false} CuttingDecidesLongLines(line: bytes, rest: bytes)
    requires Position(line, CRLF).None?
    ensures var data := line + CRLF + rest;
            && (|line| <= SURE_LINE ==>
                  forall runs: seq<bytes> | WellFormed(runs) && Flatten(runs) == data ::
                    LineRun([], runs).GotLine? && LineRun([], runs).line == line)
            && (|line| > MOST_LINE ==>
                  forall runs: seq<bytes> | WellFormed(runs) && Flatten(runs) == data ::
                    LineRun([], runs).NoLine?)
            && (SURE_LINE < |line| <= MOST_LINE ==>
                  && LineRun([], CutBytes(data)).NoLine?
                  && LineRun([], CutLines(data)) == GotLine(line, [], CutLines(rest)))
  {
    hide Position, LineRun, CutLines, CutBytes;
    var data := line + CRLF + rest;
    FirstCrlf(line, rest);
    assert data[..|line|] == line && data[|line| + 2..] == rest;
    LineRunInStep(ByteByByte, data);
    LineRunInStep(LineByLine, data);
    forall runs: seq<bytes> | WellFormed(runs) && Flatten(runs) == data
      ensures |line| <= SURE_LINE ==> LineRun([], runs).GotLine? && LineRun([], runs).line == line
      ensures |line| > MOST_LINE ==> LineRun([], runs).NoLine?
    {
      LineRunBetween([], runs);
      assert [] + data == data;
    }
  }
}
