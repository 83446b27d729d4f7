/** Ways of cutting bytes into the runs a reader meets, and where reads of such runs can stop. */
module Cuttings {
  import opened Sequences
  import opened ByteStreams
  import opened HttpResponse

  // ---- Reading off the front of the runs ----

  /** The runs without their first `n` bytes. */
  function DropBytes(runs: seq<bytes>, n: nat): (left: seq<bytes>)
    requires WellFormed(runs) && n <= |Flatten(runs)|
    ensures WellFormed(left) && Flatten(left) == Flatten(runs)[n..]
  {
    if n == 0 then runs
    else if |runs[0]| <= n then DropBytes(runs[1..], n - |runs[0]|)
    else
      var left := [runs[0][n..]] + runs[1..];
      assert left[1..] == runs[1..];
      left
  }

  /** A run ends after the first `n` bytes. */
  predicate IsBoundary(runs: seq<bytes>, n: nat) {
    n == 0 || (runs != [] && |runs[0]| <= n && IsBoundary(runs[1..], n - |runs[0]|))
  }

  lemma {:induction false} BoundaryWithin(runs: seq<bytes>, n: nat)
    requires IsBoundary(runs, n)
    ensures n <= |Flatten(runs)|
  {
    if n > 0 {
      BoundaryWithin(runs[1..], n - |runs[0]|);
    }
  }

  lemma ReadDrops(runs: seq<bytes>, max: nat)
    requires WellFormed(runs) && max > 0
    ensures var t := TakeRun(runs, max);
            |t.data| <= |Flatten(runs)| && t.left == DropBytes(runs, |t.data|)
  {
    if runs != [] && |runs[0]| <= max {
      assert DropBytes(runs[1..], 0) == runs[1..];
    }
  }

  lemma {:induction false} DropTwice(runs: seq<bytes>, a: nat, b: nat)
    requires WellFormed(runs) && a + b <= |Flatten(runs)|
    ensures DropBytes(DropBytes(runs, a), b) == DropBytes(runs, a + b)
    decreases |runs|
  {
    if a > 0 && b > 0 {
      if |runs[0]| <= a {
        DropTwice(runs[1..], a - |runs[0]|, b);
      } else {
        var left := [runs[0][a..]] + runs[1..];
        assert left[1..] == runs[1..];
        if a + b < |runs[0]| {
          assert runs[0][a..][b..] == runs[0][a + b..];
        }
      }
    }
  }

  /** Past the bytes dropped, the boundaries are where they were. */
  lemma {:induction false} BoundaryAfterDrop(runs: seq<bytes>, a: nat, n: nat)
    requires WellFormed(runs) && a <= n && IsBoundary(runs, n) && a <= |Flatten(runs)|
    ensures IsBoundary(DropBytes(runs, a), n - a)
    decreases |runs|
  {
    if a > 0 {
      if |runs[0]| <= a {
        BoundaryAfterDrop(runs[1..], a - |runs[0]|, n - |runs[0]|);
      } else {
        var left := [runs[0][a..]] + runs[1..];
        assert left[1..] == runs[1..];
      }
    }
  }

  /** A read does not cross a boundary. */
  lemma ReadStopsAtBoundary(runs: seq<bytes>, n: nat, max: nat)
    requires WellFormed(runs) && IsBoundary(runs, n) && n > 0 && max > 0
    ensures |TakeRun(runs, max).data| <= n
  {
  }

  /** So a read that starts before a boundary ends no later than there. */
  lemma ReadStaysWithin(runs: seq<bytes>, a: nat, n: nat, max: nat)
    requires WellFormed(runs) && IsBoundary(runs, n) && a < n && max > 0 && a <= |Flatten(runs)|
    ensures a + |TakeRun(DropBytes(runs, a), max).data| <= n
  {
    BoundaryAfterDrop(runs, a, n);
    ReadStopsAtBoundary(DropBytes(runs, a), n - a, max);
  }

  // ---- Two cuttings ----

  /** Byte by byte, or a run for every line end. */
  datatype Cutting = ByteByByte | LineByLine

  /** The longest line a reader accepts of bytes that are cut so. */
  function LineBound(how: Cutting): nat {
    if how.ByteByByte? then SURE_LINE else MOST_LINE
  }

  function Prefixed(run: bytes, runs: seq<bytes>): (all: seq<bytes>)
    requires run != [] && WellFormed(runs)
    ensures WellFormed(all) && Flatten(all) == run + Flatten(runs)
    ensures all != [] && all[0] == run && all[1..] == runs
  {
    assert ([run] + runs)[1..] == runs;
    [run] + runs
  }

  function CutBytes(data: bytes): (runs: seq<bytes>)
    ensures WellFormed(runs) && Flatten(runs) == data
  {
    if data == [] then [] else Prefixed([data[0]], CutBytes(data[1..]))
  }

  function CutLines(data: bytes): (runs: seq<bytes>)
    ensures WellFormed(runs) && Flatten(runs) == data
    decreases |data|
  {
    if data == [] then []
    else
      var end := FirstEnd(data);
      Prefixed(data[..end], CutLines(data[end..]))
  }

  /** Where the first line ends, or the data where none does. */
  function FirstEnd(data: bytes): (end: nat)
    requires data != []
    ensures 0 < end <= |data|
  {
    match Position(data, CRLF)
    case None => |data|
    case Some(p) => p + 2
  }

  function Cut(how: Cutting, data: bytes): (runs: seq<bytes>)
    ensures WellFormed(runs) && Flatten(runs) == data
  {
    if how.ByteByByte? then CutBytes(data) else CutLines(data)
  }

  lemma {:induction false} CutBytesAfter(data: bytes, n: nat)
    requires n <= |data|
    ensures IsBoundary(CutBytes(data), n) && DropBytes(CutBytes(data), n) == CutBytes(data[n..])
  {
    if n == 0 {
      assert data[0..] == data;
    } else {
      assert CutBytes(data)[1..] == CutBytes(data[1..]);
      CutBytesAfter(data[1..], n - 1);
      assert data[1..][n - 1..] == data[n..];
    }
  }

  lemma CrlfsApart(data: bytes, p: nat, q: nat)
    requires OccursAt(data, CRLF, p) && OccursAt(data, CRLF, q) && p < q
    ensures p + 2 <= q
  {
    assert data[p..p + 2][1] == data[p + 1] && data[q..q + 2][0] == data[q];
  }

  /** A line end is the first one, or stands in what follows it. */
  lemma LaterEnd(data: bytes, e: nat)
    requires 2 <= e && OccursAt(data, CRLF, e - 2)
    ensures data != [] && FirstEnd(data) <= e
    ensures FirstEnd(data) < e ==>
              FirstEnd(data) + 2 <= e && OccursAt(data[FirstEnd(data)..], CRLF, e - FirstEnd(data) - 2)
  {
    var end := FirstEnd(data);
    if end < e {
      CrlfsApart(data, end - 2, e - 2);
      assert data[..end] + data[end..] == data;
      OccursInSuffix(data[..end], data[end..], CRLF, e - end - 2);
    }
  }

  lemma CutLinesUnfolds(data: bytes)
    requires data != []
    ensures CutLines(data) == Prefixed(data[..FirstEnd(data)], CutLines(data[FirstEnd(data)..]))
  {
  }

  lemma PastTheFirst(run: bytes, runs: seq<bytes>, e: nat)
    requires run != [] && WellFormed(runs) && |run| <= e <= |run| + |Flatten(runs)|
    ensures IsBoundary(Prefixed(run, runs), e) <==> IsBoundary(runs, e - |run|)
    ensures DropBytes(Prefixed(run, runs), e) == DropBytes(runs, e - |run|)
    ensures IsBoundary(runs, 0) && DropBytes(runs, 0) == runs
  {
  }

  lemma {:induction false} CutLinesAfter(data: bytes, e: nat)
    requires 2 <= e && OccursAt(data, CRLF, e - 2)
    ensures IsBoundary(CutLines(data), e) && DropBytes(CutLines(data), e) == CutLines(data[e..])
    decreases |data|
  {
    hide FirstEnd, OccursAt, IsBoundary, DropBytes, CutLines, Prefixed, Flatten, WellFormed;
    LaterEnd(data, e);
    OccursWithin(data, e);
    var end := FirstEnd(data);
    var rest := data[end..];
    CutLinesUnfolds(data);
    PastTheFirst(data[..end], CutLines(rest), e);
    if e > end {
      CutLinesAfter(rest, e - end);
      assert rest[e - end..] == data[e..];
    }
  }

  lemma OccursWithin(data: bytes, e: nat)
    requires 2 <= e && OccursAt(data, CRLF, e - 2)
    ensures e <= |data|
  {
  }

  /** Both end a run at every CRLF, and what is left there is cut the same way. */
  lemma CutAfterCrlf(how: Cutting, data: bytes, e: nat)
    requires 2 <= e && OccursAt(data, CRLF, e - 2)
    ensures IsBoundary(Cut(how, data), e) && DropBytes(Cut(how, data), e) == Cut(how, data[e..])
  {
    if how.ByteByByte? {
      CutBytesAfter(data, e);
    } else {
      CutLinesAfter(data, e);
    }
  }
}
