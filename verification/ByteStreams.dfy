/** An ordered byte pipe as its reader meets it: bytes arrive in runs the reader does not choose. */
module ByteStreams {
  import opened Sequences

  /** How the peer's bytes end: an orderly close, or a fault (I/O error, read timeout). */
  datatype Ending = Closed | Broken

  /** What one read of at most `max` bytes takes from the runs still to arrive. */
  datatype Taken = Taken(data: bytes, left: seq<bytes>)

  ghost predicate WellFormed(arrivals: seq<bytes>) {
    forall i | 0 <= i < |arrivals| :: arrivals[i] != []
  }

  function TakeRun(arrivals: seq<bytes>, max: nat): (t: Taken)
    requires WellFormed(arrivals) && max > 0
    ensures WellFormed(t.left)
    ensures Flatten(arrivals) == t.data + Flatten(t.left)
    ensures arrivals != [] ==> 0 < |t.data| <= max
    ensures arrivals == [] ==> t.data == [] && t.left == []
  {
    if arrivals == [] then Taken([], [])
    else if |arrivals[0]| <= max then Taken(arrivals[0], arrivals[1..])
    else
      var left := [arrivals[0][max..]] + arrivals[1..];
      assert left[1..] == arrivals[1..];
      assert Flatten(left) == arrivals[0][max..] + Flatten(arrivals[1..]);
      assert arrivals[0] == arrivals[0][..max] + arrivals[0][max..];
      Taken(arrivals[0][..max], left)
  }

  datatype ReadResult = Data(data: bytes) | Fault

  class ByteStream {
    /** Every list of non-empty runs is a way the same bytes may be cut into reads. */
    var arrivals: seq<bytes>
    const ending: Ending
    /** How many bytes were still unread when each read so far was issued. */
    ghost var trace: seq<nat>

    constructor (arrivals: seq<bytes>, ending: Ending)
      requires WellFormed(arrivals)
      ensures Valid() && this.arrivals == arrivals && this.ending == ending && trace == []
    {
      this.arrivals := arrivals;
      this.ending := ending;
      trace := [];
    }

    ghost predicate Valid()
      reads this
    {
      WellFormed(arrivals)
    }

    ghost function Unread(): bytes
      reads this
    {
      Flatten(arrivals)
    }

    /** A read of zero bytes is the end; a broken stream reports a fault there instead. */
    method Read(max: nat) returns (r: ReadResult)
      requires Valid() && max > 0
      modifies this
      ensures Valid()
      ensures r == if old(arrivals) == [] && ending == Broken then Fault
                   else Data(TakeRun(old(arrivals), max).data)
      ensures arrivals == TakeRun(old(arrivals), max).left
      ensures trace == old(trace) + [|old(Unread())|]
    {
      trace := trace + [|Unread()|];
      if arrivals == [] && ending == Broken {
        return Fault;
      }
      var t := TakeRun(arrivals, max);
      arrivals := t.left;
      r := Data(t.data);
    }
  }

  /** The writing end of a pipe: bytes go out in the order they are written. */
  class ByteSink {
    var written: bytes
    var shutDown: bool

    constructor ()
      ensures written == [] && !shutDown
    {
      written, shutDown := [], false;
    }

    method WriteAll(data: bytes)
      modifies `written
      ensures written == old(written) + data
    {
      written := written + data;
    }

    method Shutdown()
      modifies `shutDown
      ensures shutDown
    {
      shutDown := true;
    }
  }

  /** `after` extends `before`, and every read it adds found more than `floor` bytes unread. */
  ghost predicate ReadsAbove(before: seq<nat>, after: seq<nat>, floor: int) {
    && |before| <= |after|
    && after[..|before|] == before
    && forall i | |before| <= i < |after| :: after[i] > floor
  }

  lemma ReadsCompose(a: seq<nat>, b: seq<nat>, c: seq<nat>, low: int, high: int)
    requires ReadsAbove(a, b, high) && ReadsAbove(b, c, low) && low <= high
    ensures ReadsAbove(a, c, low)
  {
    assert c[..|a|] == c[..|b|][..|a|];
    forall i | |a| <= i < |c| ensures c[i] > low {
      if i < |b| {
        assert c[i] == c[..|b|][i];
      }
    }
  }
}
