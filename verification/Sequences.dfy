/** Searching and cutting sequences: the operations the source takes from slices and `str`. */
module Sequences {

  datatype Option<+T> = None | Some(value: T)

  type byte = x: int | 0 <= x < 256

  type bytes = seq<byte>

  const USIZE_MAX: nat := 0xFFFF_FFFF_FFFF_FFFF

  function Min(a: nat, b: nat): nat {
    if a <= b then a else b
  }

  ghost predicate OccursAt<T>(s: seq<T>, pat: seq<T>, i: int) {
    0 <= i && i + |pat| <= |s| && s[i..i + |pat|] == pat
  }

  /** The least index at which `pat` occurs in `s`. */
  function Position<T(==)>(s: seq<T>, pat: seq<T>): (r: Option<nat>)
    ensures r.None? ==> forall j :: !OccursAt(s, pat, j)
    ensures r.Some? ==> OccursAt(s, pat, r.value)
    ensures r.Some? ==> forall j :: 0 <= j < r.value ==> !OccursAt(s, pat, j)
  {
    PositionFrom(s, pat, 0)
  }

  function PositionFrom<T(==)>(s: seq<T>, pat: seq<T>, from: nat): (r: Option<nat>)
    ensures r.None? ==> forall j :: from <= j ==> !OccursAt(s, pat, j)
    ensures r.Some? ==> from <= r.value && OccursAt(s, pat, r.value)
    ensures r.Some? ==> forall j :: from <= j < r.value ==> !OccursAt(s, pat, j)
    decreases |s| - from
  {
    if from + |pat| > |s| then None
    else if s[from..from + |pat|] == pat then Some(from)
    else PositionFrom(s, pat, from + 1)
  }

  /** What Position finds is determined by its contract. */
  lemma PositionIs<T>(s: seq<T>, pat: seq<T>, p: nat)
    requires OccursAt(s, pat, p)
    requires forall j :: 0 <= j < p ==> !OccursAt(s, pat, j)
    ensures Position(s, pat) == Some(p)
  {
    var r := Position(s, pat);
    assert r.Some?;
    assert r.value <= p && p <= r.value;
  }

  /** An occurrence inside a prefix is an occurrence of the whole, and conversely. */
  lemma OccursInPrefix<T>(a: seq<T>, b: seq<T>, pat: seq<T>, i: int)
    requires i + |pat| <= |a|
    ensures OccursAt(a, pat, i) <==> OccursAt(a + b, pat, i)
  {
    if 0 <= i {
      assert (a + b)[i..i + |pat|] == a[i..i + |pat|];
    }
  }

  lemma OccursInSuffix<T>(a: seq<T>, b: seq<T>, pat: seq<T>, i: nat)
    ensures OccursAt(b, pat, i) <==> OccursAt(a + b, pat, |a| + i)
  {
    if i + |pat| <= |b| {
      assert (a + b)[|a| + i..|a| + i + |pat|] == b[i..i + |pat|];
    }
  }

  /** One element out of place rules an occurrence out. */
  lemma NoOccurrence<T>(s: seq<T>, pat: seq<T>, j: int, k: nat)
    requires k < |pat| && (0 <= j && j + |pat| <= |s| ==> s[j + k] != pat[k])
    ensures !OccursAt(s, pat, j)
  {
    if 0 <= j && j + |pat| <= |s| {
      assert s[j..j + |pat|][k] == s[j + k];
    }
  }

  /** A later suffix does not move the first occurrence. */
  lemma PositionInPrefix<T>(a: seq<T>, b: seq<T>, pat: seq<T>)
    ensures Position(a, pat).Some? ==> Position(a + b, pat) == Position(a, pat)
    ensures Position(a, pat).None? && Position(a + b, pat).Some? ==>
              Position(a + b, pat).value + |pat| > |a|
  {
    var r := Position(a, pat);
    if r.Some? {
      forall j | 0 <= j < r.value ensures !OccursAt(a + b, pat, j) {
        OccursInPrefix(a, b, pat, j);
      }
      OccursInPrefix(a, b, pat, r.value);
      PositionIs(a + b, pat, r.value);
    } else {
      var q := Position(a + b, pat);
      if q.Some? && q.value + |pat| <= |a| {
        OccursInPrefix(a, b, pat, q.value);
      }
    }
  }

  function Flatten<T>(parts: seq<seq<T>>): seq<T> {
    if parts == [] then [] else parts[0] + Flatten(parts[1..])
  }

  /** The pieces of `s` between the occurrences of `pat`: one more piece than occurrences. */
  function Split<T(==)>(s: seq<T>, pat: seq<T>): (pieces: seq<seq<T>>)
    requires pat != []
    ensures pieces != []
    decreases |s|
  {
    match Position(s, pat)
    case None => [s]
    case Some(p) => [s[..p]] + Split(s[p + |pat|..], pat)
  }

  function Joined<T>(pieces: seq<seq<T>>, pat: seq<T>): seq<T> {
    if pieces == [] then []
    else if |pieces| == 1 then pieces[0]
    else pieces[0] + pat + Joined(pieces[1..], pat)
  }

  /** Splitting is what joining undoes: the pieces have no `pat` in them, and give `s` again. */
  lemma {:induction false} SplitMeans<T>(s: seq<T>, pat: seq<T>)
    requires pat != []
    ensures Joined(Split(s, pat), pat) == s
    ensures forall i | 0 <= i < |Split(s, pat)| :: Position(Split(s, pat)[i], pat).None?
    decreases |s|
  {
    match Position(s, pat)
    case None =>
    case Some(p) =>
      var rest := s[p + |pat|..];
      SplitMeans(rest, pat);
      assert Split(s, pat)[1..] == Split(rest, pat);
      assert s[..p] + pat + rest == s;
      assert Position(s[..p], pat).None? by {
        assert s[..p] + s[p..] == s;
        PositionInPrefix(s[..p], s[p..], pat);
      }
  }

  /** `split(..).next()`: everything before the first occurrence. */
  function Before<T(==)>(s: seq<T>, pat: seq<T>): seq<T> {
    match Position(s, pat)
    case None => s
    case Some(p) => s[..p]
  }

  /** A single-element pattern first occurs where a part without it ends. */
  lemma PositionOfSeparator<T>(a: seq<T>, c: T, b: seq<T>)
    requires c !in a
    ensures Position(a + [c] + b, [c]) == Some(|a|)
  {
    var s := a + [c] + b;
    assert s[|a|..|a| + 1] == [c];
    forall j | 0 <= j < |a| ensures !OccursAt(s, [c], j) {
      assert s[j..j + 1] == [a[j]];
      assert a[j] in a;
      assert [a[j]][0] != [c][0];
    }
    PositionIs(s, [c], |a|);
  }

  lemma NoPosition<T>(a: seq<T>, c: T)
    requires c !in a
    ensures Position(a, [c]).None?
  {
    forall j | 0 <= j < |a| ensures !OccursAt(a, [c], j) {
      assert a[j] in a;
      assert a[j..j + 1][0] != [c][0];
    }
    assert forall j :: OccursAt(a, [c], j) ==> 0 <= j < |a|;
  }
}
