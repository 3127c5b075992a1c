/** The exemplars of a native histogram (nativeExemplars.addExemplar in
    prometheus/histogram.go): a sorted list of bounded length that keeps its values
    spread out.  The logarithm is any strictly increasing function. */
module Exemplars {

  datatype Exemplar = Exemplar(value: real, time: int)

  ghost predicate Sorted(xs: seq<Exemplar>) { forall i, j :: 0 <= i < j < |xs| ==> xs[i].value <= xs[j].value }

  ghost predicate Positive(xs: seq<Exemplar>) { forall i :: 0 <= i < |xs| ==> xs[i].value > 0.0 }

  ghost predicate Increasing(log: real -> real) {
    forall x, y :: 0.0 < x && 0.0 < y ==> (x < y <==> log(x) < log(y))
  }

  function Abs(x: real): real { if x < 0.0 then -x else x }

  /** The distance of neighbours i - 1 and i on the logarithmic scale. */
  function Diff(log: real -> real, xs: seq<Exemplar>, i: nat): real
    requires 0 < i < |xs|
  {
    Abs(log(xs[i].value) - log(xs[i - 1].value))
  }

  /** No two neighbours are closer than i - 1 and i. */
  ghost predicate Closest(log: real -> real, xs: seq<Exemplar>, i: nat) {
    0 < i < |xs| && forall j :: 0 < j < |xs| ==> Diff(log, xs, i) <= Diff(log, xs, j)
  }

  /** r is in a closest pair. */
  ghost predicate InClosest(log: real -> real, xs: seq<Exemplar>, r: nat) {
    Closest(log, xs, r) || Closest(log, xs, r + 1)
  }

  ghost predicate IsOldest(xs: seq<Exemplar>, o: nat) {
    o < |xs| && (forall i :: 0 <= i < |xs| ==> xs[o].time <= xs[i].time) && forall i :: 0 <= i < o ==> xs[o].time < xs[i].time
  }

  function Inserted(xs: seq<Exemplar>, n: nat, e: Exemplar): seq<Exemplar>
    requires n <= |xs|
  {
    xs[..n] + [e] + xs[n..]
  }

  function Without(xs: seq<Exemplar>, r: nat): seq<Exemplar>
    requires r < |xs|
  {
    xs[..r] + xs[r + 1..]
  }

  /** Where index r of the old list is once e is inserted at n. */
  function Shifted(n: nat, r: nat): nat { if r < n then r else r + 1 }

  /** e belongs at n: everything before is smaller or equal, everything behind is
      larger or equal. */
  ghost predicate Belongs(xs: seq<Exemplar>, n: nat, e: Exemplar) {
    n <= |xs| && (forall i :: 0 <= i < n ==> xs[i].value <= e.value) && forall i :: n <= i < |xs| ==> e.value <= xs[i].value
  }

  lemma InsertedSorted(xs: seq<Exemplar>, n: nat, e: Exemplar)
    requires Sorted(xs) && Belongs(xs, n, e)
    ensures Sorted(Inserted(xs, n, e))
  {
  }

  lemma WithoutSorted(xs: seq<Exemplar>, r: nat)
    requires Sorted(xs) && r < |xs|
    ensures Sorted(Without(xs, r))
  {
  }

  // ---------------------------------------------------------------- distances as float64

  /** What a difference of logarithms can be. */
  datatype Float = Number(r: real) | Infinite | NotANumber

  /** math.Abs of the difference of the math.Logs: the logarithm of zero is minus
      infinity, and that of a negative value not a number. */
  function Distance(log: real -> real, x: real, y: real): Float {
    if x > 0.0 && y > 0.0 then Number(Abs(log(x) - log(y)))
    else if x < 0.0 || y < 0.0 || x == y then NotANumber
    else Infinite
  }

  predicate Less(a: Float, b: Float) { a.Number? && (b.Infinite? || (b.Number? && a.r < b.r)) }

  /** What the loop over the full list finds out. */
  datatype Scan = Scan(oldest: nat, n: nat, md: Float, r: nat)

  ghost predicate Scanned(log: real -> real, xs: seq<Exemplar>, e: Exemplar, s: Scan) {
    && IsOldest(xs, s.oldest)
    && s.n <= |xs| && (forall i :: 0 <= i < s.n ==> xs[i].value < e.value) && (s.n < |xs| ==> e.value <= xs[s.n].value)
    && s.r < |xs| && (Positive(xs) ==> s.md.Number? && PairOf(log, xs, s.md.r, s.r))
  }

  /** md is the distance of the closest pair, and r its older member. */
  ghost predicate PairOf(log: real -> real, xs: seq<Exemplar>, md: real, r: nat) {
    (Closest(log, xs, r) && Diff(log, xs, r) == md && xs[r].time < xs[r - 1].time) ||
    (Closest(log, xs, r + 1) && Diff(log, xs, r + 1) == md && xs[r].time <= xs[r + 1].time)
  }

  lemma PairGrows(log: real -> real, xs: seq<Exemplar>, i: nat, md: real, r: nat)
    requires 0 < i < |xs| && (i > 1 ==> PairOf(log, xs[..i], md, r))
    ensures i > 1 && Diff(log, xs, i) >= md ==> PairOf(log, xs[..i + 1], md, r)
    ensures i == 1 || Diff(log, xs, i) < md ==>
      PairOf(log, xs[..i + 1], Diff(log, xs, i), if xs[i].time < xs[i - 1].time then i else i - 1)
  {
    var before, after := xs[..i], xs[..i + 1];
    forall j | 0 < j < i ensures Diff(log, after, j) == Diff(log, before, j) {}
    assert Diff(log, after, i) == Diff(log, xs, i);
    if i == 1 || Diff(log, xs, i) < md { assert Closest(log, after, i); }
  }

  lemma OldestGrows(xs: seq<Exemplar>, i: nat, o: nat)
    requires i < |xs| && (i > 0 ==> IsOldest(xs[..i], o))
    ensures IsOldest(xs[..i + 1], if i == 0 || xs[i].time < xs[o].time then i else o)
  {
    assert forall k :: 0 <= k < i ==> xs[..i + 1][k] == xs[..i][k];
  }

  ghost predicate ClosestSoFar(log: real -> real, xs: seq<Exemplar>, i: nat, md: Float, r: nat)
    requires i <= |xs|
  {
    md.Number? && md.r >= 0.0 && PairOf(log, xs[..i], md.r, r)
  }

  method ScanFull(log: real -> real, xs: seq<Exemplar>, e: Exemplar) returns (s: Scan)
    requires |xs| > 1
    ensures Scanned(log, xs, e, s)
  {
    var ot, otIdx, nIdx, md, rIdx := 0, -1, -1, Number(-1.0), 0;
    for i := 0 to |xs|
      invariant i == 0 ==> otIdx == -1
      invariant i > 0 ==> 0 <= otIdx < i && ot == xs[otIdx].time && IsOldest(xs[..i], otIdx)
      invariant nIdx == -1 ==> forall k :: 0 <= k < i ==> xs[k].value < e.value
      invariant nIdx == -1 || 0 <= nIdx < i
      invariant nIdx != -1 ==> (forall k :: 0 <= k < nIdx ==> xs[k].value < e.value) && e.value <= xs[nIdx].value
      invariant i <= 1 ==> md == Number(-1.0)
      invariant 0 <= rIdx < |xs| && (i > 1 && Positive(xs) ==> ClosestSoFar(log, xs, i, md, rIdx))
    {
      OldestGrows(xs, i, if i == 0 then 0 else otIdx);
      if otIdx == -1 || xs[i].time < ot {
        ot, otIdx := xs[i].time, i;
      }
      if nIdx == -1 && e.value <= xs[i].value { nIdx := i; }
      if i > 0 {
        var diff := Distance(log, xs[i].value, xs[i - 1].value);
        if Positive(xs) { PairGrows(log, xs, i, if i == 1 then 0.0 else md.r, rIdx); }
        if md == Number(-1.0) || Less(diff, md) {
          md := diff;
          rIdx := if xs[i].time < xs[i - 1].time then i else i - 1;
        }
      }
    }
    assert xs[..|xs|] == xs;
    if nIdx == -1 { nIdx := |xs|; }
    s := Scan(otIdx, nIdx, md, rIdx);
  }

  // ---------------------------------------------------------------- the one to replace

  /** The distances of e to its neighbours to be; a missing neighbour is no closer
      than md. */
  function ToPrevious(log: real -> real, xs: seq<Exemplar>, n: nat, e: Exemplar, md: real): real
    requires n <= |xs|
  {
    if n > 0 then Abs(log(e.value) - log(xs[n - 1].value)) else md
  }

  function ToNext(log: real -> real, xs: seq<Exemplar>, n: nat, e: Exemplar, md: real): real
    requires n <= |xs|
  {
    if n < |xs| then Abs(log(xs[n].value) - log(e.value)) else md
  }

  /** The distances in the enlarged list. */
  lemma EnlargedDiffs(log: real -> real, xs: seq<Exemplar>, n: nat, e: Exemplar, md: real, j: nat)
    requires n <= |xs| && 0 < j <= |xs|
    ensures Diff(log, Inserted(xs, n, e), j) ==
      if j < n then Diff(log, xs, j)
      else if j == n then ToPrevious(log, xs, n, e, md)
      else if j == n + 1 then ToNext(log, xs, n, e, md)
      else Diff(log, xs, j - 1)
  {
  }

  /** e splits the distance of its neighbours. */
  lemma Splits(log: real -> real, xs: seq<Exemplar>, n: nat, e: Exemplar, md: real)
    requires Increasing(log) && Positive(xs) && e.value > 0.0 && Belongs(xs, n, e) && 0 < n < |xs|
    ensures ToPrevious(log, xs, n, e, md) + ToNext(log, xs, n, e, md) == Diff(log, xs, n)
  {
    var a, b, c := xs[n - 1].value, e.value, xs[n].value;
    assert log(a) <= log(b) by { if a < b { assert log(a) < log(b); } }
    assert log(b) <= log(c) by { if b < c { assert log(b) < log(c); } }
  }

  /** No two neighbours of the enlarged list are closer than least. */
  lemma AllAtLeast(log: real -> real, xs: seq<Exemplar>, n: nat, e: Exemplar, md: real, r: nat, least: real)
    requires n <= |xs| && PairOf(log, xs, md, r) && least <= md
    requires least <= ToPrevious(log, xs, n, e, md) && least <= ToNext(log, xs, n, e, md)
    ensures forall j :: 0 < j <= |xs| ==> least <= Diff(log, Inserted(xs, n, e), j)
  {
    forall j | 0 < j <= |xs| ensures least <= Diff(log, Inserted(xs, n, e), j) {
      EnlargedDiffs(log, xs, n, e, md, j);
    }
  }

  /** The closest old pair is still the closest one, whole ... */
  lemma PairStaysWhole(log: real -> real, xs: seq<Exemplar>, n: nat, e: Exemplar, md: real, r: nat, i: nat)
    requires n <= |xs| && PairOf(log, xs, md, r) && Closest(log, xs, i) && Diff(log, xs, i) == md && i != n
    requires md <= ToPrevious(log, xs, n, e, md) && md <= ToNext(log, xs, n, e, md)
    ensures Closest(log, Inserted(xs, n, e), Shifted(n, i))
  {
    AllAtLeast(log, xs, n, e, md, r, md);
    EnlargedDiffs(log, xs, n, e, md, Shifted(n, i));
  }

  /** ... or split by e, at no distance at all. */
  lemma PairStaysSplit(log: real -> real, xs: seq<Exemplar>, n: nat, e: Exemplar, md: real, r: nat)
    requires Increasing(log) && Positive(xs) && e.value > 0.0 && Belongs(xs, n, e) && PairOf(log, xs, md, r)
    requires Closest(log, xs, n) && Diff(log, xs, n) == md
    requires md <= ToPrevious(log, xs, n, e, md) && md <= ToNext(log, xs, n, e, md)
    ensures Closest(log, Inserted(xs, n, e), n) && Closest(log, Inserted(xs, n, e), n + 1)
  {
    AllAtLeast(log, xs, n, e, md, r, md);
    Splits(log, xs, n, e, md);
    EnlargedDiffs(log, xs, n, e, md, n);
    EnlargedDiffs(log, xs, n, e, md, n + 1);
  }

  lemma PairStays(log: real -> real, xs: seq<Exemplar>, n: nat, e: Exemplar, md: real, r: nat)
    requires Increasing(log) && Positive(xs) && e.value > 0.0 && Belongs(xs, n, e) && PairOf(log, xs, md, r)
    requires md <= ToPrevious(log, xs, n, e, md) && md <= ToNext(log, xs, n, e, md)
    ensures InClosest(log, Inserted(xs, n, e), Shifted(n, r))
  {
    var i := if Closest(log, xs, r) && Diff(log, xs, r) == md && xs[r].time < xs[r - 1].time then r else r + 1;
    if i == n {
      PairStaysSplit(log, xs, n, e, md, r);
    } else {
      PairStaysWhole(log, xs, n, e, md, r, i);
    }
  }

  /** The choice between the closest old pair and the two new ones. */
  lemma ChoiceIsClosest(log: real -> real, xs: seq<Exemplar>, n: nat, e: Exemplar, md: real, r: nat)
    requires Increasing(log) && Positive(xs) && e.value > 0.0 && Belongs(xs, n, e) && PairOf(log, xs, md, r)
    ensures InClosest(log, Inserted(xs, n, e), Shifted(n, Choice(log, xs, n, e, md, r)))
  {
    var prev, next := ToPrevious(log, xs, n, e, md), ToNext(log, xs, n, e, md);
    var enlarged := Inserted(xs, n, e);
    if next < md && next < prev {
      AllAtLeast(log, xs, n, e, md, r, next);
      EnlargedDiffs(log, xs, n, e, md, n + 1);
      assert Closest(log, enlarged, n + 1);
    } else if prev < md {
      AllAtLeast(log, xs, n, e, md, r, prev);
      EnlargedDiffs(log, xs, n, e, md, n);
      assert Closest(log, enlarged, n);
    } else {
      PairStays(log, xs, n, e, md, r);
    }
  }

  function Choice(log: real -> real, xs: seq<Exemplar>, n: nat, e: Exemplar, md: real, r: nat): nat
    requires n <= |xs|
  {
    var prev, next := ToPrevious(log, xs, n, e, md), ToNext(log, xs, n, e, md);
    if next < md && next < prev then n else if prev < md then n - 1 else r
  }

  // ---------------------------------------------------------------- addExemplar

  lemma Replaced(xs: seq<Exemplar>, n: nat, e: Exemplar, r: nat)
    requires n <= |xs| && r < |xs|
    ensures r == n ==> Without(Inserted(xs, n, e), Shifted(n, r)) == xs[n := e]
    ensures r < n ==> Without(Inserted(xs, n, e), Shifted(n, r)) == xs[..r] + (xs[r + 1..n] + ([e] + xs[n..]))
    ensures r > n ==> Without(Inserted(xs, n, e), Shifted(n, r)) == xs[..n] + ([e] + (xs[n..r] + xs[r + 1..]))
  {
    var ys := Inserted(xs, n, e);
    if r < n {
      assert ys[..r] == xs[..r] && ys[r + 1..] == xs[r + 1..n] + ([e] + xs[n..]);
    } else {
      assert ys[..r + 1] == xs[..n] + ([e] + xs[n..r]) && ys[r + 2..] == xs[r + 1..];
      if r > n { assert xs[..n] + ([e] + xs[n..r]) + xs[r + 1..] == xs[..n] + ([e] + (xs[n..r] + xs[r + 1..])); }
    }
  }

  /** Of the full list xs enlarged by e at n, r is the oldest old one if that has
      expired, otherwise, among positive values, one of a closest pair. */
  ghost predicate WellChosen(log: real -> real, xs: seq<Exemplar>, e: Exemplar, ttl: int, n: nat, r: nat)
    requires n <= |xs|
  {
    exists o: nat :: IsOldest(xs, o) && (
      if e.time - xs[o].time > ttl then r == Shifted(n, o)
      else Increasing(log) && Positive(xs) && e.value > 0.0 ==> InClosest(log, Inserted(xs, n, e), r))
  }

  /** The switch at the end of addExemplar. */
  method ReplaceAt(xs: seq<Exemplar>, nIdx: nat, rIdx: nat, e: Exemplar) returns (ys: seq<Exemplar>)
    requires nIdx <= |xs| && rIdx < |xs|
    ensures ys == Without(Inserted(xs, nIdx, e), Shifted(nIdx, rIdx))
  {
    Replaced(xs, nIdx, e, rIdx);
    if rIdx == nIdx {
      ys := xs[nIdx := e];
    } else if rIdx < nIdx {
      ys := xs[..rIdx] + (xs[rIdx + 1..nIdx] + ([e] + xs[nIdx..]));
    } else {
      ys := xs[..nIdx] + ([e] + (xs[nIdx..rIdx] + xs[rIdx + 1..]));
    }
  }

  /** With room left, e goes before the first larger value. */
  method Insert(xs: seq<Exemplar>, e: Exemplar) returns (ys: seq<Exemplar>, ghost n: nat)
    requires Sorted(xs)
    ensures Belongs(xs, n, e) && ys == Inserted(xs, n, e) && Sorted(ys)
  {
    var nIdx := 0;
    while nIdx < |xs| && !(e.value < xs[nIdx].value)
      invariant nIdx <= |xs| && forall i :: 0 <= i < nIdx ==> xs[i].value <= e.value
    {
      nIdx := nIdx + 1;
    }
    n := nIdx;
    InsertedSorted(xs, n, e);
    ys := xs[..nIdx] + ([e] + xs[nIdx..]);
    assert ys == Inserted(xs, n, e);
  }

  const DISABLED: int := -1

  class NativeExemplars {
    const ttl: int
    const capacity: nat
    const log: real -> real
    var exemplars: seq<Exemplar>

    /** makeNativeExemplars leaves no room only where it disables exemplars. */
    ghost predicate Valid()
      reads this
    {
      |exemplars| <= capacity && (ttl != DISABLED ==> capacity > 0) && Sorted(exemplars)
    }

    /** addExemplar: n is where e belongs, r the index in the
        enlarged list of the one that goes. */
    method AddExemplar(e: Exemplar) returns (ghost n: nat, ghost r: nat)
      requires Valid()
      modifies this
      ensures Valid()
      ensures ttl == DISABLED ==> exemplars == old(exemplars)
      ensures ttl != DISABLED ==> Belongs(old(exemplars), n, e)
      ensures ttl != DISABLED && |old(exemplars)| < capacity ==> exemplars == Inserted(old(exemplars), n, e)
      ensures ttl != DISABLED && |old(exemplars)| == capacity ==>
        r <= capacity && r != n && exemplars == Without(Inserted(old(exemplars), n, e), r)
      ensures ttl != DISABLED && |old(exemplars)| == capacity > 1 ==>
        WellChosen(log, old(exemplars), e, ttl, n, r)
    {
      n, r := 0, 0;
      if ttl == DISABLED { return; }
      if |exemplars| < capacity {
        exemplars, n := Insert(exemplars, e);
        return;
      }
      exemplars, n, r := AddFull(exemplars, e);
    }

    /** addExemplar on a full list. */
    method AddFull(xs: seq<Exemplar>, e: Exemplar) returns (ys: seq<Exemplar>, ghost n: nat, ghost r: nat)
      requires |xs| > 0 && Sorted(xs)
      ensures Belongs(xs, n, e) && r <= |xs| && r != n && ys == Without(Inserted(xs, n, e), r)
      ensures |xs| > 1 ==> WellChosen(log, xs, e, ttl, n, r)
      ensures Sorted(ys)
    {
      if |xs| == 1 {
        n := if e.value <= xs[0].value then 0 else 1;
        r := 1 - n;
        ys := xs[0 := e];
        return;
      }
      var nIdx, rIdx := Replace(xs, e);
      n, r := nIdx, Shifted(nIdx, rIdx);
      ys := ReplaceAt(xs, nIdx, rIdx, e);
      InsertedSorted(xs, n, e);
      WithoutSorted(Inserted(xs, n, e), r);
    }

    /** The middle of addExemplar: where e goes, and which one goes for it. */
    method Replace(xs: seq<Exemplar>, e: Exemplar) returns (nIdx: nat, rIdx: nat)
      requires |xs| > 1 && Sorted(xs)
      ensures Belongs(xs, nIdx, e) && rIdx < |xs|
      ensures WellChosen(log, xs, e, ttl, nIdx, Shifted(nIdx, rIdx))
    {
      var s := ScanFull(log, xs, e);
      nIdx, rIdx := s.n, s.r;
      assert Belongs(xs, nIdx, e);
      if e.time - xs[s.oldest].time > ttl {
        rIdx := s.oldest;
      } else {
        var md := s.md;
        if nIdx > 0 {
          var diff := Distance(log, e.value, xs[nIdx - 1].value);
          if Less(diff, md) {
            md := diff;
            rIdx := nIdx - 1;
          }
        }
        if nIdx < |xs| {
          var diff := Distance(log, xs[nIdx].value, e.value);
          if Less(diff, md) { rIdx := nIdx; }
        }
        if Increasing(log) && Positive(xs) && e.value > 0.0 {
          ChoiceIsClosest(log, xs, nIdx, e, s.md.r, s.r);
          assert rIdx == Choice(log, xs, nIdx, e, s.md.r, s.r);
        }
      }
    }
  }
}
