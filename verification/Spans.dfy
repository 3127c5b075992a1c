/** Sparse buckets as spans and deltas: makeBuckets and makeBucketsFromMap, which
    are the same function over two kinds of map, and the reading of their result
    (Prometheus Native Histograms specification, section "Buckets"). */
module Spans {
  import opened Helpers

  type Buckets = map<int, int>

  function Get(b: Buckets, k: int): int { if k in b then b[k] else 0 }

  /** Go's int32(x). */
  function Int32(x: int): (r: int)
    ensures -0x8000_0000 <= r < 0x8000_0000 && (-0x8000_0000 <= x < 0x8000_0000 <==> r == x)
  {
    (x + 0x8000_0000) % 0x1_0000_0000 - 0x8000_0000
  }

  datatype Span = Span(offset: int, length: nat)

  // ---------------------------------------------------------------- decoding

  /** The index behind the last bucket of the spans. */
  function End(spans: seq<Span>): int {
    if spans == [] then 0 else End(spans[..|spans| - 1]) + spans[|spans| - 1].offset + spans[|spans| - 1].length
  }

  function Indexes(first: int, n: nat): (r: seq<int>)
    ensures |r| == n && forall i :: 0 <= i < n ==> r[i] == first + i
  {
    if n == 0 then [] else Indexes(first, n - 1) + [first + n - 1]
  }

  /** The indexes of the buckets the spans cover, in order. */
  function Positions(spans: seq<Span>): seq<int> {
    if spans == [] then []
    else
      var last := spans[|spans| - 1];
      Positions(spans[..|spans| - 1]) + Indexes(End(spans[..|spans| - 1]) + last.offset, last.length)
  }

  /** The counts the deltas stand for. */
  function Values(deltas: seq<int>): (r: seq<int>)
    ensures |r| == |deltas|
  {
    if deltas == [] then []
    else
      var rest := Values(deltas[..|deltas| - 1]);
      rest + [(if rest == [] then 0 else rest[|rest| - 1]) + deltas[|deltas| - 1]]
  }

  function Last(deltas: seq<int>): int { if deltas == [] then 0 else Values(deltas)[|deltas| - 1] }

  lemma AppendDelta(deltas: seq<int>, d: int)
    ensures Values(deltas + [d]) == Values(deltas) + [Last(deltas) + d]
  {
    assert (deltas + [d])[..|deltas|] == deltas;
  }

  /** The last span, one bucket longer. */
  function Longer(spans: seq<Span>): seq<Span>
    requires spans != []
  {
    spans[|spans| - 1 := Span(spans[|spans| - 1].offset, spans[|spans| - 1].length + 1)]
  }

  lemma LastSpan(rest: seq<Span>, s: Span)
    ensures Positions(rest + [s]) == Positions(rest) + Indexes(End(rest) + s.offset, s.length)
    ensures End(rest + [s]) == End(rest) + s.offset + s.length
  {
    assert (rest + [s])[..|rest|] == rest;
  }

  lemma LongerSpan(spans: seq<Span>)
    requires spans != []
    ensures Positions(Longer(spans)) == Positions(spans) + [End(spans)] && End(Longer(spans)) == End(spans) + 1
  {
    var rest, s := spans[..|spans| - 1], spans[|spans| - 1];
    var s' := Span(s.offset, s.length + 1);
    assert spans == rest + [s] && Longer(spans) == rest + [s'];
    LastSpan(rest, s);
    LastSpan(rest, s');
    var first := End(rest) + s.offset;
    assert Indexes(first, s.length + 1) == Indexes(first, s.length) + [first + s.length];
  }

  lemma NewSpan(spans: seq<Span>, offset: int)
    ensures Positions(spans + [Span(offset, 0)]) == Positions(spans) && End(spans + [Span(offset, 0)]) == End(spans) + offset
  {
    assert (spans + [Span(offset, 0)])[..|spans|] == spans;
  }

  // ---------------------------------------------------------------- what is encoded

  datatype Cell = Cell(index: int, count: int)

  ghost predicate Increasing(ii: seq<int>) { forall i, j :: 0 <= i < j < |ii| ==> ii[i] < ii[j] }

  ghost predicate KeysOf(ii: seq<int>, b: Buckets) {
    Increasing(ii) && In(ii, b) && (forall k <- b :: exists i :: 0 <= i < |ii| && ii[i] == k)
  }

  function Behind(cells: seq<Cell>): int { if cells == [] then 0 else cells[|cells| - 1].index + 1 }

  function Zeros(first: int, n: nat): (r: seq<Cell>)
    ensures |r| == n && forall i :: 0 <= i < n ==> r[i] == Cell(first + i, 0)
  {
    if n == 0 then [] else Zeros(first, n - 1) + [Cell(first + n - 1, 0)]
  }

  /** The gap to the next key as int32. */
  function Gap(ii: seq<int>): int
    requires ii != []
  {
    Int32(ii[|ii| - 1] - if |ii| == 1 then 0 else ii[|ii| - 2] + 1)
  }

  /** How far the next cell is behind the last one. */
  function Skipped(first: bool, iDelta: int): int { if !first && iDelta < 0 then 0 else iDelta }

  /** The cells with those that fill a small gap. */
  function Filled(cells: seq<Cell>, first: bool, iDelta: int): seq<Cell> {
    if first || iDelta > 2 then cells else cells + Zeros(Behind(cells), Skipped(first, iDelta))
  }

  function AddCell(cells: seq<Cell>, first: bool, iDelta: int, count: int): seq<Cell> {
    Filled(cells, first, iDelta) + [Cell(Behind(cells) + Skipped(first, iDelta), count)]
  }

  ghost predicate In(ii: seq<int>, b: Buckets) { forall i :: 0 <= i < |ii| ==> ii[i] in b }

  /** The cells that are encoded for the sorted keys ii. */
  ghost function Cells(ii: seq<int>, b: Buckets): seq<Cell>
    requires In(ii, b)
  {
    if ii == [] then [] else AddCell(Cells(ii[..|ii| - 1], b), |ii| == 1, Gap(ii), b[ii[|ii| - 1]])
  }

  ghost predicate Encodes(spans: seq<Span>, deltas: seq<int>, cells: seq<Cell>) {
    && |Positions(spans)| == |deltas| == |cells|
    && (forall i :: 0 <= i < |cells| ==> cells[i] == Cell(Positions(spans)[i], Values(deltas)[i]))
  }

  lemma EncodesAppend(spans: seq<Span>, deltas: seq<int>, cells: seq<Cell>, count: int)
    requires spans != [] && Encodes(spans, deltas, cells)
    ensures Encodes(Longer(spans), deltas + [count - Last(deltas)], cells + [Cell(End(spans), count)])
  {
    LongerSpan(spans);
    AppendDelta(deltas, count - Last(deltas));
  }

  // ---------------------------------------------------------------- the shape of spans

  function TotalLength(spans: seq<Span>): nat { if spans == [] then 0 else TotalLength(spans[..|spans| - 1]) + spans[|spans| - 1].length }

  lemma {:induction false} LengthsAreDeltas(spans: seq<Span>)
    ensures TotalLength(spans) == |Positions(spans)|
  {
    if spans != [] { LengthsAreDeltas(spans[..|spans| - 1]); }
  }

  /** No empty span, and at least three unpopulated buckets between two spans. */
  ghost predicate Shape(spans: seq<Span>) {
    forall i :: 0 <= i < |spans| ==> spans[i].length > 0 && (i > 0 ==> spans[i].offset > 2)
  }

  // ---------------------------------------------------------------- sort.Ints

  function Insert(ii: seq<int>, k: int): seq<int> {
    if ii == [] || ii[|ii| - 1] < k then ii + [k] else Insert(ii[..|ii| - 1], k) + [ii[|ii| - 1]]
  }

  lemma {:induction false} InsertSorts(ii: seq<int>, k: int)
    requires Increasing(ii) && k !in ii
    ensures Increasing(Insert(ii, k))
    ensures forall j :: j in Insert(ii, k) <==> j in ii || j == k
  {
    if ii == [] || ii[|ii| - 1] < k {
    } else {
      var rest, last := ii[..|ii| - 1], ii[|ii| - 1];
      InsertSorts(rest, k);
      assert ii == rest + [last];
      var r := Insert(rest, k);
      forall i | 0 <= i < |r| ensures r[i] < last { assert r[i] in r; }
    }
  }

  /** Range over the map, then sort.Ints. */
  method SortedKeys(b: Buckets) returns (ii: seq<int>)
    ensures KeysOf(ii, b)
  {
    ii := [];
    var todo := b.Keys;
    while todo != {}
      decreases |todo|
      invariant todo <= b.Keys && Increasing(ii)
      invariant forall k <- b :: k in todo || k in ii
      invariant forall k :: k in ii ==> k in b && k !in todo
    {
      var k := AnyOf(todo);
      InsertSorts(ii, k);
      ii := Insert(ii, k);
      todo := todo - {k};
    }
    forall i | 0 <= i < |ii| ensures ii[i] in b { assert ii[i] in ii; }
  }

  // ---------------------------------------------------------------- encoding

  lemma EncodesBehind(spans: seq<Span>, deltas: seq<int>, cells: seq<Cell>)
    requires Encodes(spans, deltas, cells) && Shape(spans)
    ensures Behind(cells) == if spans == [] then 0 else End(spans)
    ensures cells == [] <==> spans == []
  {
    if spans != [] {
      var s := spans[|spans| - 1];
      assert s.length > 0;
    }
  }

  lemma ShapeGrows(spans: seq<Span>, offset: int)
    requires Shape(spans)
    ensures spans != [] ==> Shape(Longer(spans))
    ensures spans == [] || offset > 2 ==> Shape(Longer(spans + [Span(offset, 0)]))
  {
    assert Longer(spans + [Span(offset, 0)]) == spans + [Span(offset, 1)];
  }

  /** The state of the loop once cells are encoded. */
  ghost predicate At(spans: seq<Span>, deltas: seq<int>, prevCount: int, cells: seq<Cell>) {
    Shape(spans) && Encodes(spans, deltas, cells) && prevCount == Last(deltas) && (spans == [] <==> cells == [])
  }

  /** The next bucket of the last span has index at. */
  ghost predicate Ready(spans: seq<Span>, deltas: seq<int>, prevCount: int, cells: seq<Cell>, at: int) {
    spans != [] && Shape(Longer(spans)) && Encodes(spans, deltas, cells) && prevCount == Last(deltas) && at == End(spans)
  }

  lemma ReadyForNext(spans: seq<Span>, deltas: seq<int>, prevCount: int, cells: seq<Cell>)
    requires At(spans, deltas, prevCount, cells) && cells != []
    ensures Ready(spans, deltas, prevCount, cells, Behind(cells))
  {
    ShapeGrows(spans, 0);
    EncodesBehind(spans, deltas, cells);
  }

  lemma ReadyForSpan(spans: seq<Span>, deltas: seq<int>, prevCount: int, cells: seq<Cell>, offset: int)
    requires At(spans, deltas, prevCount, cells) && (cells == [] || offset > 2)
    ensures Ready(spans + [Span(offset, 0)], deltas, prevCount, cells, Behind(cells) + offset)
  {
    NewSpan(spans, offset);
    ShapeGrows(spans, offset);
    EncodesBehind(spans, deltas, cells);
  }

  /** appendDelta. */
  method AppendCount(spans: seq<Span>, deltas: seq<int>, prevCount: int, count: int, ghost cells: seq<Cell>, ghost at: int)
    returns (spans': seq<Span>, deltas': seq<int>, prevCount': int)
    requires Ready(spans, deltas, prevCount, cells, at)
    ensures At(spans', deltas', prevCount', cells + [Cell(at, count)])
  {
    AppendDelta(deltas, count - prevCount);
    EncodesAppend(spans, deltas, cells, count);
    spans' := spans[|spans| - 1 := Span(spans[|spans| - 1].offset, spans[|spans| - 1].length + 1)];
    deltas' := deltas + [count - prevCount];
    prevCount' := count;
  }

  lemma ZerosNext(cells: seq<Cell>, n: nat)
    requires cells != []
    ensures (cells + Zeros(Behind(cells), n)) + [Cell(Behind(cells) + n, 0)] == cells + Zeros(Behind(cells), n + 1)
    ensures Behind(cells + Zeros(Behind(cells), n + 1)) == Behind(cells) + n + 1
  {
  }

  /** The buckets filled in for a small gap. */
  method FillGap(spans: seq<Span>, deltas: seq<int>, prevCount: int, gap: int, ghost cells: seq<Cell>)
    returns (spans': seq<Span>, deltas': seq<int>, prevCount': int)
    requires At(spans, deltas, prevCount, cells) && cells != []
    ensures At(spans', deltas', prevCount', cells + Zeros(Behind(cells), if gap < 0 then 0 else gap))
  {
    spans', deltas', prevCount' := spans, deltas, prevCount;
    ghost var filled := cells;
    var j := 0;
    assert cells + Zeros(Behind(cells), 0) == cells;
    while j < gap
      invariant 0 <= j && (j <= gap || j == 0)
      invariant At(spans', deltas', prevCount', filled) && filled != [] && Behind(filled) == Behind(cells) + j
      invariant filled == cells + Zeros(Behind(cells), j)
    {
      ReadyForNext(spans', deltas', prevCount', filled);
      ZerosNext(cells, j);
      spans', deltas', prevCount' := AppendCount(spans', deltas', prevCount', 0, filled, Behind(filled));
      filled := filled + [Cell(Behind(cells) + j, 0)];
      j := j + 1;
    }
  }

  lemma CellsStep(ii: seq<int>, b: Buckets, n: nat)
    requires n < |ii| && In(ii, b)
    ensures Cells(ii[..n + 1], b) ==
      AddCell(Cells(ii[..n], b), n == 0, Int32(ii[n] - if n == 0 then 0 else ii[n - 1] + 1), b[ii[n]])
  {
    assert ii[..n + 1][..n] == ii[..n];
  }

  /** The body of the loop: the bucket behind a gap of iDelta. */
  method AddBucket(spans: seq<Span>, deltas: seq<int>, prevCount: int, iDelta: int, count: int, ghost cells: seq<Cell>)
    returns (spans': seq<Span>, deltas': seq<int>, prevCount': int)
    requires At(spans, deltas, prevCount, cells)
    ensures At(spans', deltas', prevCount', AddCell(cells, cells == [], iDelta, count))
  {
    if spans == [] || iDelta > 2 {
      ReadyForSpan(spans, deltas, prevCount, cells, iDelta);
      spans', deltas', prevCount' :=
        AppendCount(spans + [Span(iDelta, 0)], deltas, prevCount, count, cells, Behind(cells) + iDelta);
    } else {
      spans', deltas', prevCount' := FillGap(spans, deltas, prevCount, iDelta, cells);
      ghost var filled := Filled(cells, false, iDelta);
      assert Behind(filled) == Behind(cells) + Skipped(false, iDelta);
      ReadyForNext(spans', deltas', prevCount', filled);
      spans', deltas', prevCount' := AppendCount(spans', deltas', prevCount', count, filled, Behind(filled));
    }
  }

  /** d has every bucket of b, with its count. */
  ghost predicate HoldsAll(d: Buckets, b: Buckets) { forall k <- b :: k in d && d[k] == b[k] }

  ghost predicate ZeroElsewhere(d: Buckets, b: Buckets) { forall k :: k !in b ==> Get(d, k) == 0 }

  lemma NoKey(ii: seq<int>, b: Buckets)
    requires KeysOf(ii, b)
    ensures b == map[] ==> ii == []
  {
    if ii != [] { assert ii[0] in b; }
  }

  /** makeBuckets and makeBucketsFromMap. */
  method MakeBuckets(b: Buckets) returns (spans: seq<Span>, deltas: seq<int>)
    ensures Shape(spans) && TotalLength(spans) == |deltas| == |Positions(spans)|
    ensures b == map[] ==> spans == []
    ensures Fits(b) <==> HoldsAll(Decode(spans, deltas), b)
    ensures Fits(b) ==> ZeroElsewhere(Decode(spans, deltas), b)
  {
    var ii := SortedKeys(b);
    spans, deltas := Encode(ii, b);
    LengthsAreDeltas(spans);
    NoKey(ii, b);
    RoundTrip(b, ii, spans, deltas);
  }

  /** The loop over the sorted keys. */
  method Encode(ii: seq<int>, b: Buckets) returns (spans: seq<Span>, deltas: seq<int>)
    requires In(ii, b)
    ensures At(spans, deltas, Last(deltas), Cells(ii, b))
  {
    spans, deltas := [], [];
    var prevCount, nextI := 0, 0;
    ghost var cells := [];
    for n := 0 to |ii|
      invariant At(spans, deltas, prevCount, cells)
      invariant cells == Cells(ii[..n], b) && (n == 0 <==> cells == [])
      invariant nextI == if n == 0 then 0 else ii[n - 1] + 1
    {
      var i := ii[n];
      CellsStep(ii, b, n);
      spans, deltas, prevCount := AddBucket(spans, deltas, prevCount, Int32(i - nextI), b[i], cells);
      cells := AddCell(cells, cells == [], Int32(i - nextI), b[i]);
      nextI := i + 1;
    }
    assert ii[..|ii|] == ii;
  }

  // ---------------------------------------------------------------- the round trip

  /** The cells as a map from index to count. */
  function Read(cells: seq<Cell>): Buckets {
    if cells == [] then map[] else Read(cells[..|cells| - 1])[cells[|cells| - 1].index := cells[|cells| - 1].count]
  }

  /** What a reader makes of spans and deltas. */
  function Decode(spans: seq<Span>, deltas: seq<int>): Buckets
    requires |Positions(spans)| == |deltas|
  {
    Read(seq(|deltas|, i requires 0 <= i < |deltas| => Cell(Positions(spans)[i], Values(deltas)[i])))
  }

  lemma DecodesCells(spans: seq<Span>, deltas: seq<int>, cells: seq<Cell>)
    requires Encodes(spans, deltas, cells)
    ensures Decode(spans, deltas) == Read(cells)
  {
    assert cells == seq(|deltas|, i requires 0 <= i < |deltas| => Cell(Positions(spans)[i], Values(deltas)[i]));
  }

  lemma ReadAppend(cells: seq<Cell>, c: Cell)
    ensures Read(cells + [c]) == Read(cells)[c.index := c.count]
  {
    assert (cells + [c])[..|cells|] == cells;
  }

  /** Every index read is from lo up to before hi. */
  ghost predicate Within(b: Buckets, lo: int, hi: int) { forall k <- b :: lo <= k < hi }

  ghost predicate OnlyZerosMore(r: Buckets, d: Buckets) {
    (forall k :: Get(r, k) == Get(d, k)) && forall k <- d :: k in r
  }

  /** The first n cells are read, and then one with no count behind them. */
  lemma ReadZero(cells: seq<Cell>, before: seq<Cell>, at: int, lo: int)
    requires Within(Read(before), lo, at) && lo <= at && OnlyZerosMore(Read(before), Read(cells))
    requires Within(Read(cells), lo, at)
    ensures Within(Read(before + [Cell(at, 0)]), lo, at + 1) && OnlyZerosMore(Read(before + [Cell(at, 0)]), Read(cells))
  {
    ReadAppend(before, Cell(at, 0));
  }

  lemma {:induction false} ReadZeros(cells: seq<Cell>, first: int, n: nat, lo: int)
    requires Within(Read(cells), lo, first) && lo <= first
    ensures Within(Read(cells + Zeros(first, n)), lo, first + n)
    ensures OnlyZerosMore(Read(cells + Zeros(first, n)), Read(cells))
  {
    if n == 0 {
      assert cells + Zeros(first, 0) == cells;
    } else {
      ReadZeros(cells, first, n - 1, lo);
      var before := cells + Zeros(first, n - 1);
      assert cells + Zeros(first, n) == before + [Cell(first + n - 1, 0)];
      ReadZero(cells, before, first + n - 1, lo);
    }
  }

  /** The gap in front of the last of the sorted keys ii fits an int32. */
  predicate GapFits(ii: seq<int>)
    requires ii != []
  {
    Gap(ii) == ii[|ii| - 1] - if |ii| == 1 then 0 else ii[|ii| - 2] + 1
  }

  ghost predicate AllFit(ii: seq<int>) { forall n :: 0 < n <= |ii| ==> GapFits(ii[..n]) }

  /** D has the counts of the keys ii, and nothing else but zeros. */
  ghost predicate Exact(d: Buckets, ii: seq<int>, b: Buckets) {
    forall k :: if k in ii && k in b then k in d && d[k] == b[k] else Get(d, k) == 0
  }

  lemma PrefixFits(ii: seq<int>)
    requires AllFit(ii) && ii != []
    ensures AllFit(ii[..|ii| - 1]) && GapFits(ii)
  {
    assert ii[..|ii|] == ii;
    var rest := ii[..|ii| - 1];
    forall n | 0 < n <= |rest| ensures GapFits(rest[..n]) { assert rest[..n] == ii[..n]; }
  }

  /** A further key adds its own bucket and, before it, only zeros. */
  lemma ReadAdd(cells: seq<Cell>, first: bool, iDelta: int, count: int, lo: int)
    requires if first then cells == [] else lo <= Behind(cells) && Within(Read(cells), lo, Behind(cells))
    ensures var at := Behind(cells) + Skipped(first, iDelta);
      && Behind(AddCell(cells, first, iDelta, count)) == at + 1
      && Read(AddCell(cells, first, iDelta, count)) == Read(Filled(cells, first, iDelta))[at := count]
      && OnlyZerosMore(Read(Filled(cells, first, iDelta)), Read(cells))
      && Within(Read(Filled(cells, first, iDelta)), lo, at)
  {
    var at := Behind(cells) + Skipped(first, iDelta);
    ReadAppend(Filled(cells, first, iDelta), Cell(at, count));
    if !first { ReadZeros(cells, Behind(cells), Skipped(first, iDelta), lo); }
  }

  lemma WithinGrows(b: Buckets, lo: int, at: int, count: int)
    requires Within(b, lo, at) && lo <= at
    ensures Within(b[at := count], lo, at + 1)
  {
  }

  lemma ExactAppend(d: Buckets, filled: Buckets, ii: seq<int>, b: Buckets)
    requires ii != [] && Increasing(ii) && Exact(d, ii[..|ii| - 1], b) && ii[|ii| - 1] in b
    requires OnlyZerosMore(filled, d)
    ensures Exact(filled[ii[|ii| - 1] := b[ii[|ii| - 1]]], ii, b)
  {
    var rest, last := ii[..|ii| - 1], ii[|ii| - 1];
    assert ii == rest + [last];
    var r := filled[last := b[last]];
    forall k ensures if k in ii && k in b then k in r && r[k] == b[k] else Get(r, k) == 0 {
      assert if k in rest && k in b then k in d && d[k] == b[k] else Get(d, k) == 0;
      assert Get(filled, k) == Get(d, k);
    }
  }

  /** The cells of a sorted sequence of keys that fit hold them, up to the last. */
  ghost predicate Fitted(ii: seq<int>, b: Buckets)
    requires In(ii, b)
  {
    && Exact(Read(Cells(ii, b)), ii, b)
    && (ii != [] ==> Behind(Cells(ii, b)) == ii[|ii| - 1] + 1 && Within(Read(Cells(ii, b)), ii[0], ii[|ii| - 1] + 1))
  }

  lemma FittingStep(ii: seq<int>, b: Buckets)
    requires Increasing(ii) && ii != [] && GapFits(ii) && In(ii, b) && Fitted(ii[..|ii| - 1], b)
    ensures Fitted(ii, b)
  {
    var cells := Cells(ii[..|ii| - 1], b);
    var filled := Read(Filled(cells, |ii| == 1, Gap(ii)));
    ReadAdd(cells, |ii| == 1, Gap(ii), b[ii[|ii| - 1]], ii[0]);
    ExactAppend(Read(cells), filled, ii, b);
    WithinGrows(filled, ii[0], ii[|ii| - 1], b[ii[|ii| - 1]]);
  }

  lemma {:induction false} FittingIsExact(ii: seq<int>, b: Buckets)
    requires Increasing(ii) && AllFit(ii) && In(ii, b)
    ensures Fitted(ii, b)
  {
    if ii != [] {
      PrefixFits(ii);
      FittingIsExact(ii[..|ii| - 1], b);
      FittingStep(ii, b);
    }
  }

  /** How far the last cell is off its key. */
  ghost function Off(ii: seq<int>, b: Buckets): int
    requires ii != [] && In(ii, b)
  {
    Behind(Cells(ii, b)) - 1 - ii[|ii| - 1]
  }

  /** The first cell is off by what its int32 is; later gaps that do not fit only
      ever bring cells down. */
  lemma {:induction false} Drift(ii: seq<int>, b: Buckets)
    requires Increasing(ii) && ii != [] && In(ii, b)
    ensures Within(Read(Cells(ii, b)), Int32(ii[0]), Behind(Cells(ii, b))) && Int32(ii[0]) < Behind(Cells(ii, b))
    ensures Off(ii, b) <= Int32(ii[0]) - ii[0]
    ensures !AllFit(ii) && Int32(ii[0]) == ii[0] ==> Off(ii, b) < 0
  {
    var rest := ii[..|ii| - 1];
    if |ii| == 1 {
      assert forall n :: 0 < n <= |ii| ==> ii[..n] == ii;
    } else {
      Drift(rest, b);
      if !AllFit(ii) && GapFits(ii) { UnfitBefore(ii); }
    }
    var cells := Cells(rest, b);
    ReadAdd(cells, |ii| == 1, Gap(ii), b[ii[|ii| - 1]], Int32(ii[0]));
    WithinGrows(Read(Filled(cells, |ii| == 1, Gap(ii))), Int32(ii[0]), Behind(cells) + Skipped(|ii| == 1, Gap(ii)), b[ii[|ii| - 1]]);
  }

  lemma UnfitBefore(ii: seq<int>)
    requires |ii| > 1 && !AllFit(ii) && GapFits(ii)
    ensures !AllFit(ii[..|ii| - 1])
  {
    var n :| 0 < n <= |ii| && !GapFits(ii[..n]);
    assert ii[..|ii|] == ii;
    assert ii[..n] == ii[..|ii| - 1][..n];
  }

  lemma UnfittingLosesAKey(ii: seq<int>, b: Buckets)
    requires Increasing(ii) && !AllFit(ii) && In(ii, b)
    ensures ii[0] !in Read(Cells(ii, b)) || ii[|ii| - 1] !in Read(Cells(ii, b))
  {
    Drift(ii, b);
  }

  /** Every key or the gap in front of it fits an int32: what a caller can check. */
  ghost predicate Fits(b: Buckets) {
    forall k <- b :: KeyFits(b, k)
  }

  ghost predicate KeyFits(b: Buckets, k: int) {
    || (Int32(k) == k && forall j <- b :: k <= j)
    || exists j <- b :: j < k <= j + 0x8000_0000
  }

  lemma FitsIff(ii: seq<int>, b: Buckets)
    requires KeysOf(ii, b)
    ensures Fits(b) <==> AllFit(ii)
  {
    forall n | 0 < n <= |ii| ensures GapFits(ii[..n]) <==> KeyFits(b, ii[n - 1]) {
      var k := ii[n - 1];
      if n == 1 {
        assert forall j <- b :: k <= j;
      } else {
        assert ii[n - 2] < k && ii[n - 2] in b;
        if KeyFits(b, k) {
          var j :| j in b && j < k <= j + 0x8000_0000;
          assert j <= ii[n - 2];
        }
      }
    }
    if AllFit(ii) {
      forall k <- b ensures KeyFits(b, k) { var i :| 0 <= i < |ii| && ii[i] == k; assert GapFits(ii[..i + 1]); }
    }
  }

  /** Decoding gives back every bucket with its count, and zeros elsewhere, exactly
      if the keys fit. */
  lemma RoundTrip(b: Buckets, ii: seq<int>, spans: seq<Span>, deltas: seq<int>)
    requires KeysOf(ii, b) && Encodes(spans, deltas, Cells(ii, b))
    ensures Fits(b) <==> HoldsAll(Decode(spans, deltas), b)
    ensures Fits(b) ==> ZeroElsewhere(Decode(spans, deltas), b)
  {
    DecodesCells(spans, deltas, Cells(ii, b));
    FitsIff(ii, b);
    if AllFit(ii) {
      FittingIsExact(ii, b);
      forall k: int | k in b ensures k in Decode(spans, deltas) && Decode(spans, deltas)[k] == b[k] { assert k in ii; }
    } else {
      UnfittingLosesAKey(ii, b);
    }
  }

  /** Such as the one bucket 1 << 32, which is decoded as bucket 0. */
  lemma FarKeyMoves()
    ensures var k := 0x1_0000_0000; var b := map[k := 1];
      !Fits(b) && KeysOf([k], b) && Read(Cells([k], b)) == map[0 := 1]
  {
    var k := 0x1_0000_0000;
    var b := map[k := 1];
    assert [k][0] == k && k in b && !KeyFits(b, k);
    assert Cells([], b) == [] && [k][..0] == [];
    assert Filled([], true, 0) == [];
    assert Cells([k], b) == [Cell(0, 1)];
    ReadAppend([], Cell(0, 1));
    assert [] + [Cell(0, 1)] == [Cell(0, 1)];
  }
}
