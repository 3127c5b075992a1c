/** The native part of a histogram, under its mutex and without concurrent
    observers (those are in HotCold): observations, Write, and the strategies that
    limit the number of sparse buckets.  Throughout, what is exposed equals
    bucketing every observation since the last reset afresh at the current schema
    and zero threshold (Prometheus Native Histograms specification, sections
    "Schema", "Buckets" and "Zero bucket"). */
module Native {

  import opened Helpers
  import opened Bounds
  import opened Spans

  /** An observation other than NaN.  An infinite one goes by MaxFloat64. */
  datatype Obs = Obs(negative: bool, mag: Mag, infinite: bool)

  predicate Proper(o: Obs) { (o.mag.Nil? || (Finite(o.mag) && -1073 <= o.mag.exp)) && (o.infinite ==> o.mag == MAX) }

  // ---------------------------------------------------------------- bucketing afresh

  function KeyOf(t: Table, o: Obs, schema: int): int
    requires |t| == 9 && o.mag.Mag? && -4 <= schema <= 8
  {
    Key(t, o.mag, schema) + if o.infinite then 1 else 0
  }

  /** How many observations the zero bucket of threshold thr holds. */
  function ZeroCount(log: seq<Obs>, thr: Mag): nat {
    if log == [] then 0 else ZeroCount(log[..|log| - 1], thr) + if Less(thr, log[|log| - 1].mag) then 0 else 1
  }

  function Plus(b: Buckets, k: int, n: int): Buckets { b[k := Get(b, k) + n] }

  /** The sparse buckets of one sign that the observations fall in. */
  function Bucketed(t: Table, log: seq<Obs>, schema: int, thr: Mag, negative: bool): Buckets
    requires |t| == 9 && -4 <= schema <= 8
  {
    if log == [] then map[]
    else
      var o := log[|log| - 1];
      var rest := Bucketed(t, log[..|log| - 1], schema, thr, negative);
      if o.negative == negative && Less(thr, o.mag) then Plus(rest, KeyOf(t, o, schema), 1) else rest
  }

  lemma BucketedAppend(t: Table, log: seq<Obs>, o: Obs, schema: int, thr: Mag, negative: bool)
    requires |t| == 9 && -4 <= schema <= 8
    ensures Bucketed(t, log + [o], schema, thr, negative) ==
      if o.negative == negative && Less(thr, o.mag) then Plus(Bucketed(t, log, schema, thr, negative), KeyOf(t, o, schema), 1)
      else Bucketed(t, log, schema, thr, negative)
    ensures ZeroCount(log + [o], thr) == ZeroCount(log, thr) + if Less(thr, o.mag) then 0 else 1
  {
    assert (log + [o])[..|log|] == log;
  }

  ghost predicate AllProper(log: seq<Obs>) { forall i :: 0 <= i < |log| ==> Proper(log[i]) }

  lemma BucketsFilled(t: Table, log: seq<Obs>, schema: int, thr: Mag, negative: bool)
    requires |t| == 9 && -4 <= schema <= 8
    ensures forall k <- Bucketed(t, log, schema, thr, negative) :: Bucketed(t, log, schema, thr, negative)[k] > 0
  {
    if log != [] { BucketsFilled(t, log[..|log| - 1], schema, thr, negative); }
  }

  // ---------------------------------------------------------------- halving

  /** h is b with every pair of adjacent buckets merged. */
  ghost predicate IsHalved(h: Buckets, b: Buckets) { forall k :: HalvedAt(h, b, k) }

  ghost predicate HalvedAt(h: Buckets, b: Buckets, k: int) {
    (k in h <==> 2 * k - 1 in b || 2 * k in b) && Get(h, k) == Get(b, 2 * k - 1) + Get(b, 2 * k)
  }

  lemma PlusHalvedAt(b: Buckets, h: Buckets, k: int, half: int, n: int, j: int)
    requires HalvedAt(h, b, j) && (k == 2 * half - 1 || k == 2 * half)
    ensures HalvedAt(Plus(h, half, n), Plus(b, k, n), j)
  {
  }

  lemma PlusHalved(b: Buckets, h: Buckets, k: int, n: int)
    requires IsHalved(h, b)
    ensures IsHalved(Plus(h, Halve(k), n), Plus(b, k, n))
  {
    HalveIs(k, Halve(k));
    forall j ensures HalvedAt(Plus(h, Halve(k), n), Plus(b, k, n), j) {
      assert HalvedAt(h, b, j);
      PlusHalvedAt(b, h, k, Halve(k), n, j);
    }
  }

  lemma KeyOfHalves(t: Table, o: Obs, schema: int)
    requires Ok(t) && -4 < schema <= 8 && Proper(o) && o.mag.Mag?
    ensures Halve(KeyOf(t, o, schema)) == KeyOf(t, o, schema - 1)
  {
    if o.infinite { InfiniteKeyHalves(t, schema); } else { KeyHalves(t, o.mag, schema); }
  }

  /** Bucketing at the next lower schema is halving. */
  lemma BucketedHalves(t: Table, log: seq<Obs>, schema: int, thr: Mag, negative: bool)
    requires Ok(t) && -4 < schema <= 8 && AllProper(log)
    ensures IsHalved(Bucketed(t, log, schema - 1, thr, negative), Bucketed(t, log, schema, thr, negative))
  {
    if log != [] {
      var o := log[|log| - 1];
      BucketedHalves(t, log[..|log| - 1], schema, thr, negative);
      if Less(thr, o.mag) && o.negative == negative {
        KeyOfHalves(t, o, schema);
        PlusHalved(Bucketed(t, log[..|log| - 1], schema, thr, negative), Bucketed(t, log[..|log| - 1], schema - 1, thr, negative),
                   KeyOf(t, o, schema), 1);
      }
    }
  }

  // ---------------------------------------------------------------- widening

  /** Every key in use is at least least, which one bucket of either sign has. */
  ghost predicate Least(pos: Buckets, neg: Buckets, least: int) {
    (least in pos || least in neg) && (forall k <- pos :: least <= k) && (forall k <- neg :: least <= k)
  }

  function Without(b: Buckets, k: int): Buckets { b - {k} }

  /** An observation in bucket least or above is at most at the new threshold
      exactly if its bucket is least. */
  lemma WidenedObs(t: Table, o: Obs, schema: int, least: int)
    requires Ok(t) && Proper(o) && o.mag.Mag? && -4 <= schema <= 8
    requires least <= KeyOf(t, o, schema) && Less(Le(t, least, schema), MAX)
    ensures Less(Le(t, least, schema), o.mag) <==> KeyOf(t, o, schema) != least
  {
    KeyBounds(t, o.mag, schema);
    var k := Key(t, o.mag, schema);
    if o.infinite {
      if least == k + 1 { LeGrows(t, k, k + 1, schema); KeyBounds(t, MAX, schema); }
    } else if least < k {
      LeGrows(t, least, k - 1, schema);
    }
  }

  /** No bucket in use is below least. */
  ghost predicate AllFrom(b: Buckets, least: int) { forall k <- b :: least <= k }

  lemma PrefixFrom(t: Table, log: seq<Obs>, schema: int, thr: Mag, least: int, negative: bool)
    requires |t| == 9 && -4 <= schema <= 8 && log != []
    requires AllFrom(Bucketed(t, log, schema, thr, negative), least)
    ensures AllFrom(Bucketed(t, log[..|log| - 1], schema, thr, negative), least)
    ensures var o := log[|log| - 1]; Less(thr, o.mag) && o.negative == negative ==> least <= KeyOf(t, o, schema)
  {
    var b, rest := Bucketed(t, log, schema, thr, negative), Bucketed(t, log[..|log| - 1], schema, thr, negative);
    assert forall k <- rest :: k in b;
    var o := log[|log| - 1];
    if Less(thr, o.mag) && o.negative == negative { assert KeyOf(t, o, schema) in b; }
  }

  lemma LessChains(a: Mag, b: Mag, c: Mag)
    requires !Less(b, a) && Less(b, c)
    ensures Less(a, c)
  {
  }

  lemma PlusWithout(b: Buckets, k: int, least: int)
    ensures Without(Plus(b, k, 1), least) == if k == least then Without(b, least) else Plus(Without(b, least), k, 1)
  {
  }

  /** Bucketing at the wider threshold is dropping the bucket nearest to zero. */
  lemma BucketedWidens(t: Table, log: seq<Obs>, schema: int, thr: Mag, least: int, negative: bool)
    requires Ok(t) && AllProper(log) && -4 <= schema <= 8 && Less(Le(t, least, schema), MAX)
    requires !Less(Le(t, least, schema), thr)
    requires AllFrom(Bucketed(t, log, schema, thr, negative), least)
    ensures Bucketed(t, log, schema, Le(t, least, schema), negative) == Without(Bucketed(t, log, schema, thr, negative), least)
  {
    if log != [] {
      var o := log[|log| - 1];
      var wider := Le(t, least, schema);
      PrefixFrom(t, log, schema, thr, least, negative);
      BucketedWidens(t, log[..|log| - 1], schema, thr, least, negative);
      if o.negative == negative {
        if Less(thr, o.mag) {
          WidenedObs(t, o, schema, least);
          PlusWithout(Bucketed(t, log[..|log| - 1], schema, thr, negative), KeyOf(t, o, schema), least);
        } else if Less(wider, o.mag) {
          LessChains(thr, wider, o.mag);
        }
      }
    }
  }

  lemma ZeroWidens(t: Table, log: seq<Obs>, schema: int, thr: Mag, least: int)
    requires Ok(t) && AllProper(log) && -4 <= schema <= 8 && Less(Le(t, least, schema), MAX)
    requires !Less(Le(t, least, schema), thr)
    requires AllFrom(Bucketed(t, log, schema, thr, false), least) && AllFrom(Bucketed(t, log, schema, thr, true), least)
    ensures ZeroCount(log, Le(t, least, schema)) ==
      ZeroCount(log, thr) + Get(Bucketed(t, log, schema, thr, false), least) + Get(Bucketed(t, log, schema, thr, true), least)
  {
    if log != [] {
      var o := log[|log| - 1];
      PrefixFrom(t, log, schema, thr, least, false);
      PrefixFrom(t, log, schema, thr, least, true);
      ZeroWidens(t, log[..|log| - 1], schema, thr, least);
      if Less(thr, o.mag) {
        WidenedObs(t, o, schema, least);
      } else if Less(Le(t, least, schema), o.mag) {
        LessChains(thr, Le(t, least, schema), o.mag);
      }
    }
  }

  /** The new threshold is not below the old one. */
  lemma ThresholdGrows(t: Table, log: seq<Obs>, schema: int, thr: Mag, least: int, negative: bool)
    requires Ok(t) && AllProper(log) && -4 <= schema <= 8 && least in Bucketed(t, log, schema, thr, negative)
    requires Less(Le(t, least, schema), MAX)
    ensures Less(thr, Le(t, least, schema))
  {
    var o := log[|log| - 1];
    if o.negative == negative && Less(thr, o.mag) && KeyOf(t, o, schema) == least {
      WidenedObs(t, o, schema, least);
    } else {
      ThresholdGrows(t, log[..|log| - 1], schema, thr, least, negative);
    }
  }

  // ---------------------------------------------------------------- ranging over the buckets

  const MAX_INT32: int := 2147483647

  predicate SameAt(a: Buckets, b: Buckets, k: int) { (k in a <==> k in b) && Get(a, k) == Get(b, k) }

  lemma SameBuckets(a: Buckets, b: Buckets)
    requires forall k :: SameAt(a, b, k)
    ensures a == b
  {
    forall k: int ensures k in a <==> k in b { assert SameAt(a, b, k); }
    forall k: int | k in a ensures a[k] == b[k] { assert SameAt(a, b, k); }
    SameMap(a, b);
  }

  /** addToBucket. */
  method AddToBucket(b: Buckets, key: int, n: int) returns (b': Buckets, created: bool)
    ensures b' == Plus(b, key, n) && (created <==> key !in b)
    ensures |b'| == |b| + if created then 1 else 0
  {
    if key in b {
      return b[key := b[key] + n], false;
    }
    return b[key := n], true;
  }

  method FindSmallestKey(b: Buckets) returns (least: int)
    requires forall k <- b :: k < MAX_INT32
    ensures b == map[] ==> least == MAX_INT32
    ensures b != map[] ==> least in b && forall k <- b :: least <= k
  {
    least := MAX_INT32;
    var todo := b.Keys;
    while todo != {}
      decreases |todo|
      invariant todo <= b.Keys
      invariant (least == MAX_INT32 && todo == b.Keys) || least in b
      invariant forall k <- b :: k in todo || least <= k
    {
      var k := AnyOf(todo);
      if k < least { least := k; }
      todo := todo - {k};
    }
  }

  /** Hot has taken over from cold what is not in todo. */
  predicate MovedAt(hot0: Buckets, cold0: Buckets, hot: Buckets, cold: Buckets, todo: set<int>, k: int) {
    (k in cold <==> k in cold0) &&
    (k in todo ==> SameAt(hot, hot0, k) && SameAt(cold, cold0, k)) &&
    (k !in todo ==> SameAt(hot, cold0, k) && Get(cold, k) == 0)
  }

  /** Every hot bucket is a cold one as well, and empty. */
  ghost predicate Drained(hot: Buckets, cold: Buckets) { forall k <- hot :: k in cold && hot[k] == 0 }

  ghost predicate Emptied(b: Buckets, keys: set<int>) { b.Keys == keys && forall k <- b :: b[k] == 0 }

  lemma EmptiedAt(b: Buckets, c: Buckets)
    requires forall k :: (k in b <==> k in c) && Get(b, k) == 0
    ensures Emptied(b, c.Keys)
  {
    forall k: int ensures k in b.Keys <==> k in c.Keys { assert (k in b <==> k in c) && Get(b, k) == 0; }
    forall k: int | k in b ensures b[k] == 0 { assert Get(b, k) == 0; }
    SameSet(b.Keys, c.Keys);
  }

  /** addAndReset over all the cold buckets of one sign: the hot ones take their
      counts, and they stay, at zero. */
  method AddAndReset(hot: Buckets, cold: Buckets) returns (hot': Buckets, cold': Buckets, created: nat)
    requires Drained(hot, cold)
    ensures hot' == cold && Emptied(cold', cold.Keys)
    ensures created == |hot'| - |hot| && Drained(cold', hot') && |cold'| == |hot'|
  {
    hot', cold', created := hot, cold, 0;
    var todo := cold.Keys;
    while todo != {}
      decreases |todo|
      invariant todo <= cold.Keys
      invariant forall k :: MovedAt(hot, cold, hot', cold', todo, k)
      invariant created == |hot'| - |hot|
    {
      var k := AnyOf(todo);
      var isNew;
      assert MovedAt(hot, cold, hot', cold', todo, k);
      ghost var hot1, cold1, todo1 := hot', cold', todo;
      hot', isNew := AddToBucket(hot', k, cold[k]);
      if isNew { created := created + 1; }
      cold' := cold'[k := 0];
      todo := todo - {k};
      forall j ensures MovedAt(hot, cold, hot', cold', todo, j) {
        assert MovedAt(hot, cold, hot1, cold1, todo1, j);
      }
    }
    forall k ensures SameAt(hot', cold, k) { assert MovedAt(hot, cold, hot', cold', todo, k); }
    SameBuckets(hot', cold);
    forall k ensures (k in cold' <==> k in cold) && Get(cold', k) == 0 { assert MovedAt(hot, cold, hot', cold', todo, k); }
    EmptiedAt(cold', cold);
    SameSize(cold', cold);
  }

  lemma SameSize<K>(a: map<K, int>, b: map<K, int>)
    requires a.Keys == b.Keys
    ensures |a| == |b|
  {
    assert |a| == |a.Keys| && |b| == |b.Keys|;
  }

  /** The buckets of cold that are no longer in todo. */
  predicate DoneAt(done: Buckets, cold: Buckets, todo: set<int>, k: int) {
    if k in todo then k !in done else SameAt(done, cold, k)
  }

  /** doubleBucketWidth's merge over all the cold buckets of one sign. */
  method MergeHalved(cold: Buckets) returns (hot: Buckets, created: nat)
    ensures IsHalved(hot, cold) && created == |hot|
  {
    hot, created := map[], 0;
    var todo := cold.Keys;
    ghost var done: Buckets := map[];
    while todo != {}
      decreases |todo|
      invariant todo <= cold.Keys
      invariant forall k :: DoneAt(done, cold, todo, k)
      invariant IsHalved(hot, done) && created == |hot|
    {
      var k := AnyOf(todo);
      var isNew;
      PlusHalved(done, hot, k, cold[k]);
      assert DoneAt(done, cold, todo, k);
      ghost var done1, todo1 := done, todo;
      hot, isNew := AddToBucket(hot, Halve(k), cold[k]);
      if isNew { created := created + 1; }
      done := Plus(done, k, cold[k]);
      todo := todo - {k};
      forall j ensures DoneAt(done, cold, todo, j) { assert DoneAt(done1, cold, todo1, j); }
    }
    forall k ensures SameAt(done, cold, k) { assert DoneAt(done, cold, todo, k); }
    SameBuckets(done, cold);
  }

  /** MovedAt, with bucket least going elsewhere. */
  predicate WidenedAt(hot0: Buckets, cold0: Buckets, hot: Buckets, cold: Buckets, todo: set<int>, least: int, k: int) {
    if k == least then k !in hot && (if k in todo then SameAt(cold, cold0, k) else k !in cold)
    else MovedAt(hot0, cold0, hot, cold, todo, k)
  }

  ghost predicate Widened(hot0: Buckets, cold0: Buckets, hot: Buckets, cold: Buckets, todo: set<int>, least: int) {
    forall k :: WidenedAt(hot0, cold0, hot, cold, todo, least, k)
  }

  lemma DeleteKeeps(hot0: Buckets, cold0: Buckets, hot: Buckets, cold: Buckets, todo: set<int>, least: int)
    requires Widened(hot0, cold0, hot, cold, todo, least) && least in todo
    ensures Widened(hot0, cold0, hot, cold - {least}, todo - {least}, least)
  {
    var cold', todo' := cold - {least}, todo - {least};
    forall j ensures WidenedAt(hot0, cold0, hot, cold', todo', least, j) {
      assert WidenedAt(hot0, cold0, hot, cold, todo, least, j);
    }
  }

  lemma MoveKeeps(hot0: Buckets, cold0: Buckets, hot: Buckets, cold: Buckets, todo: set<int>, least: int, k: int)
    requires Widened(hot0, cold0, hot, cold, todo, least) && Drained(hot0, cold0)
    requires k in todo && k != least && todo <= cold0.Keys
    ensures k in cold && Widened(hot0, cold0, Plus(hot, k, cold0[k]), cold[k := 0], todo - {k}, least)
  {
    assert WidenedAt(hot0, cold0, hot, cold, todo, least, k);
    var hot', cold', todo' := Plus(hot, k, cold0[k]), cold[k := 0], todo - {k};
    forall j ensures WidenedAt(hot0, cold0, hot', cold', todo', least, j) {
      assert WidenedAt(hot0, cold0, hot, cold, todo, least, j);
    }
  }

  lemma WidenedDone(hot0: Buckets, cold0: Buckets, hot: Buckets, cold: Buckets, least: int)
    requires Widened(hot0, cold0, hot, cold, {}, least)
    ensures hot == Without(cold0, least) && Emptied(cold, Without(cold0, least).Keys)
  {
    forall k ensures SameAt(hot, Without(cold0, least), k) { assert WidenedAt(hot0, cold0, hot, cold, {}, least, k); }
    SameBuckets(hot, Without(cold0, least));
    forall k ensures (k in cold <==> k in Without(cold0, least)) && Get(cold, k) == 0 {
      assert WidenedAt(hot0, cold0, hot, cold, {}, least, k);
    }
    EmptiedAt(cold, Without(cold0, least));
  }

  /** maybeWidenZeroBucket's merge over all the cold buckets of one sign: bucket
      least goes to the zero bucket, the others to the hot ones. */
  method MergeAndDelete(hot: Buckets, cold: Buckets, least: int)
    returns (hot': Buckets, cold': Buckets, zero: int, created: nat, deleted: nat)
    requires least !in hot && Drained(hot, cold)
    ensures hot' == Without(cold, least) && zero == Get(cold, least)
    ensures Emptied(cold', Without(cold, least).Keys)
    ensures created == |hot'| - |hot| && deleted == |cold| - |cold'|
  {
    hot', cold', zero, created, deleted := hot, cold, 0, 0, 0;
    var todo := cold.Keys;
    while todo != {}
      decreases |todo|
      invariant todo <= cold.Keys
      invariant Widened(hot, cold, hot', cold', todo, least)
      invariant zero == if least in todo then 0 else Get(cold, least)
      invariant created == |hot'| - |hot| && deleted == |cold| - |cold'|
    {
      var k := AnyOf(todo);
      assert WidenedAt(hot, cold, hot', cold', todo, least, k);
      if k == least {
        DeleteKeeps(hot, cold, hot', cold', todo, least);
        zero := zero + cold[k];
        cold' := cold' - {k};
        deleted := deleted + 1;
      } else {
        MoveKeeps(hot, cold, hot', cold', todo, least, k);
        var isNew;
        hot', isNew := AddToBucket(hot', k, cold[k]);
        if isNew { created := created + 1; }
        cold' := cold'[k := 0];
      }
      todo := todo - {k};
    }
    WidenedDone(hot, cold, hot', cold', least);
  }

  // ---------------------------------------------------------------- what the strategies keep

  lemma HalvedUnique(h: Buckets, h': Buckets, b: Buckets)
    requires IsHalved(h, b) && IsHalved(h', b)
    ensures h == h'
  {
    forall k ensures SameAt(h, h', k) { assert HalvedAt(h, b, k) && HalvedAt(h', b, k); }
    SameBuckets(h, h');
  }

  /** Every key fits an int32, so that Write can encode it. */
  ghost predicate Small(b: Buckets) { forall k <- b :: -1074 * 256 <= k <= 1024 * 256 + 1 }

  lemma BucketedSmall(t: Table, log: seq<Obs>, schema: int, thr: Mag, negative: bool)
    requires Ok(t) && AllProper(log) && -4 <= schema <= 8
    ensures Small(Bucketed(t, log, schema, thr, negative))
  {
    if log != [] {
      var o := log[|log| - 1];
      BucketedSmall(t, log[..|log| - 1], schema, thr, negative);
      if Less(thr, o.mag) { KeyIsSmall(t, o.mag, schema); }
    }
  }

  lemma SmallFits(b: Buckets)
    requires Small(b)
    ensures Fits(b)
  {
    forall k: int | k in b ensures KeyFits(b, k) {
      if j: int :| j in b && j < k { assert k <= j + 0x8000_0000; }
    }
  }

  lemma SmallHasNoSentinel(b: Buckets)
    requires Small(b)
    ensures forall k <- b :: k < MAX_INT32
  {
  }

  /** Widening the zero bucket to the bound of bucket least, the nearest one. */
  lemma Widening(t: Table, log: seq<Obs>, schema: int, thr: Mag, least: int)
    requires Ok(t) && AllProper(log) && -4 <= schema <= 8 && Less(Le(t, least, schema), MAX)
    requires Least(Bucketed(t, log, schema, thr, false), Bucketed(t, log, schema, thr, true), least)
    ensures var wider := Le(t, least, schema); var pos, neg := Bucketed(t, log, schema, thr, false), Bucketed(t, log, schema, thr, true);
      && Less(thr, wider)
      && Bucketed(t, log, schema, wider, false) == Without(pos, least) && Bucketed(t, log, schema, wider, true) == Without(neg, least)
      && ZeroCount(log, wider) == ZeroCount(log, thr) + Get(pos, least) + Get(neg, least)
  {
    if least in Bucketed(t, log, schema, thr, false) {
      ThresholdGrows(t, log, schema, thr, least, false);
    } else {
      ThresholdGrows(t, log, schema, thr, least, true);
    }
    BucketedWidens(t, log, schema, thr, least, false);
    BucketedWidens(t, log, schema, thr, least, true);
    ZeroWidens(t, log, schema, thr, least);
  }

  /** Why the limit of the zero threshold has to be below MaxFloat64: at that
      threshold the last bucket goes, but the one of infinite observations stays,
      where bucketing afresh has none. */
  lemma WideningIff(t: Table, log: seq<Obs>, schema: int, thr: Mag, least: int, negative: bool)
    requires Ok(t) && AllProper(log) && -4 <= schema <= 8 && !Less(Le(t, least, schema), thr)
    requires AllFrom(Bucketed(t, log, schema, thr, negative), least)
    ensures Bucketed(t, log, schema, Le(t, least, schema), negative) == Without(Bucketed(t, log, schema, thr, negative), least)
      <==> (Less(Le(t, least, schema), MAX) || forall k <- Bucketed(t, log, schema, thr, negative) :: k == least)
  {
    var b := Bucketed(t, log, schema, thr, negative);
    if Less(Le(t, least, schema), MAX) {
      BucketedWidens(t, log, schema, thr, least, negative);
    } else {
      NothingAboveMax(t, log, schema, Le(t, least, schema), negative);
      forall k: int ensures k in Without(b, least) <==> k in b && k != least {}
      if forall k <- b :: k == least {
        forall k ensures SameAt(Without(b, least), map[], k) {}
        SameBuckets(Without(b, least), map[]);
      }
    }
  }

  /** Such as for MaxFloat64 and infinity, one observation of each, at schema 0. */
  lemma WideningToMaxLoses(t: Table)
    requires Ok(t)
    ensures var log := [Obs(false, MAX, false), Obs(false, MAX, true)];
      var b := Bucketed(t, log, 0, Nil, false);
      AllProper(log) && AllFrom(b, 1024) && Le(t, 1024, 0) == MAX && Bucketed(t, log, 0, MAX, false) != Without(b, 1024)
  {
    var o, inf := Obs(false, MAX, false), Obs(false, MAX, true);
    var log := [o, inf];
    MaxKey(t, 0);
    Pow2Values();
    assert KeyOf(t, o, 0) == 1024 && KeyOf(t, inf, 0) == 1025;
    BucketedAppend(t, [], o, 0, Nil, false);
    BucketedAppend(t, [o], inf, 0, Nil, false);
    assert [] + [o] == [o] && [o] + [inf] == log;
    var b := Bucketed(t, log, 0, Nil, false);
    assert b == map[1024 := 1, 1025 := 1];
    assert Row(t[0], 0);
    assert 1025 in Without(b, 1024);
    NothingAboveMax(t, log, 0, MAX, false);
  }

  lemma {:induction false} NothingAboveMax(t: Table, log: seq<Obs>, schema: int, thr: Mag, negative: bool)
    requires |t| == 9 && AllProper(log) && -4 <= schema <= 8 && !Less(thr, MAX)
    ensures Bucketed(t, log, schema, thr, negative) == map[]
  {
    if log != [] { NothingAboveMax(t, log[..|log| - 1], schema, thr, negative); }
  }

  /** Merging pairs of buckets leads to the next lower schema. */
  lemma Halving(t: Table, log: seq<Obs>, schema: int, thr: Mag)
    requires Ok(t) && AllProper(log) && -4 < schema <= 8
    ensures IsHalved(Bucketed(t, log, schema - 1, thr, false), Bucketed(t, log, schema, thr, false))
    ensures IsHalved(Bucketed(t, log, schema - 1, thr, true), Bucketed(t, log, schema, thr, true))
  {
    BucketedHalves(t, log, schema, thr, false);
    BucketedHalves(t, log, schema, thr, true);
  }

  lemma BucketsOnlyGrow(t: Table, log: seq<Obs>, o: Obs, schema: int, thr: Mag, negative: bool)
    requires |t| == 9 && -4 <= schema <= 8
    ensures forall cold :: Drained(cold, Bucketed(t, log, schema, thr, negative)) ==>
      Drained(cold, Bucketed(t, log + [o], schema, thr, negative))
  {
    BucketedAppend(t, log, o, schema, thr, negative);
  }

  // ---------------------------------------------------------------- the histogram

  /** What is compared with the limit: the number of sparse buckets. */
  function Size(t: Table, log: seq<Obs>, schema: int, thr: Mag): nat
    requires |t| == 9 && -4 <= schema <= 8
  {
    |Bucketed(t, log, schema, thr, false)| + |Bucketed(t, log, schema, thr, true)|
  }

  /** histogramCounts, as far as native histograms go. */
  class Counts {
    var zero: int
    var thr: Mag
    var schema: int
    var pos: Buckets
    var neg: Buckets
    var number: int

    constructor (schema: int, thr: Mag)
      ensures this.schema == schema && this.thr == thr && Empty()
    {
      this.schema, this.thr, zero, pos, neg, number := schema, thr, 0, map[], map[], 0;
    }

    ghost predicate Empty() reads this { zero == 0 && pos == map[] && neg == map[] && number == 0 }

    /** These are the observations of log, bucketed afresh. */
    ghost predicate Holds(t: Table, log: seq<Obs>)
      reads this
      requires |t| == 9 && -4 <= schema <= 8
    {
      && zero == ZeroCount(log, thr)
      && pos == Bucketed(t, log, schema, thr, false) && neg == Bucketed(t, log, schema, thr, true)
      && number == |pos| + |neg|
    }

    /** The native part of histogramCounts.observe. */
    method Observe(t: Table, ghost log: seq<Obs>, o: Obs)
      requires |t| == 9 && -4 <= schema <= 8 && Proper(o) && Holds(t, log)
      modifies this
      ensures schema == old(schema) && thr == old(thr)
      ensures Holds(t, log + [o])
    {
      BucketedAppend(t, log, o, schema, thr, false);
      BucketedAppend(t, log, o, schema, thr, true);
      var created := false;
      if Less(thr, o.mag) {
        var key := Key(t, o.mag, schema);
        if o.infinite { key := key + 1; }
        if o.negative {
          neg, created := AddToBucket(neg, key, 1);
        } else {
          pos, created := AddToBucket(pos, key, 1);
        }
      } else {
        zero := zero + 1;
      }
      if created { number := number + 1; }
    }

    /** resetCounts. */
    method Reset(schema: int, thr: Mag)
      modifies this
      ensures this.schema == schema && this.thr == thr && Empty()
    {
      zero, this.thr, this.schema, number, neg, pos := 0, thr, schema, 0, map[], map[];
    }
  }

  /** What Write exposes. */
  datatype Exposed = Exposed(schema: int, thr: Mag, zero: int,
                             posSpans: seq<Span>, posDeltas: seq<int>, negSpans: seq<Span>, negDeltas: seq<int>)

  datatype Value = NaN | Number(obs: Obs)

  class Histogram {
    const table: Table
    const schema0: int
    const thr0: Mag
    const maxThr: Mag
    const maxBuckets: nat
    const minReset: nat

    var hot: Counts
    var cold: Counts
    var lastReset: int
    var scheduled: bool
    /** The observations since the last reset. */
    ghost var log: seq<Obs>

    ghost predicate Valid()
      reads this, hot, cold
    {
      && Ok(table) && -4 <= schema0 <= 8 && Less(maxThr, MAX)
      && hot != cold && AllProper(log)
      && -4 <= hot.schema <= 8 && hot.Holds(table, log)
      && Spare()
    }

    /** The cold counts are empty, and ready to take over. */
    ghost predicate Spare()
      reads this, hot, cold
    {
      && cold.schema == hot.schema && cold.thr == hot.thr && cold.zero == 0
      && Drained(cold.pos, hot.pos) && Drained(cold.neg, hot.neg)
      && cold.number == |cold.pos| + |cold.neg|
    }

    constructor (table: Table, schema0: int, thr0: Mag, maxThr: Mag, maxBuckets: nat, minReset: nat, now: int)
      requires Ok(table) && -4 <= schema0 <= 8 && Less(maxThr, MAX)
      ensures Valid() && log == [] && !scheduled && lastReset == now && hot.schema == schema0 && hot.thr == thr0
      ensures fresh(hot) && fresh(cold)
    {
      this.table, this.schema0, this.thr0 := table, schema0, thr0;
      this.maxThr, this.maxBuckets, this.minReset := maxThr, maxBuckets, minReset;
      hot := new Counts(schema0, thr0);
      cold := new Counts(schema0, thr0);
      lastReset, scheduled, log := now, false, [];
    }

    /** Write: the exposed buckets are those of all the observations since the last
        reset, bucketed afresh. */
    method Write() returns (out: Exposed)
      requires Valid()
      modifies this, hot, cold
      ensures Valid() && log == old(log) && {hot, cold} == old({hot, cold})
      ensures scheduled == old(scheduled) && lastReset == old(lastReset)
      ensures out.schema == hot.schema == old(hot.schema) && out.thr == hot.thr == old(hot.thr)
      ensures out.zero == ZeroCount(log, out.thr)
      ensures Exposes(out.posSpans, out.posDeltas, Bucketed(table, log, out.schema, out.thr, false))
      ensures Exposes(out.negSpans, out.negDeltas, Bucketed(table, log, out.schema, out.thr, true))
    {
      hot, cold := cold, hot;
      out := Expose(cold);
      AddAndResetCounts();
      MoveBuckets();
    }

    method Expose(counts: Counts) returns (out: Exposed)
      requires Ok(table) && AllProper(log) && -4 <= counts.schema <= 8 && counts.Holds(table, log)
      ensures out.schema == counts.schema && out.thr == counts.thr && out.zero == counts.zero
      ensures Exposes(out.posSpans, out.posDeltas, counts.pos)
      ensures Exposes(out.negSpans, out.negDeltas, counts.neg)
    {
      BucketedSmall(table, log, counts.schema, counts.thr, false);
      BucketedSmall(table, log, counts.schema, counts.thr, true);
      SmallFits(counts.pos);
      SmallFits(counts.neg);
      var negSpans, negDeltas := MakeBuckets(counts.neg);
      var posSpans, posDeltas := MakeBuckets(counts.pos);
      if counts.thr == Nil && counts.zero == 0 && posSpans == [] && negSpans == [] {
        NewSpan([], 0);
        posSpans := [] + [Span(0, 0)];
      }
      out := Exposed(counts.schema, counts.thr, counts.zero, posSpans, posDeltas, negSpans, negDeltas);
    }

    /** Write's last step: the cold buckets go to the hot counts. */
    method MoveBuckets()
      requires hot != cold && Drained(hot.pos, cold.pos) && Drained(hot.neg, cold.neg)
      modifies hot`pos, hot`neg, hot`number, cold`pos, cold`neg
      ensures hot.pos == old(cold.pos) && hot.neg == old(cold.neg)
      ensures Drained(cold.pos, hot.pos) && Drained(cold.neg, hot.neg)
      ensures |cold.pos| == |hot.pos| && |cold.neg| == |hot.neg|
      ensures hot.number == old(hot.number) + |hot.pos| + |hot.neg| - old(|hot.pos| + |hot.neg|)
    {
      var created;
      hot.pos, cold.pos, created := AddAndReset(hot.pos, cold.pos);
      hot.number := hot.number + created;
      hot.neg, cold.neg, created := AddAndReset(hot.neg, cold.neg);
      hot.number := hot.number + created;
    }

    /** addAndResetCounts; the classic part is modelled elsewhere. */
    method AddAndResetCounts()
      requires hot != cold
      modifies hot`zero, cold`zero
      ensures hot.zero == old(hot.zero + cold.zero) && cold.zero == 0
    {
      hot.zero := hot.zero + cold.zero;
      cold.zero := 0;
    }

    /** Too many sparse buckets. */
    predicate Exceeded()
      reads this, hot
    {
      maxBuckets != 0 && maxBuckets < hot.number
    }

    predicate ResetsAt(now: int)
      reads this
    {
      minReset != 0 && !scheduled && now - lastReset >= minReset
    }

    /** maybeReset, with o the observation that exceeded the limit. */
    method MaybeReset(o: Obs, now: int) returns (done: bool)
      requires Valid() && Proper(o)
      modifies this, hot, cold
      ensures done == old(ResetsAt(now))
      ensures Valid() && {hot, cold} == old({hot, cold}) && scheduled == old(scheduled)
      ensures done ==> log == [o] && lastReset == now && hot.schema == schema0 && hot.thr == thr0
      ensures !done ==> unchanged(this) && unchanged(hot) && unchanged(cold)
    {
      if !ResetsAt(now) { return false; }
      cold.Reset(schema0, thr0);
      cold.Observe(table, [], o);
      hot, cold := cold, hot;
      cold.Reset(schema0, thr0);
      lastReset, log := now, [o];
      assert [] + [o] == [o];
      return true;
    }

    /** reset, which the timer calls. */
    method Reset(now: int)
      requires Valid()
      modifies this, hot, cold
      ensures Valid() && {hot, cold} == old({hot, cold})
      ensures log == [] && lastReset == now && !scheduled && hot.schema == schema0 && hot.thr == thr0
      ensures hot.zero == 0 && hot.pos == map[] && hot.neg == map[]
    {
      cold.Reset(schema0, thr0);
      hot, cold := cold, hot;
      cold.Reset(schema0, thr0);
      lastReset, scheduled, log := now, false, [];
    }

    /** The zero bucket can take in least, the bucket nearest to zero. */
    ghost predicate Widens(schema: int, thr: Mag, least: int)
      reads this`log
      requires Ok(table) && -4 <= schema <= 8
    {
      && Less(thr, maxThr) && !Less(maxThr, Le(table, least, schema))
      && Least(Bucketed(table, log, schema, thr, false), Bucketed(table, log, schema, thr, true), least)
    }

    /** The key of the bucket closest to zero. */
    method SmallestKey() returns (least: int)
      requires Valid()
      ensures least != MAX_INT32 ==> Least(hot.pos, hot.neg, least)
      ensures least == MAX_INT32 ==> hot.pos == map[] && hot.neg == map[]
    {
      BucketedSmall(table, log, hot.schema, hot.thr, false);
      BucketedSmall(table, log, hot.schema, hot.thr, true);
      SmallHasNoSentinel(hot.pos);
      SmallHasNoSentinel(hot.neg);
      least := FindSmallestKey(hot.pos);
      var leastNegative := FindSmallestKey(hot.neg);
      if leastNegative < least { least := leastNegative; }
    }

    /** Bucket least leaves the cold counts. */
    method DropCold(least: int)
      requires cold.number == |cold.pos| + |cold.neg|
      modifies cold`pos, cold`neg, cold`number
      ensures cold.pos == Without(old(cold.pos), least) && cold.neg == Without(old(cold.neg), least)
      ensures cold.number == |cold.pos| + |cold.neg|
    {
      if least in cold.neg { cold.number := cold.number - 1; }
      cold.neg := cold.neg - {least};
      if least in cold.pos { cold.number := cold.number - 1; }
      cold.pos := cold.pos - {least};
    }

    /** mergeAndDeleteOrAddAndReset over both signs, once hot and cold are swapped. */
    method MergeWidened(least: int)
      requires hot != cold && Drained(hot.pos, cold.pos) && Drained(hot.neg, cold.neg) && least !in hot.pos && least !in hot.neg
      requires hot.number == |hot.pos| + |hot.neg| && cold.number == |cold.pos| + |cold.neg|
      modifies hot`zero, hot`pos, hot`neg, hot`number, cold`pos, cold`neg, cold`number
      ensures hot.pos == Without(old(cold.pos), least) && hot.neg == Without(old(cold.neg), least)
      ensures hot.zero == old(hot.zero + Get(cold.pos, least) + Get(cold.neg, least))
      ensures Drained(cold.pos, hot.pos) && Drained(cold.neg, hot.neg)
      ensures hot.number == |hot.pos| + |hot.neg| && cold.number == |cold.pos| + |cold.neg|
    {
      var zero, created, deleted;
      hot.pos, cold.pos, zero, created, deleted := MergeAndDelete(hot.pos, cold.pos, least);
      hot.zero, hot.number, cold.number := hot.zero + zero, hot.number + created, cold.number - deleted;
      hot.neg, cold.neg, zero, created, deleted := MergeAndDelete(hot.neg, cold.neg, least);
      hot.zero, hot.number, cold.number := hot.zero + zero, hot.number + created, cold.number - deleted;
    }

    /** maybeWidenZeroBucket. */
    method MaybeWidenZeroBucket() returns (done: bool)
      requires Valid()
      modifies this, hot, cold
      ensures Valid() && {hot, cold} == old({hot, cold}) && log == old(log)
      ensures scheduled == old(scheduled) && lastReset == old(lastReset)
      ensures done ==> exists least :: Widens(old(hot.schema), old(hot.thr), least) && hot.thr == Le(table, least, old(hot.schema))
      ensures done ==> hot.schema == old(hot.schema)
      ensures !done ==> unchanged(this) && unchanged(hot) && unchanged(cold)
      ensures !done ==> forall least :: !Widens(hot.schema, hot.thr, least)
    {
      if !Less(hot.thr, maxThr) { return false; }
      var least := SmallestKey();
      if least == MAX_INT32 { return false; }
      var wider := Le(table, least, hot.schema);
      if Less(maxThr, wider) { return false; }
      LessChains(wider, maxThr, MAX);
      Widening(table, log, hot.schema, hot.thr, least);
      Widen(least, wider);
      return true;
    }

    /** The new cold counts with the wider zero bucket take over. */
    method Widen(least: int, wider: Mag)
      requires hot != cold && Spare() && hot.number == |hot.pos| + |hot.neg|
      modifies this`hot, this`cold, hot, cold
      ensures hot == old(cold) && cold == old(hot) && Spare()
      ensures hot.schema == old(hot.schema) && hot.thr == wider
      ensures hot.pos == Without(old(hot.pos), least) && hot.neg == Without(old(hot.neg), least)
      ensures hot.zero == old(hot.zero + Get(hot.pos, least) + Get(hot.neg, least))
      ensures hot.number == |hot.pos| + |hot.neg|
    {
      SwapWider(least, wider);
      MergeWidened(least);
    }

    /** Up to the merging of the buckets. */
    method SwapWider(least: int, wider: Mag)
      requires hot != cold && cold.zero == 0 && cold.number == |cold.pos| + |cold.neg|
      modifies this`hot, this`cold, hot`zero, hot`thr, cold`zero, cold`thr, cold`pos, cold`neg, cold`number
      ensures hot == old(cold) && cold == old(hot) && hot.thr == cold.thr == wider
      ensures hot.pos == Without(old(cold.pos), least) && hot.neg == Without(old(cold.neg), least)
      ensures hot.zero == old(hot.zero) && cold.zero == 0 && hot.number == |hot.pos| + |hot.neg|
    {
      cold.thr := wider;
      DropCold(least);
      hot, cold := cold, hot;
      AddAndResetCounts();
      cold.thr := wider;
    }

    /** doubleBucketWidth. */
    method DoubleBucketWidth()
      requires Valid()
      modifies this, hot, cold
      ensures Valid() && {hot, cold} == old({hot, cold}) && log == old(log)
      ensures scheduled == old(scheduled) && lastReset == old(lastReset)
      ensures hot.thr == old(hot.thr) && hot.schema == if old(hot.schema) == -4 then -4 else old(hot.schema) - 1
    {
      if cold.schema == -4 { return; }
      Halving(table, log, hot.schema, hot.thr);
      Double();
      HalvedUnique(hot.pos, Bucketed(table, log, hot.schema, hot.thr, false), old(hot.pos));
      HalvedUnique(hot.neg, Bucketed(table, log, hot.schema, hot.thr, true), old(hot.neg));
    }

    /** The emptied cold counts with the wider buckets take over. */
    method Double()
      requires hot != cold && Spare()
      modifies this`hot, this`cold, hot, cold
      ensures hot == old(cold) && cold == old(hot) && Spare()
      ensures hot.schema == old(hot.schema) - 1 && hot.thr == old(hot.thr) && hot.zero == old(hot.zero)
      ensures IsHalved(hot.pos, old(hot.pos)) && IsHalved(hot.neg, old(hot.neg))
      ensures hot.number == |hot.pos| + |hot.neg|
    {
      var schema := cold.schema - 1;
      cold.schema, cold.number, cold.neg, cold.pos := schema, 0, map[], map[];
      hot, cold := cold, hot;
      AddAndResetCounts();
      cold.schema := schema;
      MergeDoubled();
    }

    /** The merge of both signs into the wider buckets. */
    method MergeDoubled()
      requires hot != cold && hot.pos == hot.neg == map[] && hot.number == 0
      modifies hot`pos, hot`neg, hot`number, cold`pos, cold`neg, cold`number
      ensures IsHalved(hot.pos, old(cold.pos)) && IsHalved(hot.neg, old(cold.neg)) && hot.number == |hot.pos| + |hot.neg|
      ensures cold.pos == cold.neg == map[] && cold.number == 0
    {
      var created;
      hot.pos, created := MergeHalved(cold.pos);
      hot.number := hot.number + created;
      hot.neg, created := MergeHalved(cold.neg);
      hot.number := hot.number + created;
      cold.number, cold.neg, cold.pos := 0, map[], map[];
    }

    /** What the strategies other than a reset turn schema and threshold into. */
    ghost predicate Coarsened(schema: int, thr: Mag)
      reads this, hot
      requires Ok(table) && -4 <= schema <= 8
    {
      if exists least :: Widens(schema, thr, least) then
        hot.schema == schema && exists least :: Widens(schema, thr, least) && hot.thr == Le(table, least, schema)
      else
        hot.thr == thr && hot.schema == if schema == -4 then -4 else schema - 1
    }

    /** limitBuckets: the first strategy that applies. */
    method LimitBuckets(o: Obs, now: int)
      requires Valid() && Proper(o)
      modifies this, hot, cold
      ensures Valid() && {hot, cold} == old({hot, cold})
      ensures !old(Exceeded()) ==> unchanged(this) && unchanged(hot) && unchanged(cold)
      ensures old(Exceeded() && ResetsAt(now)) ==>
        log == [o] && lastReset == now && !scheduled && hot.schema == schema0 && hot.thr == thr0
      ensures old(Exceeded() && !ResetsAt(now)) ==>
        log == old(log) && lastReset == old(lastReset) && scheduled == (old(scheduled) || minReset > 0) &&
        Coarsened(old(hot.schema), old(hot.thr))
    {
      if maxBuckets == 0 || maxBuckets >= hot.number { return; }
      var done := MaybeReset(o, now);
      if done { return; }
      if minReset > 0 && !scheduled { scheduled := true; }
      Coarsen();
    }

    method Coarsen()
      requires Valid()
      modifies this, hot, cold
      ensures Valid() && {hot, cold} == old({hot, cold}) && log == old(log)
      ensures scheduled == old(scheduled) && lastReset == old(lastReset)
      ensures Coarsened(old(hot.schema), old(hot.thr))
    {
      var done := MaybeWidenZeroBucket();
      if !done {
        assert forall least :: !Widens(old(hot.schema), old(hot.thr), least);
        DoubleBucketWidth();
        assert forall least :: !Widens(old(hot.schema), old(hot.thr), least);
      }
    }

    /** observe.  Only NaN stays out of the buckets. */
    method Observe(v: Value, now: int)
      requires Valid() && (v.Number? ==> Proper(v.obs))
      modifies this, hot, cold
      ensures Valid() && {hot, cold} == old({hot, cold})
      ensures v == NaN ==> unchanged(this) && unchanged(hot) && unchanged(cold)
      ensures v.Number? && !old(TooMany(v.obs)) ==>
        log == old(log) + [v.obs] && hot.schema == old(hot.schema) && hot.thr == old(hot.thr) &&
        scheduled == old(scheduled) && lastReset == old(lastReset)
      ensures v.Number? && old(TooMany(v.obs) && ResetsAt(now)) ==>
        log == [v.obs] && lastReset == now && !scheduled && hot.schema == schema0 && hot.thr == thr0
      ensures v.Number? && old(TooMany(v.obs) && !ResetsAt(now)) ==>
        log == old(log) + [v.obs] && lastReset == old(lastReset) && scheduled == (old(scheduled) || minReset > 0) &&
        Coarsened(old(hot.schema), old(hot.thr))
    {
      if v == NaN { return; }
      Count(v.obs);
      LimitBuckets(v.obs, now);
    }

    /** One more observation exceeds the limit. */
    ghost predicate TooMany(o: Obs)
      reads this, hot
      requires |table| == 9 && -4 <= hot.schema <= 8
    {
      maxBuckets != 0 && maxBuckets < Size(table, log + [o], hot.schema, hot.thr)
    }

    method Count(o: Obs)
      requires Valid() && Proper(o)
      modifies this`log, hot
      ensures Valid() && log == old(log) + [o] && hot.schema == old(hot.schema) && hot.thr == old(hot.thr)
      ensures Exceeded() == old(TooMany(o))
    {
      BucketsOnlyGrow(table, log, o, hot.schema, hot.thr, false);
      BucketsOnlyGrow(table, log, o, hot.schema, hot.thr, true);
      hot.Observe(table, log, o);
      log := log + [o];
    }
  }

  /** Spans and deltas that stand for the buckets of b, with zeros in between. */
  ghost predicate Exposes(spans: seq<Span>, deltas: seq<int>, b: Buckets) {
    |Positions(spans)| == |deltas| && HoldsAll(Decode(spans, deltas), b) && ZeroElsewhere(Decode(spans, deltas), b)
  }
}
