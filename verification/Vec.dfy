/** MetricVec of prometheus/vec.go: a hash index with collision handling, its curried
    views, and what they amount to: a map from full tuples of label values to
    metrics. */
module Vec {
  import opened Helpers

  /** A label name or a label value. */
  datatype Label = Label(text: string)

  type Values = seq<Label>

  type Labels = map<Label, Label>

  /** A metric, by identity; newMetric has built it for values. */
  datatype Metric = Metric(id: nat, values: Values)

  datatype Curried = Curried(index: nat, value: Label)

  /** metricWithLabelValues. */
  datatype Entry = Entry(values: Values, metric: Metric)

  /** Panic is Go's, for an index out of range. */
  datatype Result<T> = Ok(value: T) | Error | Panic

  // ---------------------------------------------------------------- currying

  /** Curried labels of a vector with n variable labels: by index, ascending. */
  ghost predicate IsCurry(curry: seq<Curried>, n: nat) {
    (forall x :: 0 <= x < |curry| ==> curry[x].index < n) &&
    (forall x, y :: 0 <= x < y < |curry| ==> curry[x].index < curry[y].index)
  }

  /** How many of the labels before index i are curried. */
  function Below(curry: seq<Curried>, i: nat): (k: nat)
    ensures k <= |curry|
  {
    if curry == [] then 0 else Below(curry[..|curry| - 1], i) + if curry[|curry| - 1].index < i then 1 else 0
  }

  lemma {:induction false} BelowIs(curry: seq<Curried>, n: nat, i: nat, k: nat)
    requires IsCurry(curry, n) && k <= |curry|
    requires forall x :: 0 <= x < k ==> curry[x].index < i
    requires forall x :: k <= x < |curry| ==> curry[x].index >= i
    ensures Below(curry, i) == k
  {
    if curry != [] { BelowIs(curry[..|curry| - 1], n, i, if k == |curry| then k - 1 else k); }
  }

  /** Label i is curried. */
  predicate At(curry: seq<Curried>, i: nat) { Below(curry, i) < |curry| && curry[Below(curry, i)].index == i }

  lemma {:induction false} BelowSplits(curry: seq<Curried>, n: nat, i: nat)
    requires IsCurry(curry, n)
    ensures forall x :: 0 <= x < |curry| ==> (x < Below(curry, i) <==> curry[x].index < i)
    ensures Below(curry, i) <= i
    decreases i
  {
    if i == 0 {
      BelowIs(curry, n, 0, 0);
    } else {
      BelowSplits(curry, n, i - 1);
      var k := Below(curry, i - 1);
      BelowIs(curry, n, i, if At(curry, i - 1) then k + 1 else k);
    }
  }

  lemma BelowStep(curry: seq<Curried>, n: nat, i: nat)
    requires IsCurry(curry, n)
    ensures Below(curry, i + 1) == Below(curry, i) + if At(curry, i) then 1 else 0
    ensures Below(curry, i) <= i
  {
    BelowSplits(curry, n, i);
    BelowIs(curry, n, i + 1, Below(curry, i) + if At(curry, i) then 1 else 0);
  }

  lemma BelowEnds(curry: seq<Curried>, n: nat)
    requires IsCurry(curry, n)
    ensures Below(curry, 0) == 0 && Below(curry, n) == |curry|
  {
    BelowIs(curry, n, 0, 0);
    BelowIs(curry, n, n, |curry|);
  }

  /** What is curried from label i on leaves that many of them for lvs. */
  lemma {:induction false} Room(curry: seq<Curried>, n: nat, i: nat)
    requires IsCurry(curry, n) && i <= n
    ensures |curry| - Below(curry, i) <= n - i - if i < n && !At(curry, i) then 1 else 0
    ensures Below(curry, i) <= i
    decreases n - i
  {
    BelowEnds(curry, n);
    BelowSplits(curry, n, i);
    if i < n { Room(curry, n, i + 1); BelowStep(curry, n, i); }
  }

  /** The value of label i: the curried one, or the next of lvs. */
  function Inline(lvs: Values, curry: seq<Curried>, i: nat): Label {
    if At(curry, i) then curry[Below(curry, i)].value
    else if Below(curry, i) <= i < |lvs| + Below(curry, i) then lvs[i - Below(curry, i)]
    else Label("")
  }

  /** The full tuple that lvs stand for. */
  function Full(lvs: Values, curry: seq<Curried>): (r: Values)
    ensures |r| == |lvs| + |curry|
  {
    seq(|lvs| + |curry|, i requires i >= 0 => Inline(lvs, curry, i))
  }

  // ---------------------------------------------------------------- the loops over curried labels

  /** inlineLabelValues. */
  method InlineLabelValues(lvs: Values, curry: seq<Curried>) returns (r: Values)
    requires IsCurry(curry, |lvs| + |curry|)
    ensures r == Full(lvs, curry)
  {
    r := [];
    var iCurry, iLVs := 0, 0;
    var n := |lvs| + |curry|;
    BelowEnds(curry, n);
    for i := 0 to n
      invariant r == Full(lvs, curry)[..i]
      invariant iCurry == Below(curry, i) && iLVs == i - iCurry && i <= |lvs| + iCurry
    {
      BelowStep(curry, n, i);
      Room(curry, n, i);
      if iCurry < |curry| && curry[iCurry].index == i {
        r := r + [curry[iCurry].value];
        iCurry := iCurry + 1;
      } else {
        r := r + [lvs[iLVs]];
        iLVs := iLVs + 1;
      }
    }
  }

  /** matchLabelValues. */
  method MatchLabelValues(values: Values, lvs: Values, curry: seq<Curried>) returns (r: bool)
    requires IsCurry(curry, |lvs| + |curry|)
    ensures r <==> values == Full(lvs, curry)
  {
    if |values| != |lvs| + |curry| { return false; }
    var n := |values|;
    var iCurry, iLVs := 0, 0;
    BelowEnds(curry, n);
    for i := 0 to n
      invariant forall k :: 0 <= k < i ==> values[k] == Full(lvs, curry)[k]
      invariant iCurry == Below(curry, i) && iLVs == i - iCurry && i <= |lvs| + iCurry
    {
      BelowStep(curry, n, i);
      Room(curry, n, i);
      if iCurry < |curry| && curry[iCurry].index == i {
        if values[i] != curry[iCurry].value {
          assert values[i] != Full(lvs, curry)[i];
          return false;
        }
        iCurry := iCurry + 1;
      } else {
        if values[i] != lvs[iLVs] {
          assert values[i] != Full(lvs, curry)[i];
          return false;
        }
        iLVs := iLVs + 1;
      }
    }
    return true;
  }

  // ---------------------------------------------------------------- labels by name

  ghost predicate Distinct(names: seq<Label>) { forall i, j :: 0 <= i < j < |names| ==> names[i] != names[j] }

  /** What hashLabels accepts: as many labels as are not curried, each under its
      name. */
  predicate Accepts(names: seq<Label>, curry: seq<Curried>, labels: Labels) {
    |labels| == |names| - |curry| && AllNamed(names, curry, labels, |names|)
  }

  /** Of the first n names exactly those that are not curried are in labels. */
  predicate AllNamed(names: seq<Label>, curry: seq<Curried>, labels: Labels, n: nat)
    requires n <= |names|
  {
    forall i :: 0 <= i < n ==> (At(curry, i) <==> names[i] !in labels)
  }

  /** The value of label i: the curried one, or that of its name. */
  function ByName(names: seq<Label>, curry: seq<Curried>, labels: Labels, i: nat): Label
    requires i < |names|
  {
    if At(curry, i) then curry[Below(curry, i)].value
    else if names[i] in labels then labels[names[i]] else Label("")
  }

  /** The full tuple that labels stand for. */
  function FullOf(names: seq<Label>, curry: seq<Curried>, labels: Labels): (r: Values)
    ensures |r| == |names|
  {
    seq(|names|, i requires 0 <= i < |names| => ByName(names, curry, labels, i))
  }

  /** extractLabelValues. */
  method ExtractLabelValues(names: seq<Label>, labels: Labels, curry: seq<Curried>) returns (r: Values)
    requires IsCurry(curry, |names|) && Accepts(names, curry, labels)
    ensures r == FullOf(names, curry, labels)
  {
    r := [];
    var iCurry := 0;
    BelowEnds(curry, |names|);
    for i := 0 to |names|
      invariant r == FullOf(names, curry, labels)[..i]
      invariant iCurry == Below(curry, i)
    {
      BelowStep(curry, |names|, i);
      if iCurry < |curry| && curry[iCurry].index == i {
        r := r + [curry[iCurry].value];
        iCurry := iCurry + 1;
      } else {
        r := r + [labels[names[i]]];
      }
    }
  }

  /** matchLabels, for labels that hashLabels has accepted. */
  method MatchLabels(names: seq<Label>, values: Values, labels: Labels, curry: seq<Curried>) returns (r: bool)
    requires IsCurry(curry, |names|) && Accepts(names, curry, labels) && |values| == |names|
    ensures r <==> values == FullOf(names, curry, labels)
  {
    if |values| != |labels| + |curry| { return false; }
    var iCurry := 0;
    BelowEnds(curry, |names|);
    for i := 0 to |names|
      invariant forall k :: 0 <= k < i ==> values[k] == FullOf(names, curry, labels)[k]
      invariant iCurry == Below(curry, i)
    {
      BelowStep(curry, |names|, i);
      if iCurry < |curry| && curry[iCurry].index == i {
        if values[i] != curry[iCurry].value {
          assert values[i] != FullOf(names, curry, labels)[i];
          return false;
        }
        iCurry := iCurry + 1;
      } else if values[i] != labels[names[i]] {
        assert values[i] != FullOf(names, curry, labels)[i];
        return false;
      }
    }
    return true;
  }

  /** The names of the labels that are not curried. */
  function Open(names: seq<Label>, curry: seq<Curried>): set<Label> {
    set i | 0 <= i < |names| && !At(curry, i) :: names[i]
  }

  lemma {:induction false} OpenCount(names: seq<Label>, curry: seq<Curried>, n: nat)
    requires Distinct(names) && IsCurry(curry, n) && |names| <= n
    ensures |Open(names, curry)| == |names| - Below(curry, |names|)
    decreases |names|
  {
    if names == [] {
      BelowEnds(curry, n);
    } else {
      var k := |names| - 1;
      var rest := names[..k];
      OpenCount(rest, curry, n);
      BelowStep(curry, n, k);
      assert names[k] !in Open(rest, curry);
      assert Open(names, curry) == Open(rest, curry) + if At(curry, k) then {} else {names[k]};
    }
  }

  lemma SameSize<T>(a: set<T>, b: set<T>)
    requires a <= b && |a| == |b|
    ensures a == b
  {
    assert b == a + (b - a);
  }

  /** Exactly the labels that are not curried, no more and no fewer. */
  lemma AcceptsIff(names: seq<Label>, curry: seq<Curried>, labels: Labels)
    requires Distinct(names) && IsCurry(curry, |names|)
    ensures Accepts(names, curry, labels) <==> labels.Keys == Open(names, curry)
  {
    OpenCount(names, curry, |names|);
    BelowEnds(curry, |names|);
    assert |labels| == |labels.Keys|;
    if Accepts(names, curry, labels) {
      SameSize(Open(names, curry), labels.Keys);
    }
  }

  // ---------------------------------------------------------------- partial matches

  /** The label name l has value v in the tuple, and is not curried. */
  ghost predicate HasPair(names: seq<Label>, curry: seq<Curried>, values: Values, l: Label, v: Label) {
    exists i :: 0 <= i < |names| && i < |values| && names[i] == l && !At(curry, i) && values[i] == v
  }

  ghost predicate Partial(names: seq<Label>, curry: seq<Curried>, values: Values, labels: Labels) {
    forall l <- labels :: HasPair(names, curry, values, l, labels[l])
  }

  /** indexOf. */
  method IndexOf(target: Label, items: seq<Label>) returns (i: nat, found: bool)
    ensures found <==> target in items
    ensures found ==> i < |items| && items[i] == target
    ensures !found ==> i == |items|
    ensures forall k :: 0 <= k < i ==> items[k] != target
  {
    for k := 0 to |items|
      invariant forall j :: 0 <= j < k ==> items[j] != target
    {
      if items[k] == target { return k, true; }
    }
    return |items|, false;
  }

  /** valueMatchesVariableOrCurriedValue. */
  method ValueMatches(target: Label, index: nat, values: Values, curry: seq<Curried>) returns (matches: bool, curried: bool)
    requires index < |values| && IsCurry(curry, |values|)
    ensures curried <==> At(curry, index)
    ensures matches <==> target == if curried then curry[Below(curry, index)].value else values[index]
  {
    BelowSplits(curry, |values|, index);
    for x := 0 to |curry|
      invariant forall y :: 0 <= y < x ==> curry[y].index != index
    {
      if curry[x].index == index {
        BelowIs(curry, |values|, index, x);
        return curry[x].value == target, true;
      }
    }
    return values[index] == target, false;
  }

  lemma OnlyThere(names: seq<Label>, curry: seq<Curried>, values: Values, l: Label, v: Label, i: nat)
    requires Distinct(names) && |values| == |names| && i < |names| && names[i] == l
    ensures HasPair(names, curry, values, l, v) <==> !At(curry, i) && values[i] == v
  {
  }

  /** matchPartialLabels. */
  method MatchPartialLabels(names: seq<Label>, values: Values, labels: Labels, curry: seq<Curried>) returns (r: bool)
    requires Distinct(names) && |values| == |names| && IsCurry(curry, |names|)
    ensures r <==> Partial(names, curry, values, labels)
  {
    var todo := labels.Keys;
    while todo != {}
      invariant todo <= labels.Keys
      invariant forall l :: l in labels && l !in todo ==> HasPair(names, curry, values, l, labels[l])
      decreases |todo|
    {
      var l := AnyOf(todo);
      var i, valid := IndexOf(l, names);
      if !valid { return false; }
      OnlyThere(names, curry, values, l, labels[l], i);
      var matches, curried := ValueMatches(labels[l], i, values, curry);
      if !(matches && !curried) { return false; }
      todo := todo - {l};
    }
    return true;
  }

  // ---------------------------------------------------------------- hashing

  /** Any hash function at all. */
  datatype Hasher = Hasher(new_: int, add: (int, Label) -> int, separate: int -> int)

  /** hashAdd, then hashAddByte of the separator. */
  function Mix(hs: Hasher, h: int, value: Label): int { hs.separate(hs.add(h, value)) }

  function Hash(hs: Hasher, values: Values): int {
    if values == [] then hs.new_ else Mix(hs, Hash(hs, values[..|values| - 1]), values[|values| - 1])
  }

  lemma HashStep(hs: Hasher, values: Values, i: nat)
    requires i < |values|
    ensures Hash(hs, values[..i + 1]) == Mix(hs, Hash(hs, values[..i]), values[i])
  {
    assert values[..i + 1][..i] == values[..i];
  }

  /** hashLabelValues: it hashes the full tuple, whatever the currying. */
  method HashLabelValues(hs: Hasher, n: nat, curry: seq<Curried>, vals: Values) returns (r: Result<int>)
    requires IsCurry(curry, n)
    ensures r == if |vals| == n - |curry| then Ok(Hash(hs, Full(vals, curry))) else Error
  {
    if |vals| != n - |curry| { return Error; }
    var h := hs.new_;
    var iVals, iCurry := 0, 0;
    BelowEnds(curry, n);
    for i := 0 to n
      invariant h == Hash(hs, Full(vals, curry)[..i])
      invariant iCurry == Below(curry, i) && iVals == i - iCurry && i <= |vals| + iCurry
    {
      BelowStep(curry, n, i);
      Room(curry, n, i);
      HashStep(hs, Full(vals, curry), i);
      if iCurry < |curry| && curry[iCurry].index == i {
        h := Mix(hs, h, curry[iCurry].value);
        iCurry := iCurry + 1;
      } else {
        h := Mix(hs, h, vals[iVals]);
        iVals := iVals + 1;
      }
    }
    assert Full(vals, curry)[..n] == Full(vals, curry);
    return Ok(h);
  }

  /** The hash of the first i values that labels stand for. */
  function HashTo(hs: Hasher, names: seq<Label>, curry: seq<Curried>, labels: Labels, i: nat): int
    requires i <= |names|
  {
    Hash(hs, FullOf(names, curry, labels)[..i])
  }

  lemma HashNext(hs: Hasher, names: seq<Label>, curry: seq<Curried>, labels: Labels, i: nat)
    requires i < |names|
    ensures HashTo(hs, names, curry, labels, 0) == hs.new_
    ensures HashTo(hs, names, curry, labels, i + 1) ==
      Mix(hs, HashTo(hs, names, curry, labels, i), ByName(names, curry, labels, i))
  {
    HashStep(hs, FullOf(names, curry, labels), i);
  }

  lemma HashAll(hs: Hasher, names: seq<Label>, curry: seq<Curried>, labels: Labels)
    ensures HashTo(hs, names, curry, labels, |names|) == Hash(hs, FullOf(names, curry, labels))
  {
    assert FullOf(names, curry, labels)[..|names|] == FullOf(names, curry, labels);
  }

  /** hashLabels: the same hash for the same tuple. */
  method HashLabels(hs: Hasher, names: seq<Label>, curry: seq<Curried>, labels: Labels) returns (r: Result<int>)
    requires IsCurry(curry, |names|)
    ensures r == if Accepts(names, curry, labels) then Ok(Hash(hs, FullOf(names, curry, labels))) else Error
  {
    if |labels| != |names| - |curry| { return Error; }
    var ok, h := HashNames(hs, names, curry, labels);
    HashAll(hs, names, curry, labels);
    return if ok then Ok(h) else Error;
  }

  /** The loop of hashLabels. */
  method HashNames(hs: Hasher, names: seq<Label>, curry: seq<Curried>, labels: Labels) returns (ok: bool, h: int)
    requires IsCurry(curry, |names|)
    ensures ok <==> AllNamed(names, curry, labels, |names|)
    ensures ok ==> h == HashTo(hs, names, curry, labels, |names|)
  {
    h := hs.new_;
    var iCurry := 0;
    BelowEnds(curry, |names|);
    for i := 0 to |names|
      invariant h == HashTo(hs, names, curry, labels, i) && iCurry == Below(curry, i)
      invariant AllNamed(names, curry, labels, i)
    {
      BelowStep(curry, |names|, i);
      HashNext(hs, names, curry, labels, i);
      if iCurry < |curry| && curry[iCurry].index == i {
        if names[i] in labels { return false, h; }
        h := Mix(hs, h, curry[iCurry].value);
        iCurry := iCurry + 1;
      } else {
        if names[i] !in labels { return false, h; }
        h := Mix(hs, h, labels[names[i]]);
      }
    }
    return true, h;
  }

  // ---------------------------------------------------------------- the index and what it stands for

  type Index = map<int, seq<Entry>>

  type Contents = map<Values, Metric>

  ghost predicate EntryOk(e: Entry, h: int, c: Contents, hs: Hasher, n: nat) {
    |e.values| == n && Hash(hs, e.values) == h && e.values in c && c[e.values] == e.metric
  }

  ghost predicate BucketOk(bucket: seq<Entry>, h: int, c: Contents, hs: Hasher, n: nat) {
    && bucket != []
    && (forall i :: 0 <= i < |bucket| ==> EntryOk(bucket[i], h, c, hs, n))
    && (forall i, j :: 0 <= i < j < |bucket| ==> bucket[i].values != bucket[j].values)
  }

  ghost predicate Stored(ix: Index, v: Values, h: int) { h in ix && exists i :: 0 <= i < |ix[h]| && ix[h][i].values == v }

  /** The buckets hold c: every entry of theirs, under its hash, and nothing else. */
  ghost predicate Indexes(ix: Index, c: Contents, hs: Hasher, n: nat) {
    && (forall h <- ix :: BucketOk(ix[h], h, c, hs, n))
    && (forall v <- c :: Stored(ix, v, Hash(hs, v)))
  }

  /** Every metric is the one made for its tuple. */
  ghost predicate OwnMetrics(c: Contents, next: nat) { forall v <- c :: c[v].values == v && c[v].id < next }

  /** Change tracking knows exactly the metrics the vector holds. */
  ghost predicate TracksAll(tracked: set<Metric>, c: Contents) {
    forall m :: m in tracked <==> m.values in c && c[m.values] == m
  }

  lemma Untracks(tracked: set<Metric>, c: Contents, v: Values, next: nat)
    requires TracksAll(tracked, c) && OwnMetrics(c, next) && v in c
    ensures TracksAll(tracked - {c[v]}, c - {v}) && OwnMetrics(c - {v}, next)
  {
    assert c[v].values == v;
  }

  lemma Tracks(tracked: set<Metric>, c: Contents, m: Metric, next: nat)
    requires TracksAll(tracked, c) && OwnMetrics(c, next) && m.values !in c && m.id < next
    ensures TracksAll(tracked + {m}, c[m.values := m]) && OwnMetrics(c[m.values := m], next)
  {
  }

  function Bucket(ix: Index, h: int): seq<Entry> { if h in ix then ix[h] else [] }

  lemma AddEntry(ix: Index, c: Contents, hs: Hasher, n: nat, v: Values, m: Metric)
    requires Indexes(ix, c, hs, n) && v !in c && |v| == n
    ensures Indexes(ix[Hash(hs, v) := Bucket(ix, Hash(hs, v)) + [Entry(v, m)]], c[v := m], hs, n)
  {
    var h := Hash(hs, v);
    var ix', c' := ix[h := Bucket(ix, h) + [Entry(v, m)]], c[v := m];
    forall g | g in ix' ensures BucketOk(ix'[g], g, c', hs, n) {
      if g in ix { assert BucketOk(ix[g], g, c, hs, n); }
    }
    forall u | u in c' ensures Stored(ix', u, Hash(hs, u)) {
      if u == v {
        assert ix'[h][|Bucket(ix, h)|].values == v;
      } else {
        assert Stored(ix, u, Hash(hs, u));
        var i :| 0 <= i < |ix[Hash(hs, u)]| && ix[Hash(hs, u)][i].values == u;
        assert ix'[Hash(hs, u)][i].values == u;
      }
    }
  }

  /** removeAt's new buckets. */
  function Removed(ix: Index, h: int, i: nat): Index
    requires h in ix && i < |ix[h]|
  {
    if |ix[h]| > 1 then ix[h := ix[h][..i] + ix[h][i + 1..]] else ix - {h}
  }

  lemma OtherBucket(bucket: seq<Entry>, g: int, c: Contents, hs: Hasher, n: nat, v: Values)
    requires BucketOk(bucket, g, c, hs, n) && Hash(hs, v) != g
    ensures BucketOk(bucket, g, c - {v}, hs, n)
  {
    forall j | 0 <= j < |bucket| ensures EntryOk(bucket[j], g, c - {v}, hs, n) { assert EntryOk(bucket[j], g, c, hs, n); }
  }

  lemma RemoveEntry(ix: Index, c: Contents, hs: Hasher, n: nat, h: int, i: nat)
    requires Indexes(ix, c, hs, n) && h in ix && i < |ix[h]|
    ensures Indexes(Removed(ix, h, i), c - {ix[h][i].values}, hs, n)
  {
    var v := ix[h][i].values;
    var ix', c' := Removed(ix, h, i), c - {v};
    assert BucketOk(ix[h], h, c, hs, n) && EntryOk(ix[h][i], h, c, hs, n);
    forall g | g in ix' ensures BucketOk(ix'[g], g, c', hs, n) {
      if g == h { RemovedBucket(ix[h], h, c, hs, n, i); } else { OtherBucket(ix[g], g, c, hs, n, v); }
    }
    forall u | u in c' ensures Stored(ix', u, Hash(hs, u)) { StillStored(ix, c, hs, n, h, i, u); }
  }

  lemma StillStored(ix: Index, c: Contents, hs: Hasher, n: nat, h: int, i: nat, u: Values)
    requires Indexes(ix, c, hs, n) && h in ix && i < |ix[h]| && u in c && u != ix[h][i].values
    ensures Stored(Removed(ix, h, i), u, Hash(hs, u))
  {
    var g := Hash(hs, u);
    assert Stored(ix, u, g);
    var j :| 0 <= j < |ix[g]| && ix[g][j].values == u;
    if g == h {
      var k := if j < i then j else j - 1;
      assert |ix[h]| > 1 && (ix[h][..i] + ix[h][i + 1..])[k] == ix[h][j];
      assert Removed(ix, h, i)[g][k].values == u;
    } else {
      assert Removed(ix, h, i)[g] == ix[g];
    }
  }

  lemma RemovedBucket(bucket: seq<Entry>, h: int, c: Contents, hs: Hasher, n: nat, i: nat)
    requires BucketOk(bucket, h, c, hs, n) && i < |bucket| && |bucket| > 1
    ensures BucketOk(bucket[..i] + bucket[i + 1..], h, c - {bucket[i].values}, hs, n)
  {
    var b := bucket[..i] + bucket[i + 1..];
    forall j | 0 <= j < |b| ensures EntryOk(b[j], h, c - {bucket[i].values}, hs, n) {
      assert b[j] == bucket[if j < i then j else j + 1];
    }
  }

  /** What is left without the tuples of hash h. */
  function WithoutHash(c: Contents, hs: Hasher, h: int): Contents {
    map v | v in c && Hash(hs, v) != h :: c[v]
  }

  lemma DropBucket(ix: Index, c: Contents, hs: Hasher, n: nat, h: int)
    requires Indexes(ix, c, hs, n)
    ensures Indexes(ix - {h}, WithoutHash(c, hs, h), hs, n)
  {
    var ix', c' := ix - {h}, WithoutHash(c, hs, h);
    forall g | g in ix' ensures BucketOk(ix'[g], g, c', hs, n) {
      assert BucketOk(ix[g], g, c, hs, n);
      forall j | 0 <= j < |ix[g]| ensures EntryOk(ix[g][j], g, c', hs, n) { assert EntryOk(ix[g][j], g, c, hs, n); }
    }
    forall u | u in c' ensures Stored(ix', u, Hash(hs, u)) { assert Stored(ix, u, Hash(hs, u)); }
  }

  /** A tuple is in the vector exactly if the bucket of its hash has it, at one place. */
  lemma Lookup(ix: Index, c: Contents, hs: Hasher, n: nat, v: Values, i: nat)
    requires Indexes(ix, c, hs, n)
    requires i <= |Bucket(ix, Hash(hs, v))| && forall j :: 0 <= j < i ==> Bucket(ix, Hash(hs, v))[j].values != v
    requires i < |Bucket(ix, Hash(hs, v))| ==> Bucket(ix, Hash(hs, v))[i].values == v
    ensures v in c <==> i < |Bucket(ix, Hash(hs, v))|
    ensures v in c ==> Bucket(ix, Hash(hs, v))[i] == Entry(v, c[v])
  {
    var h := Hash(hs, v);
    if h in ix { assert BucketOk(ix[h], h, c, hs, n); }
    if i < |Bucket(ix, h)| { assert EntryOk(ix[h][i], h, c, hs, n); }
    if v in c { assert Stored(ix, v, h); }
  }

  /** findMetricWithLabelValues. */
  method FindWithLabelValues(bucket: seq<Entry>, lvs: Values, curry: seq<Curried>) returns (i: nat)
    requires IsCurry(curry, |lvs| + |curry|)
    ensures i <= |bucket| && forall j :: 0 <= j < i ==> bucket[j].values != Full(lvs, curry)
    ensures i < |bucket| ==> bucket[i].values == Full(lvs, curry)
  {
    i := 0;
    while i < |bucket|
      invariant i <= |bucket| && forall j :: 0 <= j < i ==> bucket[j].values != Full(lvs, curry)
    {
      var same := MatchLabelValues(bucket[i].values, lvs, curry);
      if same { return; }
      i := i + 1;
    }
  }

  /** findMetricWithLabels. */
  method FindWithLabels(names: seq<Label>, bucket: seq<Entry>, labels: Labels, curry: seq<Curried>) returns (i: nat)
    requires IsCurry(curry, |names|) && Accepts(names, curry, labels)
    requires forall j :: 0 <= j < |bucket| ==> |bucket[j].values| == |names|
    ensures i <= |bucket| && forall j :: 0 <= j < i ==> bucket[j].values != FullOf(names, curry, labels)
    ensures i < |bucket| ==> bucket[i].values == FullOf(names, curry, labels)
  {
    i := 0;
    while i < |bucket|
      invariant i <= |bucket| && forall j :: 0 <= j < i ==> bucket[j].values != FullOf(names, curry, labels)
    {
      var same := MatchLabels(names, bucket[i].values, labels, curry);
      if same { return; }
      i := i + 1;
    }
  }

  /** findMetricWithPartialLabels. */
  method FindWithPartialLabels(names: seq<Label>, bucket: seq<Entry>, labels: Labels, curry: seq<Curried>) returns (i: nat)
    requires Distinct(names) && IsCurry(curry, |names|)
    requires forall j :: 0 <= j < |bucket| ==> |bucket[j].values| == |names|
    ensures i <= |bucket|
    ensures i < |bucket| <==> exists j :: 0 <= j < |bucket| && Partial(names, curry, bucket[j].values, labels)
  {
    i := 0;
    while i < |bucket|
      invariant i <= |bucket| && forall j :: 0 <= j < i ==> !Partial(names, curry, bucket[j].values, labels)
    {
      var same := MatchPartialLabels(names, bucket[i].values, labels, curry);
      if same { return; }
      i := i + 1;
    }
  }

  /** The hashes of the tuples that match, and with them all that DeletePartialMatch
      deletes. */
  ghost function Doomed(c: Contents, hs: Hasher, names: seq<Label>, curry: seq<Curried>, labels: Labels): set<int> {
    set v | v in c && Partial(names, curry, v, labels) :: Hash(hs, v)
  }

  ghost function Survivors(c: Contents, hs: Hasher, doomed: set<int>): Contents {
    map v | v in c && Hash(hs, v) !in doomed :: c[v]
  }

  /** A bucket has a match exactly if its hash is doomed. */
  lemma DoomedBucket(ix: Index, c: Contents, hs: Hasher, names: seq<Label>, curry: seq<Curried>, labels: Labels, h: int)
    requires Indexes(ix, c, hs, |names|) && h in ix
    ensures h in Doomed(c, hs, names, curry, labels) <==>
      exists j :: 0 <= j < |ix[h]| && Partial(names, curry, ix[h][j].values, labels)
  {
    assert BucketOk(ix[h], h, c, hs, |names|);
    if h in Doomed(c, hs, names, curry, labels) {
      var v :| v in c && Partial(names, curry, v, labels) && Hash(hs, v) == h;
      assert Stored(ix, v, h);
    }
    if j :| 0 <= j < |ix[h]| && Partial(names, curry, ix[h][j].values, labels) {
      assert EntryOk(ix[h][j], h, c, hs, |names|);
    }
  }

  const MIN_SHRINK_METRICS: int := 4096

  /** metricMap.  Contents is what it stands for; tracked is what change tracking has
      been told (trackMetric, untrackMetric). */
  class MetricMap {
    const names: seq<Label>
    const hs: Hasher
    var metrics: Index
    var peak: nat
    var next: nat
    var tracked: set<Metric>
    ghost var contents: Contents

    ghost predicate Valid()
      reads this
    {
      Distinct(names) && Indexes(metrics, contents, hs, |names|) && OwnMetrics(contents, next) && TracksAll(tracked, contents)
    }

    constructor (names: seq<Label>, hs: Hasher)
      requires Distinct(names)
      ensures Valid() && this.names == names && this.hs == hs && contents == map[]
    {
      this.names, this.hs := names, hs;
      metrics, peak, next, tracked, contents := map[], 0, 0, {}, map[];
    }

    /** shrink: the same buckets in a map of their own size. */
    method Shrink()
      modifies this`metrics, this`peak
      ensures metrics == old(metrics)
    {
      var n := |metrics|;
      if n > peak {
        peak := n;
        return;
      }
      if peak < MIN_SHRINK_METRICS || n >= peak / 2 { return; }
      metrics := CopyOf(metrics);
      peak := n;
    }

    /** Both getOrCreate functions, once the bucket of full is known to lack it. */
    method Create(h: int, full: Values) returns (m: Metric)
      requires Valid() && h == Hash(hs, full) && full !in contents && |full| == |names|
      modifies this
      ensures Valid() && m == Metric(old(next), full) && contents == old(contents)[full := m]
    {
      m := Metric(next, full);
      next := next + 1;
      AddEntry(metrics, contents, hs, |names|, full, m);
      Tracks(tracked, contents, m, next);
      metrics := metrics[h := Bucket(metrics, h) + [Entry(full, m)]];
      tracked := tracked + {m};
      contents := contents[full := m];
      if |metrics| > peak { peak := |metrics|; }
    }

    /** getMetricWithHashAndLabelValues, in the way both lookups are made. */
    method GetWithLabelValues(h: int, lvs: Values, curry: seq<Curried>) returns (m: Metric, ok: bool)
      requires Valid() && IsCurry(curry, |names|) && |lvs| + |curry| == |names| && h == Hash(hs, Full(lvs, curry))
      ensures ok <==> Full(lvs, curry) in contents
      ensures ok ==> m == contents[Full(lvs, curry)]
    {
      var bucket := Bucket(metrics, h);
      var i := FindWithLabelValues(bucket, lvs, curry);
      Lookup(metrics, contents, hs, |names|, Full(lvs, curry), i);
      if i < |bucket| { return bucket[i].metric, true; }
      return Metric(0, []), false;
    }

    method GetOrCreateWithLabelValues(h: int, lvs: Values, curry: seq<Curried>) returns (m: Metric)
      requires Valid() && IsCurry(curry, |names|) && |lvs| + |curry| == |names| && h == Hash(hs, Full(lvs, curry))
      modifies this
      ensures Valid() && Created(old(contents), contents, Full(lvs, curry), m, old(next))
    {
      var ok;
      m, ok := GetWithLabelValues(h, lvs, curry);
      if ok { return; }
      var inlined := InlineLabelValues(lvs, curry);
      m := Create(h, inlined);
    }

    method GetWithLabels(h: int, labels: Labels, curry: seq<Curried>) returns (m: Metric, ok: bool)
      requires Valid() && IsCurry(curry, |names|) && Accepts(names, curry, labels) && h == Hash(hs, FullOf(names, curry, labels))
      ensures ok <==> FullOf(names, curry, labels) in contents
      ensures ok ==> m == contents[FullOf(names, curry, labels)]
    {
      var bucket := Bucket(metrics, h);
      BucketLengths(metrics, contents, hs, |names|, h);
      var i := FindWithLabels(names, bucket, labels, curry);
      Lookup(metrics, contents, hs, |names|, FullOf(names, curry, labels), i);
      if i < |bucket| { return bucket[i].metric, true; }
      return Metric(0, []), false;
    }

    method GetOrCreateWithLabels(h: int, labels: Labels, curry: seq<Curried>) returns (m: Metric)
      requires Valid() && IsCurry(curry, |names|) && Accepts(names, curry, labels) && h == Hash(hs, FullOf(names, curry, labels))
      modifies this
      ensures Valid() && Created(old(contents), contents, FullOf(names, curry, labels), m, old(next))
    {
      var ok;
      m, ok := GetWithLabels(h, labels, curry);
      if ok { return; }
      var full := ExtractLabelValues(names, labels, curry);
      m := Create(h, full);
    }

    /** removeAt. */
    method RemoveAt(h: int, i: nat)
      requires Valid() && h in metrics && i < |metrics[h]|
      modifies this
      ensures Valid() && contents == old(contents) - {old(metrics[h][i].values)} && next == old(next)
    {
      RemoveEntry(metrics, contents, hs, |names|, h, i);
      var e := metrics[h][i];
      assert BucketOk(metrics[h], h, contents, hs, |names|) && EntryOk(e, h, contents, hs, |names|);
      Untracks(tracked, contents, e.values, next);
      tracked := tracked - {e.metric};
      contents := contents - {e.values};
      if |metrics[h]| > 1 {
        metrics := metrics[h := metrics[h][..i] + metrics[h][i + 1..]];
      } else {
        metrics := metrics - {h};
        Shrink();
      }
    }

    /** deleteByHashWithLabelValues. */
    method DeleteByHashWithLabelValues(h: int, lvs: Values, curry: seq<Curried>) returns (deleted: bool)
      requires Valid() && IsCurry(curry, |names|) && |lvs| + |curry| == |names| && h == Hash(hs, Full(lvs, curry))
      modifies this
      ensures Valid() && next == old(next) && deleted == (Full(lvs, curry) in old(contents))
      ensures contents == old(contents) - {Full(lvs, curry)}
    {
      if h !in metrics {
        Lookup(metrics, contents, hs, |names|, Full(lvs, curry), 0);
        return false;
      }
      var i := FindWithLabelValues(metrics[h], lvs, curry);
      Lookup(metrics, contents, hs, |names|, Full(lvs, curry), i);
      if i >= |metrics[h]| { return false; }
      RemoveAt(h, i);
      return true;
    }

    /** deleteByHashWithLabels. */
    method DeleteByHashWithLabels(h: int, labels: Labels, curry: seq<Curried>) returns (deleted: bool)
      requires Valid() && IsCurry(curry, |names|) && Accepts(names, curry, labels) && h == Hash(hs, FullOf(names, curry, labels))
      modifies this
      ensures Valid() && next == old(next) && deleted == (FullOf(names, curry, labels) in old(contents))
      ensures contents == old(contents) - {FullOf(names, curry, labels)}
    {
      var full := FullOf(names, curry, labels);
      if h !in metrics {
        Lookup(metrics, contents, hs, |names|, full, 0);
        return false;
      }
      BucketLengths(metrics, contents, hs, |names|, h);
      var i := FindWithLabels(names, metrics[h], labels, curry);
      Lookup(metrics, contents, hs, |names|, full, i);
      if i >= |metrics[h]| { return false; }
      RemoveAt(h, i);
      return true;
    }

    /** deleteMetric, by identity; no ok is one that always agrees.  h is the hash
        the metric was created under. */
    method DeleteMetric(h: int, metric: Metric, ok: bool) returns (deleted: bool)
      requires Valid() && h == Hash(hs, metric.values)
      modifies this
      ensures Valid() && next == old(next) && deleted == (metric in old(tracked) && ok)
      ensures contents == if deleted then old(contents) - {metric.values} else old(contents)
    {
      if h !in metrics {
        Lookup(metrics, contents, hs, |names|, metric.values, 0);
        return false;
      }
      var bucket := metrics[h];
      for i := 0 to |bucket|
        invariant unchanged(this)
        invariant forall j :: 0 <= j < i ==> bucket[j].metric != metric
      {
        assert BucketOk(bucket, h, contents, hs, |names|) && EntryOk(bucket[i], h, contents, hs, |names|);
        if bucket[i].metric == metric {
          if !ok { return false; }
          RemoveAt(h, i);
          return true;
        }
      }
      NotStored(metrics, contents, hs, |names|, metric);
      return false;
    }

    /** deleteCollectedIf. */
    method DeleteCollectedIf(h: int, full: Values, ok: Metric -> bool) returns (deleted: bool)
      requires Valid() && |full| == |names| && h == Hash(hs, full)
      modifies this
      ensures Valid() && next == old(next) && deleted == (full in old(contents) && ok(old(contents)[full]))
      ensures contents == if deleted then old(contents) - {full} else old(contents)
    {
      var bucket := Bucket(metrics, h);
      FullOfNothing(full);
      var i := FindWithLabelValues(bucket, full, []);
      Lookup(metrics, contents, hs, |names|, full, i);
      if i >= |bucket| { return false; }
      if !ok(bucket[i].metric) { return false; }
      RemoveAt(h, i);
      return true;
    }

    /** Reset. */
    method Reset()
      requires Valid()
      modifies this
      ensures Valid() && contents == map[] && next == old(next)
    {
      var todo := metrics.Keys;
      while todo != {}
        invariant Valid() && todo == metrics.Keys && next == old(next)
        decreases |todo|
      {
        var h := AnyOf(todo);
        DropHash(h);
        todo := todo - {h};
      }
      Emptied(metrics, contents, hs, |names|);
      metrics, peak := map[], 0;
    }

    /** A whole bucket goes, in Reset and in deleteByLabels. */
    method DropHash(h: int)
      requires Valid() && h in metrics
      modifies this`metrics, this`tracked, this`contents
      ensures Valid() && metrics == old(metrics) - {h} && contents == WithoutHash(old(contents), hs, h)
    {
      DropBucket(metrics, contents, hs, |names|, h);
      var bucket := metrics[h];
      tracked := UntrackAll(tracked, bucket);
      DropTracked(old(tracked), metrics, contents, hs, names, h, next);
      metrics := metrics - {h};
      contents := WithoutHash(contents, hs, h);
    }

    /** One bucket in deleteByLabels; ix and c are as at the start, and gone are the
        hashes deleted so far. */
    method DeleteIfDoomed(h: int, labels: Labels, curry: seq<Curried>, ghost ix: Index, ghost c: Contents, ghost gone: set<int>)
      returns (deleted: bool)
      requires Valid() && IsCurry(curry, |names|) && Indexes(ix, c, hs, |names|)
      requires h in metrics && metrics == ix - gone && contents == Survivors(c, hs, gone)
      modifies this
      ensures Valid() && next == old(next) && (deleted <==> h in Doomed(c, hs, names, curry, labels))
      ensures metrics == ix - (if deleted then gone + {h} else gone)
      ensures contents == Survivors(c, hs, if deleted then gone + {h} else gone)
    {
      deleted := IsDoomed(names, metrics[h], h, labels, curry, ix, c, hs);
      if deleted {
        OneMore(c, hs, gone, h);
        DropHash(h);
        Shrink();
        assert (ix - gone) - {h} == ix - (gone + {h});
      }
    }

    /** deleteByLabels: whole buckets go, with every tuple whose hash is that of a
        match, and what is counted are the buckets. */
    method DeleteByLabels(labels: Labels, curry: seq<Curried>) returns (numDeleted: nat)
      requires Valid() && IsCurry(curry, |names|)
      modifies this
      ensures Valid() && next == old(next)
      ensures contents == Survivors(old(contents), hs, Doomed(old(contents), hs, names, curry, labels))
      ensures numDeleted == |Doomed(old(contents), hs, names, curry, labels)|
    {
      ghost var gone;
      numDeleted, gone := DeleteDoomed(labels, curry);
    }

    /** The loop over the buckets. */
    method DeleteDoomed(labels: Labels, curry: seq<Curried>) returns (numDeleted: nat, ghost gone: set<int>)
      requires Valid() && IsCurry(curry, |names|)
      modifies this
      ensures Valid() && next == old(next) && numDeleted == |gone|
      ensures gone == Doomed(old(contents), hs, names, curry, labels) && contents == Survivors(old(contents), hs, gone)
    {
      numDeleted, gone := 0, {};
      var todo := metrics.Keys;
      ghost var ix, c := metrics, contents;
      ghost var doomed := Doomed(c, hs, names, curry, labels);
      DoomedStored(ix, c, hs, names, curry, labels);
      NothingDoomed(c, hs, ix, doomed);
      while todo != {}
        invariant Valid() && next == old(next)
        invariant Progress(metrics, contents, hs, ix, c, doomed, todo, gone)
        invariant numDeleted == |gone|
        decreases |todo|
      {
        var h := AnyOf(todo);
        ProgressStep(metrics, contents, hs, ix, c, doomed, todo, gone, h);
        var deleted := DeleteIfDoomed(h, labels, curry, ix, c, gone);
        todo := todo - {h};
        if deleted {
          gone := gone + {h};
          numDeleted := numDeleted + 1;
        }
      }
    }
  }

  lemma NothingDoomed(c: Contents, hs: Hasher, ix: Index, doomed: set<int>)
    requires doomed <= ix.Keys
    ensures Progress(ix, c, hs, ix, c, doomed, ix.Keys, {})
  {
  }

  /** findMetricWithPartialLabels in a bucket of the index. */
  method IsDoomed(names: seq<Label>, bucket: seq<Entry>, h: int, labels: Labels, curry: seq<Curried>,
                  ghost ix: Index, ghost c: Contents, ghost hs: Hasher) returns (r: bool)
    requires Distinct(names) && IsCurry(curry, |names|)
    requires Indexes(ix, c, hs, |names|) && h in ix && bucket == ix[h]
    ensures r <==> h in Doomed(c, hs, names, curry, labels)
  {
    BucketLengths(ix, c, hs, |names|, h);
    DoomedBucket(ix, c, hs, names, curry, labels, h);
    var i := FindWithPartialLabels(names, bucket, labels, curry);
    r := i < |bucket|;
  }

  /** deleteByLabels on its way: todo are the hashes to come, gone those deleted. */
  ghost predicate Progress(metrics: Index, contents: Contents, hs: Hasher, ix: Index, c: Contents,
                           doomed: set<int>, todo: set<int>, gone: set<int>) {
    metrics == ix - gone && contents == Survivors(c, hs, gone) && Settled(ix, doomed, todo, gone)
  }

  ghost predicate Settled(ix: Index, doomed: set<int>, todo: set<int>, gone: set<int>) {
    todo <= ix.Keys && gone !! todo && gone <= doomed <= gone + todo && (todo == {} ==> gone == doomed)
  }

  lemma ProgressStep(metrics: Index, contents: Contents, hs: Hasher, ix: Index, c: Contents,
                     doomed: set<int>, todo: set<int>, gone: set<int>, h: int)
    requires Progress(metrics, contents, hs, ix, c, doomed, todo, gone) && h in todo
    ensures h in metrics && h !in gone
    ensures Settled(ix, doomed, todo - {h}, if h in doomed then gone + {h} else gone)
  {
  }

  lemma OneMore(c: Contents, hs: Hasher, gone: set<int>, h: int)
    ensures WithoutHash(Survivors(c, hs, gone), hs, h) == Survivors(c, hs, gone + {h})
  {
  }

  lemma DoomedStored(ix: Index, c: Contents, hs: Hasher, names: seq<Label>, curry: seq<Curried>, labels: Labels)
    requires Indexes(ix, c, hs, |names|)
    ensures Doomed(c, hs, names, curry, labels) <= ix.Keys
  {
    forall h | h in Doomed(c, hs, names, curry, labels) ensures h in ix {
      var v :| v in c && Partial(names, curry, v, labels) && Hash(hs, v) == h;
      assert Stored(ix, v, h);
    }
  }

  lemma FullOfNothing(full: Values)
    ensures Full(full, []) == full && IsCurry([], |full|)
  {
  }

  lemma NotStored(ix: Index, c: Contents, hs: Hasher, n: nat, m: Metric)
    requires Indexes(ix, c, hs, n) && Hash(hs, m.values) in ix
    requires forall j :: 0 <= j < |ix[Hash(hs, m.values)]| ==> ix[Hash(hs, m.values)][j].metric != m
    ensures m.values !in c || c[m.values] != m
  {
    var h := Hash(hs, m.values);
    if m.values in c {
      assert Stored(ix, m.values, h) && BucketOk(ix[h], h, c, hs, n);
      var i :| 0 <= i < |ix[h]| && ix[h][i].values == m.values;
      assert EntryOk(ix[h][i], h, c, hs, n);
    }
  }

  lemma Emptied(ix: Index, c: Contents, hs: Hasher, n: nat)
    requires Indexes(ix, c, hs, n) && ix.Keys == {}
    ensures c == map[] && ix == map[]
  {
    assert forall v <- c :: Stored(ix, v, Hash(hs, v));
  }

  /** untrackMetric for every metric of a bucket. */
  function UntrackAll(tracked: set<Metric>, bucket: seq<Entry>): set<Metric> {
    tracked - set e | e in bucket :: e.metric
  }

  lemma DropTracked(tracked: set<Metric>, ix: Index, c: Contents, hs: Hasher, names: seq<Label>, h: int, next: nat)
    requires Indexes(ix, c, hs, |names|) && OwnMetrics(c, next) && TracksAll(tracked, c) && h in ix
    ensures TracksAll(UntrackAll(tracked, ix[h]), WithoutHash(c, hs, h)) && OwnMetrics(WithoutHash(c, hs, h), next)
  {
    var c' := WithoutHash(c, hs, h);
    assert BucketOk(ix[h], h, c, hs, |names|);
    forall m ensures m in UntrackAll(tracked, ix[h]) <==> m.values in c' && c'[m.values] == m {
      forall e | e in ix[h] ensures Hash(hs, e.metric.values) == h {
        assert EntryOk(e, h, c, hs, |names|) && c[e.values].values == e.values;
      }
      if m.values in c { EntryOf(ix, c, hs, |names|, m.values); }
    }
  }

  lemma EntryOf(ix: Index, c: Contents, hs: Hasher, n: nat, v: Values)
    requires Indexes(ix, c, hs, n) && v in c
    ensures Hash(hs, v) in ix && Entry(v, c[v]) in ix[Hash(hs, v)]
  {
    var h := Hash(hs, v);
    assert Stored(ix, v, h);
    assert BucketOk(ix[h], h, c, hs, n);
    var i :| 0 <= i < |ix[h]| && ix[h][i].values == v;
    assert EntryOk(ix[h][i], h, c, hs, n);
    assert ix[h][i] in ix[h];
  }

  /** A lookup has returned what was there for full, or a new metric put there. */
  ghost predicate Created(c: Contents, c': Contents, full: Values, m: Metric, next: nat) {
    if full in c then c' == c && m == c[full] else m == Metric(next, full) && c' == c[full := m]
  }

  lemma BucketLengths(ix: Index, c: Contents, hs: Hasher, n: nat, h: int)
    requires Indexes(ix, c, hs, n)
    ensures forall j :: 0 <= j < |Bucket(ix, h)| ==> |Bucket(ix, h)[j].values| == n
  {
    if h in ix {
      assert BucketOk(ix[h], h, c, hs, n);
      forall j | 0 <= j < |ix[h]| ensures |ix[h][j].values| == n { assert EntryOk(ix[h][j], h, c, hs, n); }
    }
  }

  /** The copying loop of shrink. */
  method CopyOf(m: Index) returns (r: Index)
    ensures r == m
  {
    r := map[];
    var todo := m.Keys;
    while todo != {}
      invariant todo <= m.Keys
      invariant forall h :: h in r <==> h in m && h !in todo
      invariant forall h :: h in r ==> h in m && r[h] == m[h]
      decreases |todo|
    {
      var h := AnyOf(todo);
      r := r[h := m[h]];
      todo := todo - {h};
    }
    forall h: int ensures h in r <==> h in m {}
    forall h: int | h in r ensures r[h] == m[h] {}
    SameMap(r, m);
  }

  // ---------------------------------------------------------------- what deleteByLabels gets wrong

  /** What DeletePartialMatch promises to leave. */
  ghost function NonMatching(c: Contents, names: seq<Label>, curry: seq<Curried>, labels: Labels): Contents {
    map v | v in c && !Partial(names, curry, v, labels) :: c[v]
  }

  ghost function Matching(c: Contents, names: seq<Label>, curry: seq<Curried>, labels: Labels): set<Values> {
    set v | v in c && Partial(names, curry, v, labels)
  }

  /** Tuples with the same hash match or do not match together. */
  ghost predicate Unmixed(c: Contents, hs: Hasher, names: seq<Label>, curry: seq<Curried>, labels: Labels) {
    forall u, v :: u in c && v in c && Hash(hs, u) == Hash(hs, v) && Partial(names, curry, u, labels) ==>
      Partial(names, curry, v, labels)
  }

  /** It deletes no more than it promises exactly if no bucket mixes a match with a
      tuple that does not match. */
  lemma PartialMatchIff(c: Contents, hs: Hasher, names: seq<Label>, curry: seq<Curried>, labels: Labels)
    ensures Survivors(c, hs, Doomed(c, hs, names, curry, labels)) == NonMatching(c, names, curry, labels) <==>
      Unmixed(c, hs, names, curry, labels)
  {
    var doomed := Doomed(c, hs, names, curry, labels);
    var left, promised := Survivors(c, hs, doomed), NonMatching(c, names, curry, labels);
    if Unmixed(c, hs, names, curry, labels) {
      forall v ensures v in left <==> v in promised {
        if v in c && Hash(hs, v) in doomed {
          var u :| u in c && Partial(names, curry, u, labels) && Hash(hs, u) == Hash(hs, v);
        }
      }
      SameMap(left, promised);
    } else {
      var u, v :| u in c && v in c && Hash(hs, u) == Hash(hs, v) && Partial(names, curry, u, labels) &&
        !Partial(names, curry, v, labels);
      assert v in promised && v !in left;
    }
  }

  ghost predicate Injective(hs: Hasher, vs: set<Values>) { forall u, v :: u in vs && v in vs && Hash(hs, u) == Hash(hs, v) ==> u == v }

  ghost function Hashes(hs: Hasher, vs: set<Values>): set<int> { set v | v in vs :: Hash(hs, v) }

  lemma {:induction false} HashCount(hs: Hasher, vs: set<Values>)
    ensures |Hashes(hs, vs)| <= |vs|
    ensures |Hashes(hs, vs)| == |vs| <==> Injective(hs, vs)
    decreases |vs|
  {
    if vs != {} {
      var v :| v in vs;
      var rest := vs - {v};
      HashCount(hs, rest);
      assert Hashes(hs, vs) == Hashes(hs, rest) + {Hash(hs, v)};
      if Injective(hs, rest) && Hash(hs, v) !in Hashes(hs, rest) {
        assert Injective(hs, vs);
      } else if !Injective(hs, rest) {
        assert !Injective(hs, vs);
      } else {
        var u :| u in rest && Hash(hs, u) == Hash(hs, v);
        assert !Injective(hs, vs);
      }
    }
  }

  /** The count it returns is that of the matches exactly if no bucket has two. */
  lemma PartialCountIff(c: Contents, hs: Hasher, names: seq<Label>, curry: seq<Curried>, labels: Labels)
    ensures |Doomed(c, hs, names, curry, labels)| == |Matching(c, names, curry, labels)| <==>
      Injective(hs, Matching(c, names, curry, labels))
  {
    HashCount(hs, Matching(c, names, curry, labels));
    assert Doomed(c, hs, names, curry, labels) == Hashes(hs, Matching(c, names, curry, labels));
  }

  /** Two tuples that collide, of which one matches: both go. */
  lemma PartialMatchTakesNeighbours()
    ensures var names, x, y := [Label("l")], Label("x"), Label("y");
      var hs := Hasher(0, (h, s) => 0, h => 0);
      var c := map[[x] := Metric(0, [x]), [y] := Metric(1, [y])];
      [y] in NonMatching(c, names, [], map[Label("l") := x]) &&
      [y] !in Survivors(c, hs, Doomed(c, hs, names, [], map[Label("l") := x]))
  {
    var names, x, y := [Label("l")], Label("x"), Label("y");
    var labels := map[Label("l") := x];
    var hs := Hasher(0, (h, s) => 0, h => 0);
    var c := map[[x] := Metric(0, [x]), [y] := Metric(1, [y])];
    assert x != y by { assert x.text[0] != y.text[0]; }
    assert names[0] == Label("l") && [x][0] == x && !At([], 0);
    assert HasPair(names, [], [x], Label("l"), labels[Label("l")]);
    assert Partial(names, [], [x], labels);
    assert !HasPair(names, [], [y], Label("l"), labels[Label("l")]);
    assert Label("l") in labels;
    assert Hash(hs, [x]) == 0 && Hash(hs, [y]) == 0;
    assert [x] in c && Hash(hs, [x]) in Doomed(c, hs, names, [], labels);
  }

  /** Two tuples that collide and match: one is counted. */
  lemma PartialMatchCountsOne()
    ensures var names, x, y := [Label("l"), Label("m")], Label("x"), Label("y");
      var hs := Hasher(0, (h, s) => 0, h => 0);
      var c := map[[x, x] := Metric(0, [x, x]), [x, y] := Metric(1, [x, y])];
      var labels := map[Label("l") := x];
      |Matching(c, names, [], labels)| == 2 && |Doomed(c, hs, names, [], labels)| == 1
  {
    var names, x, y := [Label("l"), Label("m")], Label("x"), Label("y");
    var labels := map[Label("l") := x];
    var hs := Hasher(0, (h, s) => 0, h => 0);
    var c := map[[x, x] := Metric(0, [x, x]), [x, y] := Metric(1, [x, y])];
    assert x != y by { assert x.text[0] != y.text[0]; }
    assert names[0] == Label("l") && [x, x][0] == x && [x, y][0] == x && !At([], 0);
    assert HasPair(names, [], [x, x], Label("l"), x) && HasPair(names, [], [x, y], Label("l"), x);
    assert Partial(names, [], [x, x], labels) && Partial(names, [], [x, y], labels);
    assert [x, x][1] != [x, y][1];
    assert Matching(c, names, [], labels) == {[x, x], [x, y]};
    assert Hash(hs, [x, x]) == 0 && Hash(hs, [x, y]) == 0;
    assert [x, x] in c && Hash(hs, [x, x]) in Doomed(c, hs, names, [], labels);
    assert Doomed(c, hs, names, [], labels) == {0};
  }

  // ---------------------------------------------------------------- constraints

  type Constraints = map<Label, Label -> Label>

  /** compiledLabels.constrain. */
  function Constrain(cs: Constraints, name: Label, value: Label): Label { if name in cs then cs[name](value) else value }

  ghost function ConstrainedLabels(cs: Constraints, labels: Labels): Labels { map l | l in labels :: Constrain(cs, l, labels[l]) }

  /** The tuple with every value but the curried ones constrained. */
  function ConstrainedFull(cs: Constraints, names: seq<Label>, curry: seq<Curried>, full: Values): (r: Values)
    requires |full| == |names|
    ensures |r| == |full|
  {
    seq(|full|, i requires 0 <= i < |full| => if At(curry, i) then full[i] else Constrain(cs, names[i], full[i]))
  }

  /** constrainLabels. */
  method ConstrainLabels(cs: Constraints, labels: Labels) returns (r: Labels)
    ensures r == ConstrainedLabels(cs, labels)
  {
    if cs == map[] { return labels; }
    r := map[];
    var todo := labels.Keys;
    while todo != {}
      invariant todo <= labels.Keys
      invariant forall l :: l in r <==> l in labels && l !in todo
      invariant forall l :: l in r ==> l in labels && r[l] == Constrain(cs, l, labels[l])
      decreases |todo|
    {
      var l := AnyOf(todo);
      r := r[l := Constrain(cs, l, labels[l])];
      todo := todo - {l};
    }
  }

  /** constrainLabelValues runs out of values: a label is curried that lies behind all
      the values passed and as many more as are curried. */
  predicate Overruns(cs: Constraints, curry: seq<Curried>, passed: nat) {
    cs != map[] && curry != [] && curry[|curry| - 1].index >= passed + |curry|
  }

  /** Such as for labels a, b and c, with c curried, a constraint on a, and no values:
      too few, and a panic. */
  lemma NoValuesOverrun(names: seq<Label>, upper: Label -> Label)
    requires names == [Label("a"), Label("b"), Label("c")]
    ensures var curry := [Curried(2, Label("x"))];
      IsCurry(curry, |names|) && 0 + |curry| != |names| && Overruns(map[names[0] := upper], curry, 0)
  {
    var cs := map[names[0] := upper];
    assert names[0] in cs;
  }

  /** constrainLabelValues.  None is a panic. */
  method ConstrainLabelValues(cs: Constraints, names: seq<Label>, curry: seq<Curried>, lvs: Values) returns (r: Result<Values>)
    requires IsCurry(curry, |names|)
    ensures r == Panic <==> Overruns(cs, curry, |lvs|)
    ensures r != Panic ==> r.Ok? && |r.value| == |lvs|
    ensures r != Panic && |lvs| + |curry| == |names| ==> Full(r.value, curry) == ConstrainedFull(cs, names, curry, Full(lvs, curry))
  {
    if cs == map[] {
      if |lvs| + |curry| == |names| { assert ConstrainedFull(cs, names, curry, Full(lvs, curry)) == Full(lvs, curry); }
      return Ok(lvs);
    }
    var vals, ok := ConstrainEach(cs, names, curry, lvs);
    if !ok { return Panic; }
    if |lvs| + |curry| == |names| { ConstrainedDone(cs, names, curry, lvs, vals); }
    return Ok(vals);
  }

  /** Its loop. */
  method ConstrainEach(cs: Constraints, names: seq<Label>, curry: seq<Curried>, lvs: Values) returns (vals: Values, ok: bool)
    requires IsCurry(curry, |names|)
    ensures ok <==> !(curry != [] && curry[|curry| - 1].index >= |lvs| + |curry|)
    ensures ok ==> |vals| == |lvs| && ConstrainedSoFar(cs, names, curry, lvs, vals, |lvs| + |curry|)
  {
    vals := [];
    var iCurry, iLVs := 0, 0;
    BelowEnds(curry, |names|);
    for i := 0 to |lvs| + |curry|
      invariant iCurry == Below(curry, i) && iLVs == i - iCurry && iLVs == |vals| <= |lvs|
      invariant ConstrainedSoFar(cs, names, curry, lvs, vals, i)
    {
      BelowStep(curry, |names|, i);
      if iCurry < |curry| && curry[iCurry].index == i {
        iCurry := iCurry + 1;
      } else {
        if iLVs >= |lvs| {
          OverrunsAt(curry, |names|, |lvs|, i);
          return vals, false;
        }
        vals := vals + [if i < |names| then Constrain(cs, names[i], lvs[iLVs]) else lvs[iLVs]];
        iLVs := iLVs + 1;
      }
    }
    NoOverrun(curry, |names|, |lvs|);
    ok := true;
  }

  /** The values of the labels before i are constrained. */
  ghost predicate ConstrainedSoFar(cs: Constraints, names: seq<Label>, curry: seq<Curried>, lvs: Values, vals: Values, i: nat) {
    forall k :: 0 <= k < i && k < |names| && !At(curry, k) ==>
      0 <= k - Below(curry, k) < |vals| && k - Below(curry, k) < |lvs| &&
      vals[k - Below(curry, k)] == Constrain(cs, names[k], lvs[k - Below(curry, k)])
  }

  lemma ConstrainedDone(cs: Constraints, names: seq<Label>, curry: seq<Curried>, lvs: Values, vals: Values)
    requires |vals| == |lvs| && |lvs| + |curry| == |names| && ConstrainedSoFar(cs, names, curry, lvs, vals, |names|)
    ensures Full(vals, curry) == ConstrainedFull(cs, names, curry, Full(lvs, curry))
  {
  }

  /** Out of values at label i, and it is not curried. */
  lemma OverrunsAt(curry: seq<Curried>, n: nat, passed: nat, i: nat)
    requires IsCurry(curry, n) && i < passed + |curry| && !At(curry, i) && i - Below(curry, i) >= passed
    ensures curry != [] && curry[|curry| - 1].index >= passed + |curry|
  {
    if forall x :: 0 <= x < |curry| ==> curry[x].index < passed + |curry| { Room(curry, passed + |curry|, i); }
  }

  lemma NoOverrun(curry: seq<Curried>, n: nat, passed: nat)
    requires IsCurry(curry, n)
    requires passed + |curry| - Below(curry, passed + |curry|) <= passed
    ensures curry != [] ==> curry[|curry| - 1].index < passed + |curry|
    ensures passed + |curry| - Below(curry, passed + |curry|) == passed
  {
    BelowSplits(curry, n, passed + |curry|);
  }

  // ---------------------------------------------------------------- tuples and curries

  /** The tuple has the curried values. */
  ghost predicate Agrees(full: Values, curry: seq<Curried>) {
    forall x :: 0 <= x < |curry| ==> curry[x].index < |full| && full[curry[x].index] == curry[x].value
  }

  /** The values of the first i labels that are not curried. */
  function Project(full: Values, curry: seq<Curried>, i: nat): Values
    requires i <= |full|
  {
    if i == 0 then [] else Project(full, curry, i - 1) + if At(curry, i - 1) then [] else [full[i - 1]]
  }

  lemma {:induction false} ProjectHas(full: Values, curry: seq<Curried>, i: nat)
    requires IsCurry(curry, |full|) && i <= |full|
    ensures |Project(full, curry, i)| == i - Below(curry, i)
    ensures forall k :: 0 <= k < i && !At(curry, k) ==>
      0 <= k - Below(curry, k) < i - Below(curry, i) && Project(full, curry, i)[k - Below(curry, k)] == full[k]
  {
    BelowEnds(curry, |full|);
    if i > 0 {
      ProjectHas(full, curry, i - 1);
      BelowStep(curry, |full|, i - 1);
    }
  }

  /** Inlining the curried values gives back every tuple that agrees with them. */
  lemma InlineProject(full: Values, curry: seq<Curried>)
    requires IsCurry(curry, |full|) && Agrees(full, curry)
    ensures |Project(full, curry, |full|)| == |full| - |curry|
    ensures Full(Project(full, curry, |full|), curry) == full
  {
    BelowEnds(curry, |full|);
    ProjectHas(full, curry, |full|);
    var vals := Project(full, curry, |full|);
    forall k | 0 <= k < |full| ensures Full(vals, curry)[k] == full[k] {
      if At(curry, k) { assert full[curry[Below(curry, k)].index] == curry[Below(curry, k)].value; }
    }
  }

  /** The curry that CurryWith makes of an old one. */
  ghost predicate Extends(curry': seq<Curried>, curry: seq<Curried>, names: seq<Label>, cs: Constraints, labels: Labels, n: nat)
    requires n <= |names|
  {
    forall i :: 0 <= i < n ==> ExtendsAt(curry', curry, names, cs, labels, i)
  }

  ghost predicate ExtendsAt(curry': seq<Curried>, curry: seq<Curried>, names: seq<Label>, cs: Constraints, labels: Labels, i: nat)
    requires i < |names|
  {
    && (At(curry', i) <==> At(curry, i) || names[i] in labels)
    && (At(curry, i) ==> At(curry', i) && curry'[Below(curry', i)] == curry[Below(curry, i)])
    && (!At(curry, i) && names[i] in labels ==> At(curry', i) && curry'[Below(curry', i)].value == Constrain(cs, names[i], labels[names[i]]))
  }

  /** What a further curried vector calls a tuple, the vector it was made from can
      call as well: the same tuple, with the values of the further labels. */
  lemma CurryOfCurry(names: seq<Label>, cs: Constraints, curry: seq<Curried>, curry': seq<Curried>, labels: Labels, lvs': Values)
    requires IsCurry(curry, |names|) && IsCurry(curry', |names|) && Extends(curry', curry, names, cs, labels, |names|)
    requires |lvs'| + |curry'| == |names|
    ensures var full := Full(lvs', curry'); var lvs := Project(full, curry, |full|);
      && |lvs| + |curry| == |names| && Full(lvs, curry) == full
      && forall i :: 0 <= i < |names| && !At(curry, i) && names[i] in labels ==> full[i] == Constrain(cs, names[i], labels[names[i]])
  {
    var full := Full(lvs', curry');
    forall x | 0 <= x < |curry| ensures full[curry[x].index] == curry[x].value {
      var i := curry[x].index;
      BelowIs(curry, |names|, i, x);
      assert ExtendsAt(curry', curry, names, cs, labels, i);
    }
    InlineProject(full, curry);
    forall i | 0 <= i < |names| && !At(curry, i) && names[i] in labels ensures full[i] == Constrain(cs, names[i], labels[names[i]]) {
      assert ExtendsAt(curry', curry, names, cs, labels, i);
    }
  }

  /** By name and by value reach the same tuples. */
  lemma ByNameIsByValue(names: seq<Label>, curry: seq<Curried>, labels: Labels)
    requires IsCurry(curry, |names|) && Accepts(names, curry, labels)
    ensures var full := FullOf(names, curry, labels); var lvs := Project(full, curry, |full|);
      |lvs| + |curry| == |names| && Full(lvs, curry) == full
  {
    var full := FullOf(names, curry, labels);
    forall x | 0 <= x < |curry| ensures full[curry[x].index] == curry[x].value { BelowIs(curry, |names|, curry[x].index, x); }
    InlineProject(full, curry);
  }

  // ---------------------------------------------------------------- CurryWith

  ghost predicate AllBelow(curry: seq<Curried>, i: nat) { forall x :: 0 <= x < |curry| ==> curry[x].index < i }

  lemma AppendCurried(c: seq<Curried>, n: nat, i: nat, value: Label, k: nat)
    requires IsCurry(c, n) && AllBelow(c, i) && i < n && k <= i
    ensures Below(c, i) == |c| && !At(c, i)
    ensures Below(c + [Curried(i, value)], k) == Below(c, k)
    ensures k < i ==> (At(c + [Curried(i, value)], k) <==> At(c, k))
    ensures At(c, k) && k < i ==> (c + [Curried(i, value)])[Below(c, k)] == c[Below(c, k)]
  {
    BelowIs(c, n, i, |c|);
    assert (c + [Curried(i, value)])[..|c|] == c;
  }

  /** The loop of CurryWith: label i stays as it is, gets curried, or stays open. */
  lemma ExtendStep(c: seq<Curried>, curry: seq<Curried>, names: seq<Label>, cs: Constraints, labels: Labels, i: nat, value: Label)
    requires IsCurry(curry, |names|) && IsCurry(c, |names|) && AllBelow(c, i) && i < |names|
    requires Extends(c, curry, names, cs, labels, i)
    ensures !At(curry, i) && names[i] !in labels ==> Extends(c, curry, names, cs, labels, i + 1)
    ensures At(curry, i) && names[i] !in labels && value == curry[Below(curry, i)].value ==>
      Extends(c + [Curried(i, value)], curry, names, cs, labels, i + 1)
    ensures !At(curry, i) && names[i] in labels && value == Constrain(cs, names[i], labels[names[i]]) ==>
      Extends(c + [Curried(i, value)], curry, names, cs, labels, i + 1)
  {
    var c' := c + [Curried(i, value)];
    AppendCurried(c, |names|, i, value, i);
    forall k | 0 <= k < i ensures ExtendsAt(c', curry, names, cs, labels, k) {
      assert ExtendsAt(c, curry, names, cs, labels, k);
      AppendCurried(c, |names|, i, value, k);
    }
  }

  /** The labels found among the first i names. */
  ghost function Found(names: seq<Label>, labels: Labels, i: nat): set<Label>
    requires i <= |names|
  {
    set k | 0 <= k < i && names[k] in labels :: names[k]
  }

  lemma FoundStep(names: seq<Label>, labels: Labels, i: nat)
    requires Distinct(names) && i < |names|
    ensures Found(names, labels, i + 1) == Found(names, labels, i) + if names[i] in labels then {names[i]} else {}
    ensures names[i] !in Found(names, labels, i)
  {
  }

  /** Nothing unknown is left exactly if all labels are open ones. */
  lemma CurryIff(names: seq<Label>, curry: seq<Curried>, labels: Labels)
    requires Distinct(names)
    ensures NoneTwice(names, curry, labels, |names|) ==> (|labels| <= |Found(names, labels, |names|)| <==> labels.Keys <= Open(names, curry))
  {
    var found := Found(names, labels, |names|);
    assert found <= labels.Keys && |labels| == |labels.Keys|;
    if labels.Keys <= found {
      SameKeys(labels.Keys, found);
      assert NoneTwice(names, curry, labels, |names|) ==> found <= Open(names, curry);
    } else {
      assert labels.Keys == found + (labels.Keys - found);
      assert Open(names, curry) * labels.Keys <= found;
    }
  }

  lemma SameKeys<T>(a: set<T>, b: set<T>)
    requires a <= b && b <= a
    ensures |a| == |b|
  {
    assert a == b;
  }

  /** No label is curried twice, among the first i. */
  ghost predicate NoneTwice(names: seq<Label>, curry: seq<Curried>, labels: Labels, i: nat)
    requires i <= |names|
  {
    forall k :: 0 <= k < i && names[k] in labels ==> !At(curry, k)
  }

  /** The state of CurryWith's loop before label i. */
  ghost predicate Extending(c: seq<Curried>, curry: seq<Curried>, names: seq<Label>, cs: Constraints, labels: Labels, i: nat)
    requires i <= |names|
  {
    && IsCurry(c, |names|) && AllBelow(c, i) && Extends(c, curry, names, cs, labels, i)
    && |c| == Below(curry, i) + |Found(names, labels, i)|
  }

  lemma ExtendingStep(c: seq<Curried>, curry: seq<Curried>, names: seq<Label>, cs: Constraints, labels: Labels, i: nat)
    requires Distinct(names) && IsCurry(curry, |names|) && i < |names| && Extending(c, curry, names, cs, labels, i)
    requires !(At(curry, i) && names[i] in labels)
    ensures At(curry, i) ==> Extending(c + [curry[Below(curry, i)]], curry, names, cs, labels, i + 1)
    ensures !At(curry, i) && names[i] in labels ==>
      Extending(c + [Curried(i, Constrain(cs, names[i], labels[names[i]]))], curry, names, cs, labels, i + 1)
    ensures !At(curry, i) && names[i] !in labels ==> Extending(c, curry, names, cs, labels, i + 1)
  {
    BelowStep(curry, |names|, i);
    FoundStep(names, labels, i);
    var value := if At(curry, i) then curry[Below(curry, i)].value
      else if names[i] in labels then Constrain(cs, names[i], labels[names[i]]) else names[i];
    ExtendStep(c, curry, names, cs, labels, i, value);
    assert At(curry, i) ==> curry[Below(curry, i)] == Curried(i, value);
  }

  /** CurryWith's loop over the variable labels. */
  method ExtendCurry(names: seq<Label>, cs: Constraints, oldCurry: seq<Curried>, labels: Labels) returns (newCurry: seq<Curried>, ok: bool)
    requires Distinct(names) && IsCurry(oldCurry, |names|)
    ensures ok <==> NoneTwice(names, oldCurry, labels, |names|)
    ensures ok ==> Extending(newCurry, oldCurry, names, cs, labels, |names|)
  {
    newCurry := [];
    var iCurry := 0;
    BelowEnds(oldCurry, |names|);
    for i := 0 to |names|
      invariant iCurry == Below(oldCurry, i)
      invariant Extending(newCurry, oldCurry, names, cs, labels, i) && NoneTwice(names, oldCurry, labels, i)
    {
      BelowStep(oldCurry, |names|, i);
      var curried := iCurry < |oldCurry| && oldCurry[iCurry].index == i;
      if curried && names[i] in labels { return newCurry, false; }
      ExtendingStep(newCurry, oldCurry, names, cs, labels, i);
      if curried {
        newCurry := newCurry + [oldCurry[iCurry]];
        iCurry := iCurry + 1;
      } else if names[i] in labels {
        newCurry := newCurry + [Curried(i, Constrain(cs, names[i], labels[names[i]]))];
      }
    }
    ok := true;
  }

  // ---------------------------------------------------------------- the vector

  datatype Pair = Pair(name: Label, value: Label)

  /** The first pair with the name. */
  ghost predicate IsValueOf(pairs: seq<Pair>, name: Label, value: Label) {
    exists i :: 0 <= i < |pairs| && pairs[i] == Pair(name, value) && forall j :: 0 <= j < i ==> pairs[j].name != name
  }

  ghost predicate Named(pairs: seq<Pair>, name: Label) { exists i :: 0 <= i < |pairs| && pairs[i].name == name }

  /** collectedLabelValues. */
  method CollectedLabelValues(names: seq<Label>, pairs: seq<Pair>) returns (lvs: Values, found: bool)
    ensures found <==> forall i :: 0 <= i < |names| ==> Named(pairs, names[i])
    ensures found ==> |lvs| == |names| && forall i :: 0 <= i < |names| ==> IsValueOf(pairs, names[i], lvs[i])
  {
    lvs := [];
    for i := 0 to |names|
      invariant |lvs| == i && forall k :: 0 <= k < i ==> Named(pairs, names[k]) && IsValueOf(pairs, names[k], lvs[k])
    {
      var p := FindPair(pairs, names[i]);
      if p >= |pairs| { return lvs, false; }
      lvs := lvs + [pairs[p].value];
    }
    found := true;
  }

  method FindPair(pairs: seq<Pair>, name: Label) returns (p: nat)
    ensures p <= |pairs| && forall j :: 0 <= j < p ==> pairs[j].name != name
    ensures p < |pairs| ==> pairs[p].name == name && IsValueOf(pairs, name, pairs[p].value)
    ensures p == |pairs| ==> !Named(pairs, name)
  {
    p := 0;
    while p < |pairs| && pairs[p].name != name
      invariant p <= |pairs| && forall j :: 0 <= j < p ==> pairs[j].name != name
    {
      p := p + 1;
    }
    if p < |pairs| { assert pairs[p] == Pair(name, pairs[p].value); }
  }

  /** DeleteCollectedIf's loop, which takes the curried values out again. */
  method WithoutCurried(lvs: Values, curry: seq<Curried>) returns (vals: Values, ok: bool)
    requires IsCurry(curry, |lvs|)
    ensures ok <==> Agrees(lvs, curry)
    ensures ok ==> |vals| == |lvs| - |curry| && Full(vals, curry) == lvs
  {
    if |curry| == 0 {
      FullOfNothing(lvs);
      return lvs, true;
    }
    vals := [];
    var iCurry := 0;
    BelowEnds(curry, |lvs|);
    for i := 0 to |lvs|
      invariant iCurry == Below(curry, i) && vals == Project(lvs, curry, i)
      invariant forall x :: 0 <= x < iCurry ==> lvs[curry[x].index] == curry[x].value
    {
      BelowStep(curry, |lvs|, i);
      if iCurry < |curry| && curry[iCurry].index == i {
        if lvs[i] != curry[iCurry].value { return vals, false; }
        iCurry := iCurry + 1;
      } else {
        vals := vals + [lvs[i]];
      }
    }
    InlineProject(lvs, curry);
    ok := true;
  }

  /** MetricVec: a view of a metricMap under some curried labels. */
  class MetricVec {
    const m: MetricMap
    const constraints: Constraints
    const curry: seq<Curried>

    ghost predicate Valid()
      reads this, m
    {
      m.Valid() && IsCurry(curry, |m.names|)
    }

    constructor (m: MetricMap, constraints: Constraints, curry: seq<Curried>)
      requires m.Valid() && IsCurry(curry, |m.names|)
      ensures this.m == m && this.constraints == constraints && this.curry == curry && Valid()
    {
      this.m, this.constraints, this.curry := m, constraints, curry;
    }

    /** The tuple lvs stand for. */
    ghost function Key(lvs: Values): Values
      requires |lvs| + |curry| == |m.names|
    {
      ConstrainedFull(constraints, m.names, curry, Full(lvs, curry))
    }

    /** The tuple labels stand for. */
    ghost function KeyOf(labels: Labels): Values { FullOf(m.names, curry, ConstrainedLabels(constraints, labels)) }

    /** The names are exactly those of the labels that are not curried. */
    ghost predicate Fits(labels: Labels) { labels.Keys == Open(m.names, curry) }

    method GetMetricWithLabelValues(lvs: Values) returns (r: Result<Metric>)
      requires Valid()
      modifies m
      ensures Valid() && (r == Panic <==> Overruns(constraints, curry, |lvs|))
      ensures r.Ok? <==> |lvs| + |curry| == |m.names|
      ensures r.Ok? ==> Created(old(m.contents), m.contents, Key(lvs), r.value, old(m.next))
      ensures !r.Ok? ==> m.contents == old(m.contents)
    {
      var constrained := ConstrainLabelValues(constraints, m.names, curry, lvs);
      FullNeverOverruns(curry, |m.names|, |lvs|);
      if constrained == Panic { return Panic; }
      var h := HashLabelValues(m.hs, |m.names|, curry, constrained.value);
      if h.Error? { return Error; }
      var metric := m.GetOrCreateWithLabelValues(h.value, constrained.value, curry);
      return Ok(metric);
    }

    method GetMetricWith(labels: Labels) returns (r: Result<Metric>)
      requires Valid()
      modifies m
      ensures Valid() && r != Panic && (r.Ok? <==> Fits(labels))
      ensures r.Ok? ==> Created(old(m.contents), m.contents, KeyOf(labels), r.value, old(m.next))
      ensures !r.Ok? ==> m.contents == old(m.contents)
    {
      var constrained := ConstrainLabels(constraints, labels);
      AcceptsIff(m.names, curry, constrained);
      assert constrained.Keys == labels.Keys;
      var h := HashLabels(m.hs, m.names, curry, constrained);
      if h.Error? { return Error; }
      var metric := m.GetOrCreateWithLabels(h.value, constrained, curry);
      return Ok(metric);
    }

    method DeleteLabelValues(lvs: Values) returns (r: Result<bool>)
      requires Valid()
      modifies m
      ensures Valid() && (r == Panic <==> Overruns(constraints, curry, |lvs|)) && r != Error
      ensures r.Ok? ==> r.value == (|lvs| + |curry| == |m.names| && Key(lvs) in old(m.contents))
      ensures m.contents == if |lvs| + |curry| == |m.names| then old(m.contents) - {Key(lvs)} else old(m.contents)
    {
      var constrained := ConstrainLabelValues(constraints, m.names, curry, lvs);
      FullNeverOverruns(curry, |m.names|, |lvs|);
      if constrained == Panic { return Panic; }
      var h := HashLabelValues(m.hs, |m.names|, curry, constrained.value);
      if h.Error? { return Ok(false); }
      var deleted := m.DeleteByHashWithLabelValues(h.value, constrained.value, curry);
      return Ok(deleted);
    }

    method Delete(labels: Labels) returns (deleted: bool)
      requires Valid()
      modifies m
      ensures Valid() && deleted == (Fits(labels) && KeyOf(labels) in old(m.contents))
      ensures m.contents == if Fits(labels) then old(m.contents) - {KeyOf(labels)} else old(m.contents)
    {
      var constrained := ConstrainLabels(constraints, labels);
      AcceptsIff(m.names, curry, constrained);
      assert constrained.Keys == labels.Keys;
      var h := HashLabels(m.hs, m.names, curry, constrained);
      if h.Error? { return false; }
      deleted := m.DeleteByHashWithLabels(h.value, constrained, curry);
    }

    method DeletePartialMatch(labels: Labels) returns (numDeleted: nat)
      requires Valid()
      modifies m
      ensures Valid()
      ensures var doomed := Doomed(old(m.contents), m.hs, m.names, curry, ConstrainedLabels(constraints, labels));
        m.contents == Survivors(old(m.contents), m.hs, doomed) && numDeleted == |doomed|
    {
      var constrained := ConstrainLabels(constraints, labels);
      numDeleted := m.DeleteByLabels(constrained, curry);
    }

    /** DeleteCollectedIf: full is the tuple in the labels, if they name all of it. */
    method DeleteCollectedIf(labels: seq<Pair>, ok: Metric -> bool) returns (deleted: bool, ghost full: Values)
      requires Valid()
      modifies m
      ensures Valid()
      ensures deleted <==>
        && (forall i :: 0 <= i < |m.names| ==> Named(labels, m.names[i]))
        && Agrees(full, curry) && full in old(m.contents) && ok(old(m.contents)[full])
      ensures (forall i :: 0 <= i < |m.names| ==> Named(labels, m.names[i])) ==>
        |full| == |m.names| && forall i :: 0 <= i < |m.names| ==> IsValueOf(labels, m.names[i], full[i])
      ensures m.contents == if deleted then old(m.contents) - {full} else old(m.contents)
    {
      var lvs, found := CollectedLabelValues(m.names, labels);
      full := lvs;
      if !found { return false, full; }
      var vals, inside := WithoutCurried(lvs, curry);
      if !inside { return false, full; }
      var h := HashLabelValues(m.hs, |m.names|, curry, vals);
      if h.Error? { return false, full; }
      deleted := m.DeleteCollectedIf(h.value, lvs, ok);
    }

    /** CurryWith: for labels that are not yet curried, and no others. */
    method CurryWith(labels: Labels) returns (r: Result<MetricVec>)
      requires Valid()
      ensures r != Panic && (r.Ok? <==> labels.Keys <= Open(m.names, curry))
      ensures r.Ok? ==> r.value.m == m && r.value.constraints == constraints && r.value.Valid()
      ensures r.Ok? ==> Extends(r.value.curry, curry, m.names, constraints, labels, |m.names|)
    {
      var newCurry, ok := ExtendCurry(m.names, constraints, curry, labels);
      CurryIff(m.names, curry, labels);
      BelowEnds(curry, |m.names|);
      if !ok {
        TwiceIsNotOpen(m.names, curry, labels);
        return Error;
      }
      var l := |curry| + |labels| - |newCurry|;
      if l > 0 { return Error; }
      var v := new MetricVec(m, constraints, newCurry);
      return Ok(v);
    }
  }

  lemma FullNeverOverruns(curry: seq<Curried>, n: nat, passed: nat)
    requires IsCurry(curry, n)
    ensures curry != [] && passed + |curry| == n ==> curry[|curry| - 1].index < passed + |curry|
  {
  }

  lemma TwiceIsNotOpen(names: seq<Label>, curry: seq<Curried>, labels: Labels)
    requires Distinct(names) && !NoneTwice(names, curry, labels, |names|)
    ensures !(labels.Keys <= Open(names, curry))
  {
    var k :| 0 <= k < |names| && names[k] in labels && At(curry, k);
    assert names[k] !in Open(names, curry);
  }
}
