/** Where change tracking keeps its instances (prometheus/changetracking.go): the
    slice all of every shard, each instance's index in it packed into one word with
    the mark of a deleted one, and RangeBucket, which walks it.  Every method below
    is one critical section or one atomic update; the methods for one instance come
    in the order its Vec's lock gives them, those for different instances in any
    order. */
module ShardIndex {

  const SHARDS: nat := 256

  /** posDead, 1 << 31. */
  const POS_DEAD: nat := 0x8000_0000

  // ---------------------------------------------------------------- the packed word

  /** pos: the index plus one in the lower 31 bits, the mark above them. */
  predicate Word(v: nat) { v < 2 * POS_DEAD }

  function Dead(v: nat): bool { v / POS_DEAD % 2 == 1 }

  function Index(v: nat): int { v % POS_DEAD - 1 }

  /** v & posDead | uint32(i + 1): an index too large for its bits is lost in the mark. */
  function SetIndex(v: nat, i: int): (r: nat)
    requires Word(v) && -1 <= i < POS_DEAD
    ensures Word(r)
    ensures Dead(r) == Dead(v) && Index(r) == i <==> i < POS_DEAD - 1
    ensures i == POS_DEAD - 1 ==> Dead(r) && Index(r) == -1
  {
    if i == POS_DEAD - 1 then POS_DEAD else v / POS_DEAD * POS_DEAD + (i + 1)
  }

  /** v | posDead. */
  function SetDead(v: nat): (r: nat)
    requires Word(v)
    ensures Word(r) && Dead(r) && Index(r) == Index(v)
  {
    POS_DEAD + v % POS_DEAD
  }

  /** v &^ posDead. */
  function ClearDeadBit(v: nat): (r: nat)
    requires Word(v)
    ensures Word(r) && !Dead(r) && Index(r) == Index(v)
  {
    v % POS_DEAD
  }

  // ---------------------------------------------------------------- the index

  datatype Inst = Inst(shard: nat, pos: nat)

  /** Alive: in its Vec.  Dying: deleted from it and marked, not yet removed from all.
      Gone: in no slice.  Reviving: back in all, the mark not yet cleared. */
  datatype Phase = Alive | Dying | Gone | Reviving

  type All = seq<seq<nat>>

  ghost predicate InstOk(all: All, insts: seq<Inst>, phase: seq<Phase>, d: nat)
    requires |all| == SHARDS && |phase| == |insts| && d < |insts|
  {
    var x := insts[d];
    && x.shard < SHARDS && Word(x.pos) && (Dead(x.pos) <==> phase[d] != Alive)
    && if phase[d] == Gone then Index(x.pos) == -1
       else 0 <= Index(x.pos) < |all[x.shard]| && all[x.shard][Index(x.pos)] == d
  }

  ghost predicate SlotOk(all: All, insts: seq<Inst>, phase: seq<Phase>, s: nat, i: nat)
    requires |all| == SHARDS && |phase| == |insts| && s < SHARDS && i < |all[s]|
  {
    var d := all[s][i];
    d < |insts| && insts[d].shard == s && Index(insts[d].pos) == i && phase[d] != Gone
  }

  /** Every instance that is not gone is at its index, and nothing else is in all. */
  ghost predicate Agrees(all: All, insts: seq<Inst>, phase: seq<Phase>) {
    && |all| == SHARDS && |phase| == |insts|
    && (forall d :: 0 <= d < |insts| ==> InstOk(all, insts, phase, d))
    && (forall s, i :: 0 <= s < SHARDS && 0 <= i < |all[s]| ==> SlotOk(all, insts, phase, s, i))
    && (forall s :: 0 <= s < SHARDS ==> |all[s]| < POS_DEAD)
  }

  /** untrackMetric's swap-remove. */
  function SwapRemoved(xs: seq<nat>, i: nat): seq<nat>
    requires i < |xs|
  {
    xs[i := xs[|xs| - 1]][..|xs| - 1]
  }

  lemma AppendAgrees(all: All, insts: seq<Inst>, phase: seq<Phase>, d: nat, x: Inst, p: Phase)
    requires Agrees(all, insts, phase) && d <= |insts| && x.shard < SHARDS && |all[x.shard]| < POS_DEAD - 1
    requires d < |insts| ==> phase[d] == Gone && insts[d].shard == x.shard
    requires Word(x.pos) && Index(x.pos) == |all[x.shard]| && p != Gone && (Dead(x.pos) <==> p != Alive)
    ensures Agrees(all[x.shard := all[x.shard] + [d]],
                   if d < |insts| then insts[d := x] else insts + [x], if d < |insts| then phase[d := p] else phase + [p])
  {
    var all' := all[x.shard := all[x.shard] + [d]];
    var insts' := if d < |insts| then insts[d := x] else insts + [x];
    var phase' := if d < |insts| then phase[d := p] else phase + [p];
    forall e | 0 <= e < |insts'| ensures InstOk(all', insts', phase', e) {
      if e != d { assert InstOk(all, insts, phase, e); }
    }
    forall s, i | 0 <= s < SHARDS && 0 <= i < |all'[s]| ensures SlotOk(all', insts', phase', s, i) {
      if i < |all[s]| { assert SlotOk(all, insts, phase, s, i); }
    }
  }

  /** d leaves all, and the last of its shard takes its place. */
  function Moved(insts: seq<Inst>, d: nat, last: nat, i: nat): seq<Inst>
    requires d < |insts| && last < |insts| && i < POS_DEAD - 1 && Word(insts[d].pos) && Word(insts[last].pos)
  {
    var insts1 := insts[last := insts[last].(pos := SetIndex(insts[last].pos, i))];
    insts1[d := insts1[d].(pos := SetIndex(insts1[d].pos, -1))]
  }

  lemma RemoveAgrees(all: All, insts: seq<Inst>, phase: seq<Phase>, d: nat)
    requires Agrees(all, insts, phase) && d < |insts| && phase[d] == Dying
    ensures var s, i := insts[d].shard, Index(insts[d].pos);
      && InstOk(all, insts, phase, d) && SlotOk(all, insts, phase, s, |all[s]| - 1)
      && InstOk(all, insts, phase, all[s][|all[s]| - 1]) && i < POS_DEAD - 1
      && Agrees(all[s := SwapRemoved(all[s], i)], Moved(insts, d, all[s][|all[s]| - 1], i), phase[d := Gone])
  {
    assert InstOk(all, insts, phase, d);
    var s, i := insts[d].shard, Index(insts[d].pos);
    assert SlotOk(all, insts, phase, s, |all[s]| - 1);
    var last := all[s][|all[s]| - 1];
    assert InstOk(all, insts, phase, last);
    var all', insts', phase' := all[s := SwapRemoved(all[s], i)], Moved(insts, d, last, i), phase[d := Gone];
    forall e | 0 <= e < |insts'| ensures InstOk(all', insts', phase', e) {
      assert InstOk(all, insts, phase, e);
    }
    forall s', j | 0 <= s' < SHARDS && 0 <= j < |all'[s']| ensures SlotOk(all', insts', phase', s', j) {
      assert SlotOk(all, insts, phase, s', j);
    }
  }

  lemma MarkAgrees(all: All, insts: seq<Inst>, phase: seq<Phase>, d: nat, v: nat, p: Phase)
    requires Agrees(all, insts, phase) && d < |insts| && phase[d] != Gone && p != Gone
    requires Word(v) && Index(v) == Index(insts[d].pos) && (Dead(v) <==> p != Alive)
    ensures Agrees(all, insts[d := insts[d].(pos := v)], phase[d := p])
  {
    var insts', phase' := insts[d := insts[d].(pos := v)], phase[d := p];
    forall e | 0 <= e < |insts'| ensures InstOk(all, insts', phase', e) { assert InstOk(all, insts, phase, e); }
    forall s, j | 0 <= s < SHARDS && 0 <= j < |all[s]| ensures SlotOk(all, insts', phase', s, j) {
      assert SlotOk(all, insts, phase, s, j);
    }
  }

  class Tracker {
    var all: All
    var insts: seq<Inst>
    ghost var phase: seq<Phase>

    ghost predicate Valid()
      reads this
    {
      Agrees(all, insts, phase)
    }

    constructor ()
      ensures Valid() && insts == []
    {
      all, insts, phase := seq(SHARDS, i => []), [], [];
    }

    /** trackMetric's critical section.  Not ok is its panic. */
    method Track(hash: nat) returns (d: nat, ok: bool)
      requires Valid()
      modifies this
      ensures Valid() && ok == (|old(all)[hash % SHARDS]| < POS_DEAD - 1)
      ensures ok ==> d == |old(insts)| && |insts| == d + 1 && insts[..d] == old(insts) && phase == old(phase) + [Alive]
      ensures !ok ==> unchanged(this)
    {
      var s := hash % SHARDS;
      d := |insts|;
      if |all[s]| >= POS_DEAD - 1 { return d, false; }
      var x := Inst(s, SetIndex(0, |all[s]|));
      AppendAgrees(all, insts, phase, d, x, Alive);
      all := all[s := all[s] + [d]];
      insts := insts + [x];
      phase := phase + [Alive];
      ok := true;
    }

    /** markDead: untrackMetric goes on only if it was not marked before. */
    method MarkDead(d: nat) returns (first: bool)
      requires Valid() && d < |insts|
      modifies this`insts, this`phase
      ensures Valid() && |insts| == |old(insts)| && first == (old(phase)[d] == Alive)
      ensures phase == if first then old(phase)[d := Dying] else old(phase)
    {
      assert InstOk(all, insts, phase, d);
      if Dead(insts[d].pos) { return false; }
      MarkAgrees(all, insts, phase, d, SetDead(insts[d].pos), Dying);
      insts := insts[d := insts[d].(pos := SetDead(insts[d].pos))];
      phase := phase[d := Dying];
      return true;
    }

    /** The rest of untrackMetric, under the shard's lock. */
    method Remove(d: nat)
      requires Valid() && d < |insts| && phase[d] == Dying
      modifies this
      ensures Valid() && |insts| == |old(insts)| && phase == old(phase)[d := Gone]
    {
      RemoveAgrees(all, insts, phase, d);
      var s := insts[d].shard;
      var i := Index(insts[d].pos);
      if 0 <= i < |all[s]| && all[s][i] == d {
        var last := |all[s]| - 1;
        var moved := all[s][last];
        all := all[s := all[s][i := moved]];
        insts := insts[moved := insts[moved].(pos := SetIndex(insts[moved].pos, i))];
        all := all[s := all[s][..last]];
      }
      insts := insts[d := insts[d].(pos := SetIndex(insts[d].pos, -1))];
      phase := phase[d := Gone];
      assert all == old(all)[s := SwapRemoved(old(all)[s], i)];
    }

    /** The shard of d can index one more, which ReviveTracked does not check. */
    ghost predicate HasRoom(d: nat)
      reads this
      requires d < |insts|
    {
      insts[d].shard < |all| && |all[insts[d].shard]| < POS_DEAD - 1
    }

    /** ReviveTracked puts d back in its shard's slice, where its index finds it exactly if
        the shard can index it. */
    method Reinsert(d: nat)
      requires Valid() && d < |insts| && phase[d] == Gone
      modifies this
      ensures Valid() <==> old(HasRoom(d))
      ensures |insts| == |old(insts)| && phase == old(phase)[d := Reviving]
      ensures insts[d].shard == old(insts)[d].shard < SHARDS
      ensures |all| == |old(all)| && all == old(all)[insts[d].shard := old(all)[insts[d].shard] + [d]]
      ensures !old(HasRoom(d)) ==> Index(insts[d].pos) == -1
    {
      assert InstOk(all, insts, phase, d);
      var s := insts[d].shard;
      var x := insts[d].(pos := SetIndex(insts[d].pos, |all[s]|));
      if HasRoom(d) { AppendAgrees(all, insts, phase, d, x, Reviving); }
      insts := insts[d := x];
      all := all[s := all[s] + [d]];
      phase := phase[d := Reviving];
      if Index(x.pos) == -1 { assert !InstOk(all, insts, phase, d); }
    }

    /** clearDead. */
    method ClearDead(d: nat)
      requires Valid() && d < |insts| && phase[d] == Reviving
      modifies this`insts, this`phase
      ensures Valid() && |insts| == |old(insts)| && phase == old(phase)[d := Alive]
    {
      assert InstOk(all, insts, phase, d);
      MarkAgrees(all, insts, phase, d, ClearDeadBit(insts[d].pos), Alive);
      insts := insts[d := insts[d].(pos := ClearDeadBit(insts[d].pos))];
      phase := phase[d := Alive];
    }

    /** RangeBucket: the live instances of every buckets-th shard, in order. */
    method RangeBucket(bucket: nat, buckets: int) returns (visited: seq<nat>)
      requires Valid()
      ensures visited == if buckets <= 0 then [] else Visits(all, insts, bucket % buckets, buckets)
    {
      visited := [];
      if buckets <= 0 { return; }
      var i := bucket % buckets;
      while i < SHARDS
        invariant 0 <= i
        invariant visited + Visits(all, insts, i, buckets) == Visits(all, insts, bucket % buckets, buckets)
        decreases SHARDS - i
      {
        var live := [];
        for j := 0 to |all[i]|
          invariant live == LiveOf(insts, all[i][..j])
        {
          assert SlotOk(all, insts, phase, i, j);
          assert all[i][..j + 1][..j] == all[i][..j];
          if !Dead(insts[all[i][j]].pos) { live := live + [all[i][j]]; }
        }
        assert all[i][..|all[i]|] == all[i];
        visited := visited + live;
        i := i + buckets;
      }
    }
  }

  // ---------------------------------------------------------------- RangeBucket

  /** The instances that are not marked, in order. */
  function LiveOf(insts: seq<Inst>, xs: seq<nat>): seq<nat> {
    if xs == [] then []
    else
      var d := xs[|xs| - 1];
      LiveOf(insts, xs[..|xs| - 1]) + if d < |insts| && !Dead(insts[d].pos) then [d] else []
  }

  function Visits(all: All, insts: seq<Inst>, i: nat, buckets: int): seq<nat>
    requires |all| == SHARDS && buckets > 0
    decreases SHARDS - i
  {
    if i >= SHARDS then [] else LiveOf(insts, all[i]) + Visits(all, insts, i + buckets, buckets)
  }

  /** How often d is in xs. */
  function Count(xs: seq<nat>, d: nat): nat { multiset(xs)[d] }

  lemma {:induction false} LiveOfCount(insts: seq<Inst>, xs: seq<nat>, d: nat)
    requires forall i, j :: 0 <= i < j < |xs| ==> xs[i] != xs[j]
    ensures Count(LiveOf(insts, xs), d) == if d in xs && d < |insts| && !Dead(insts[d].pos) then 1 else 0
  {
    if xs != [] {
      var rest, last := xs[..|xs| - 1], xs[|xs| - 1];
      LiveOfCount(insts, rest, d);
      assert xs == rest + [last];
    }
  }

  /** A shard's walk visits a live instance of the shard once, and no other. */
  lemma ShardCount(all: All, insts: seq<Inst>, phase: seq<Phase>, s: nat, d: nat)
    requires Agrees(all, insts, phase) && s < SHARDS && d < |insts|
    ensures Count(LiveOf(insts, all[s]), d) == if insts[d].shard == s && phase[d] == Alive then 1 else 0
  {
    forall i, j | 0 <= i < j < |all[s]| ensures all[s][i] != all[s][j] {
      assert SlotOk(all, insts, phase, s, i) && SlotOk(all, insts, phase, s, j);
    }
    LiveOfCount(insts, all[s], d);
    assert InstOk(all, insts, phase, d);
    if d in all[s] {
      var i :| 0 <= i < |all[s]| && all[s][i] == d;
      assert SlotOk(all, insts, phase, s, i);
    }
  }

  lemma ModPlus(x: int, n: int)
    requires n > 0
    ensures (x + n) % n == x % n
  {
    var q := x / n;
    Unique(x + n, n, q + 1, x % n);
  }

  lemma NotBelow(a: int, n: int)
    requires a >= 1 && n > 0
    ensures a * n >= n
  {
    assert a * n == (a - 1) * n + n && (a - 1) * n >= 0;
  }

  lemma ZeroFactor(k: int, n: int)
    requires n > 0 && -n < k * n < n
    ensures k == 0
  {
    assert (-k) * n == -(k * n);
    if k >= 1 { NotBelow(k, n); } else if k <= -1 { NotBelow(-k, n); }
  }

  lemma Unique(x: int, n: int, q: int, r: int)
    requires n > 0 && 0 <= r < n && x == q * n + r
    ensures x % n == r
  {
    assert x == x / n * n + x % n;
    assert (q - x / n) * n == q * n - x / n * n;
    ZeroFactor(q - x / n, n);
  }

  /** Two numbers less than n apart have different remainders. */
  lemma SameRest(x: nat, y: nat, n: int)
    requires n > 0 && x < y < x + n
    ensures x % n != y % n
  {
    assert x == x / n * n + x % n && y == y / n * n + y % n;
    assert (y / n - x / n) * n == y / n * n - x / n * n;
    if x % n == y % n { ZeroFactor(y / n - x / n, n); }
  }

  predicate SameBucket(x: nat, y: nat, buckets: int)
    requires buckets > 0
  {
    x % buckets == y % buckets
  }

  /** The walk from i in steps of buckets comes to x: now, or from the next step on. */
  lemma Reaches(i: nat, x: nat, buckets: int)
    requires buckets > 0
    ensures i <= x && SameBucket(i, x, buckets) <==> i == x || (i + buckets <= x && SameBucket(i + buckets, x, buckets))
  {
    ModPlus(i, buckets);
    if i < x < i + buckets { SameRest(i, x, buckets); }
  }

  /** One call visits the live instances of the shards it covers, once each. */
  lemma {:induction false} VisitsCount(all: All, insts: seq<Inst>, phase: seq<Phase>, i: nat, buckets: int, d: nat)
    requires Agrees(all, insts, phase) && buckets > 0 && d < |insts|
    ensures Count(Visits(all, insts, i, buckets), d) ==
      if phase[d] == Alive && i <= insts[d].shard && SameBucket(i, insts[d].shard, buckets) then 1 else 0
    decreases SHARDS - i
  {
    assert InstOk(all, insts, phase, d);
    if i < SHARDS {
      ShardCount(all, insts, phase, i, d);
      VisitsCount(all, insts, phase, i + buckets, buckets, d);
      Reaches(i, insts[d].shard, buckets);
    }
  }

  /** How often the call for bucket visits d. */
  function Calls(all: All, insts: seq<Inst>, bucket: nat, buckets: int, d: nat): nat
    requires |all| == SHARDS && buckets > 0
  {
    Count(Visits(all, insts, bucket % buckets, buckets), d)
  }

  /** How often calls from bucket on, count of them, visit d. */
  function Visited(all: All, insts: seq<Inst>, bucket: nat, buckets: int, count: nat, d: nat): nat
    requires |all| == SHARDS && buckets > 0
  {
    if count == 0 then 0
    else Visited(all, insts, bucket, buckets, count - 1, d) + Calls(all, insts, bucket + count - 1, buckets, d)
  }

  /** One of count consecutive numbers leaves the same remainder as x. */
  ghost predicate Covered(bucket: nat, buckets: int, count: nat, x: nat)
    requires buckets > 0
  {
    exists k: nat :: bucket <= k < bucket + count && SameBucket(k, x, buckets)
  }

  lemma CoveredStep(bucket: nat, buckets: int, count: nat, x: nat)
    requires 0 < count <= buckets
    ensures Covered(bucket, buckets, count, x) <==>
      Covered(bucket, buckets, count - 1, x) || SameBucket(bucket + count - 1, x, buckets)
    ensures !(Covered(bucket, buckets, count - 1, x) && SameBucket(bucket + count - 1, x, buckets))
  {
    var last := bucket + count - 1;
    if Covered(bucket, buckets, count - 1, x) {
      var k: nat :| bucket <= k < bucket + (count - 1) && SameBucket(k, x, buckets);
      SameRest(k, last, buckets);
    } else if Covered(bucket, buckets, count, x) {
      var k: nat :| bucket <= k < bucket + count && SameBucket(k, x, buckets);
    }
  }

  /** One call visits the live instances of the shards whose number leaves the same
      remainder as its own. */
  lemma CallCount(all: All, insts: seq<Inst>, phase: seq<Phase>, bucket: nat, buckets: int, d: nat)
    requires Agrees(all, insts, phase) && buckets > 0 && d < |insts|
    ensures Calls(all, insts, bucket, buckets, d) ==
      if phase[d] == Alive && SameBucket(bucket, insts[d].shard, buckets) then 1 else 0
  {
    VisitsCount(all, insts, phase, bucket % buckets, buckets, d);
    RestOfRest(bucket % buckets, buckets);
    RestIsLeast(insts[d].shard, buckets);
  }

  lemma {:induction false} VisitedIs(all: All, insts: seq<Inst>, phase: seq<Phase>, bucket: nat, buckets: int, count: nat, d: nat)
    requires Agrees(all, insts, phase) && buckets > 0 && count <= buckets && d < |insts|
    ensures Visited(all, insts, bucket, buckets, count, d) ==
      if phase[d] == Alive && Covered(bucket, buckets, count, insts[d].shard) then 1 else 0
  {
    if count > 0 {
      VisitedIs(all, insts, phase, bucket, buckets, count - 1, d);
      CallCount(all, insts, phase, bucket + count - 1, buckets, d);
      CoveredStep(bucket, buckets, count, insts[d].shard);
    }
  }

  lemma RestOfRest(r: nat, n: int)
    requires r < n
    ensures r % n == r
  {
  }

  lemma RestIsLeast(x: nat, n: int)
    requires n > 0
    ensures x % n <= x
  {
    assert x == x / n * n + x % n;
  }

  /** Some of n consecutive numbers leaves any remainder. */
  lemma SomeRest(bucket: nat, n: int, r: nat) returns (k: nat)
    requires r < n
    ensures bucket <= k < bucket + n && k % n == r
  {
    var b := bucket % n;
    k := if r >= b then bucket + (r - b) else bucket + (r - b) + n;
    Unique(k, n, if r >= b then bucket / n else bucket / n + 1, r);
  }

  /** As many consecutive calls as there are buckets visit every live instance exactly
      once, and no deleted one, wherever they start. */
  lemma RoundVisitsAll(all: All, insts: seq<Inst>, phase: seq<Phase>, bucket: nat, buckets: nat, d: nat)
    requires Agrees(all, insts, phase) && buckets > 0 && d < |insts|
    ensures Visited(all, insts, bucket, buckets, buckets, d) == if phase[d] == Alive then 1 else 0
  {
    VisitedIs(all, insts, phase, bucket, buckets, buckets, d);
    var k := SomeRest(bucket, buckets, insts[d].shard % buckets);
    assert SameBucket(k, insts[d].shard, buckets);
    assert Covered(bucket, buckets, buckets, insts[d].shard);
  }
}
