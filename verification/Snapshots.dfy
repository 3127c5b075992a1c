module Snapshots {
  // What Write reads, over every run of the ticket protocol, and what that means for
  // the buckets of a classic histogram.

  import opened Helpers
  import opened HotCold

  /** While Write waits, the tickets taken before its switch stay what they were. */
  lemma {:induction false} CutStays(run: seq<State>, events: seq<Event>, m: nat, n: nat)
    requires Run(run, events) && m < n < |run| && events[m].Switch?
    requires forall k :: m < k < n ==> !events[k].Read?
    ensures run[n].owner.Waiting? && run[n].cut == |run[m].log| && run[m].log <= run[n].log
  {
    assert Next(run[n - 1], events[n - 1], run[n - 1 + 1]);
    if n - 1 > m { CutStays(run, events, m, n - 1); }
  }

  /** Atomic snapshots.  What Write reads, in any interleaving with any number of
      observers and after any resets, is in every part exactly what the tickets
      taken before its switch, since the last reset, add up to: no more, no less. */
  lemma SnapshotIsExact(run: seq<State>, events: seq<Event>, m: nat, n: nat, p: Part)
    requires Run(run, events) && m < n < |events| && events[m].Switch? && events[n].Read?
    requires forall k :: m < k < n ==> !events[k].Read?
    ensures Get(run[n + 1].snapshot, p) == Total(run[m].log, p)
  {
    CutStays(run, events, m, n);
    assert Next(run[n], events[n], run[n + 1]);
    RunKeeps(run, events, n + 1);
    assert run[n + 1].log[..run[n + 1].cut] == run[m].log;
  }

  /** Nothing lost, nothing doubled.  With nobody between ticket and count field and
      the mutex free, the hot counts hold every ticket since the last reset once. */
  lemma NothingLost(run: seq<State>, events: seq<Event>, n: nat, p: Part)
    requires Run(run, events) && n < |run| && run[n].owner.Nobody?
    requires forall o :: 0 <= o < |run[n].observers| ==> run[n].observers[o].Idle?
    ensures Get(Hot(run[n]), p) == Total(run[n].log, p) && Get(Cold(run[n]), p) == 0
  {
    RunKeeps(run, events, n);
    assert PartOk(run[n], p);
    PendingNone(run[n].observers, run[n].hot, p);
  }

  /** The cooldown never hangs: as long as it is not over, an observer can move on. */
  lemma CooldownEnds(run: seq<State>, events: seq<Event>, n: nat) returns (o: nat)
    requires Run(run, events) && n < |run|
    requires (run[n].owner.Waiting? && !Enabled(run[n], Read)) || (run[n].owner.Draining? && !Enabled(run[n], Drained))
    ensures Enabled(run[n], Step(o)) && run[n].observers[o].idx != run[n].hot
  {
    var s := run[n];
    RunKeeps(run, events, n);
    assert PartOk(s, Count);
    if Quiet(s, !s.hot) { PendingNone(s.observers, !s.hot, Count); }
    o :| 0 <= o < |s.observers| && s.observers[o].Adding? && s.observers[o].idx == !s.hot;
    assert Ends(s.observers[o].left);
  }

  // ---------------------------------------------------------------- classic histograms

  /** The first bucket v belongs to, |bounds| for the one above the last bound. */
  function Place(bounds: seq<int>, v: int): (r: nat)
    ensures r <= |bounds|
  {
    if bounds == [] || v <= bounds[0] then 0 else 1 + Place(bounds[1..], v)
  }

  lemma PlaceIs(bounds: seq<int>, v: int, r: nat)
    requires r <= |bounds| && (forall k :: 0 <= k < r ==> bounds[k] < v) && (r < |bounds| ==> v <= bounds[r])
    ensures Place(bounds, v) == r
  {
    if r > 0 { PlaceIs(bounds[1..], v, r - 1); }
  }

  /** findBucket: linear below 35 bounds, by halves from there on. */
  method FindBucket(bounds: seq<int>, v: int) returns (r: nat)
    requires forall i, j :: 0 <= i < j < |bounds| ==> bounds[i] < bounds[j]
    ensures r == Place(bounds, v)
  {
    var n := |bounds|;
    if n == 0 { return 0; }
    if v <= bounds[0] { return 0; }
    if v > bounds[n - 1] {
      PlaceIs(bounds, v, n);
      return n;
    }
    if n < 35 {
      r := 0;
      while r < n
        invariant r <= n && forall k :: 0 <= k < r ==> bounds[k] < v
      {
        if v <= bounds[r] {
          PlaceIs(bounds, v, r);
          return;
        }
        r := r + 1;
      }
      return;
    }
    var lo, hi := 0, n;
    while lo < hi
      invariant 0 <= lo <= hi <= n
      invariant forall k :: 0 <= k < lo ==> bounds[k] < v
      invariant forall k :: hi <= k < n ==> v <= bounds[k]
    {
      var mid := lo + (hi - lo) / 2;
      if bounds[mid] < v { lo := mid + 1; } else { hi := mid; }
    }
    PlaceIs(bounds, v, lo);
    r := lo;
  }

  /** The ticket of one observation. */
  function Observed(bounds: seq<int>, v: int): Ticket {
    Ticket((if Place(bounds, v) < |bounds| then [Add(Bucket(Place(bounds, v)), 1)] else []) + [Add(Sum, v)], 1)
  }

  /** The adds AddTrackedHistogram makes for the first n cumulative counts. */
  function Rises(cumulative: seq<nat>, n: nat): (r: seq<Add>)
    requires n <= |cumulative|
    ensures forall k :: 0 <= k < |r| ==> r[k].part.Bucket? && r[k].part.i < n
  {
    if n == 0 then []
    else
      var prev := if n == 1 then 0 else cumulative[n - 2];
      Rises(cumulative, n - 1) + if cumulative[n - 1] > prev then [Add(Bucket(n - 1), cumulative[n - 1] - prev)] else []
  }

  /** Its ticket, for several observations at once. */
  function Tracked(cumulative: seq<nat>, count: nat, sum: int): Ticket {
    Ticket(Rises(cumulative, |cumulative|) + [Add(Sum, sum)], count)
  }

  /** AddTrackedHistogram: the loop over the buckets, then the sum and the count. */
  method TrackedTicket(cumulative: seq<nat>, count: nat, sum: int) returns (t: Ticket)
    ensures t == Tracked(cumulative, count, sum) && (count > 0 ==> Proper(t))
  {
    var adds: seq<Add> := [];
    var prev := 0;
    for i := 0 to |cumulative|
      invariant prev == (if i == 0 then 0 else cumulative[i - 1]) && adds == Rises(cumulative, i)
    {
      var c := cumulative[i];
      if c > prev { adds := adds + [Add(Bucket(i), c - prev)]; }
      prev := c;
    }
    t := Ticket(adds + [Add(Sum, sum)], count);
  }

  /** What one ticket is for: an observation, or several that AddTrackedHistogram adds as
      cumulative counts. */
  datatype Batch = One(v: int) | Many(cumulative: seq<nat>, count: nat, sum: int)

  function TicketOf(bounds: seq<int>, b: Batch): Ticket {
    if b.One? then Observed(bounds, b.v) else Tracked(b.cumulative, b.count, b.sum)
  }

  function Log(bounds: seq<int>, bs: seq<Batch>): seq<Ticket> {
    seq(|bs|, i requires 0 <= i < |bs| => TicketOf(bounds, bs[i]))
  }

  /** The counts of a batch are cumulative, one for each bound. */
  ghost predicate Cumulated(bounds: seq<int>, b: Batch) {
    b.Many? ==> |b.cumulative| == |bounds| && forall i, j :: 0 <= i < j < |bounds| ==> b.cumulative[i] <= b.cumulative[j]
  }

  /** The cumulative count Write exposes for bound i. */
  function Cumulative(log: seq<Ticket>, i: nat): int {
    Total(log, Bucket(i)) + if i == 0 then 0 else Cumulative(log, i - 1)
  }

  /** What the batches are worth: observations at or below bound i, observations, sum. */
  function AtMostOf(bounds: seq<int>, b: Batch, i: nat): int
    requires i < |bounds|
  {
    if b.One? then (if b.v <= bounds[i] then 1 else 0) else if i < |b.cumulative| then b.cumulative[i] else 0
  }

  function CountOf(b: Batch): int { if b.One? then 1 else b.count }

  function SumOf(b: Batch): int { if b.One? then b.v else b.sum }

  function AtMost(bounds: seq<int>, bs: seq<Batch>, i: nat): int
    requires i < |bounds|
  {
    if bs == [] then 0 else AtMost(bounds, bs[..|bs| - 1], i) + AtMostOf(bounds, bs[|bs| - 1], i)
  }

  function Observations(bs: seq<Batch>): int { if bs == [] then 0 else Observations(bs[..|bs| - 1]) + CountOf(bs[|bs| - 1]) }

  function Sums(bs: seq<Batch>): int { if bs == [] then 0 else Sums(bs[..|bs| - 1]) + SumOf(bs[|bs| - 1]) }

  lemma ObservedAdds(bounds: seq<int>, v: int, p: Part)
    ensures SumAdds(Adds(Observed(bounds, v)), p) ==
      match p
      case Count => 1
      case Sum => v
      case Bucket(i) => (if i == Place(bounds, v) && i < |bounds| then 1 else 0)
      case _ => 0
  {
    var b := if Place(bounds, v) < |bounds| then [Add(Bucket(Place(bounds, v)), 1)] else [];
    var adds := Adds(Observed(bounds, v));
    assert adds[..|adds| - 1] == b + [Add(Sum, v)];
    assert (b + [Add(Sum, v)])[..|b|] == b;
    assert SumAdds(b, p) == if p == Bucket(Place(bounds, v)) && Place(bounds, v) < |bounds| then 1 else 0 by {
      assert b != [] ==> b[..0] == [];
    }
    assert SumAdds(b + [Add(Sum, v)], p) == SumAdds(b, p) + if p == Sum then v else 0;
  }

  function Rise(cumulative: seq<nat>, i: nat): int
    requires i < |cumulative|
  {
    var c: int, prev: int := cumulative[i], if i == 0 then 0 else cumulative[i - 1];
    c - prev
  }

  /** The last rise is added last, if it is one. */
  lemma RisesStep(cumulative: seq<nat>, n: nat, p: Part)
    requires 0 < n <= |cumulative|
    ensures SumAdds(Rises(cumulative, n), p) ==
      SumAdds(Rises(cumulative, n - 1), p) + if p == Bucket(n - 1) && Rise(cumulative, n - 1) > 0 then Rise(cumulative, n - 1) else 0
  {
    var rises, rest := Rises(cumulative, n), Rises(cumulative, n - 1);
    assert rises != rest ==> rises[..|rises| - 1] == rest;
  }

  lemma {:induction false} RisesAdd(cumulative: seq<nat>, n: nat, i: nat)
    requires i < n <= |cumulative| && Rise(cumulative, i) >= 0
    ensures SumAdds(Rises(cumulative, n), Bucket(i)) == Rise(cumulative, i)
    decreases n
  {
    RisesStep(cumulative, n, Bucket(i));
    if i < n - 1 { RisesAdd(cumulative, n - 1, i); } else { SumNone(Rises(cumulative, n - 1), Bucket(i)); }
  }

  lemma TrackedAdds(cumulative: seq<nat>, count: nat, sum: int, i: nat)
    requires forall i, j :: 0 <= i < j < |cumulative| ==> cumulative[i] <= cumulative[j]
    ensures var adds := Adds(Tracked(cumulative, count, sum));
      && SumAdds(adds, Count) == count && SumAdds(adds, Sum) == sum
      && (i < |cumulative| ==> SumAdds(adds, Bucket(i)) == Rise(cumulative, i))
  {
    var rises := Rises(cumulative, |cumulative|);
    var adds := Adds(Tracked(cumulative, count, sum));
    assert adds[..|rises| + 1] == rises + [Add(Sum, sum)] && (rises + [Add(Sum, sum)])[..|rises|] == rises;
    SumNone(rises, Count);
    SumNone(rises, Sum);
    if i < |cumulative| { RisesAdd(cumulative, |cumulative|, i); }
  }

  lemma CumulativeLast(log: seq<Ticket>, t: Ticket, i: nat)
    ensures Cumulative(log + [t], i) == Cumulative(log, i) + Cumulative([t], i)
  {
    TotalAppend(log, t, Bucket(i));
    TotalAppend([], t, Bucket(i));
    assert [] + [t] == [t];
    if i > 0 { CumulativeLast(log, t, i - 1); }
  }

  lemma PlaceOrders(bounds: seq<int>, v: int, i: nat)
    requires i < |bounds| && forall a, b :: 0 <= a < b < |bounds| ==> bounds[a] < bounds[b]
    ensures Place(bounds, v) <= i <==> v <= bounds[i]
  {
    if v > bounds[0] && i > 0 { PlaceOrders(bounds[1..], v, i - 1); }
  }

  lemma CumulativeOne(bounds: seq<int>, v: int, i: nat)
    requires i < |bounds|
    ensures Cumulative([Observed(bounds, v)], i) == if Place(bounds, v) <= i then 1 else 0
  {
    ObservedAdds(bounds, v, Bucket(i));
    TotalAppend([], Observed(bounds, v), Bucket(i));
    assert [] + [Observed(bounds, v)] == [Observed(bounds, v)];
    if i > 0 { CumulativeOne(bounds, v, i - 1); }
  }

  lemma CumulativeMany(cumulative: seq<nat>, count: nat, sum: int, i: nat)
    requires i < |cumulative| && forall i, j :: 0 <= i < j < |cumulative| ==> cumulative[i] <= cumulative[j]
    ensures Cumulative([Tracked(cumulative, count, sum)], i) == cumulative[i]
  {
    var t := Tracked(cumulative, count, sum);
    TrackedAdds(cumulative, count, sum, i);
    TotalAppend([], t, Bucket(i));
    assert [] + [t] == [t];
    if i > 0 { CumulativeMany(cumulative, count, sum, i - 1); }
  }

  /** One batch counts for what it is. */
  lemma BatchCounts(bounds: seq<int>, b: Batch, i: nat)
    requires Cumulated(bounds, b) && forall a, b :: 0 <= a < b < |bounds| ==> bounds[a] < bounds[b]
    ensures i < |bounds| ==> Cumulative([TicketOf(bounds, b)], i) == AtMostOf(bounds, b, i)
    ensures SumAdds(Adds(TicketOf(bounds, b)), Count) == CountOf(b) && SumAdds(Adds(TicketOf(bounds, b)), Sum) == SumOf(b)
  {
    if b.One? {
      ObservedAdds(bounds, b.v, Count);
      ObservedAdds(bounds, b.v, Sum);
      if i < |bounds| {
        CumulativeOne(bounds, b.v, i);
        PlaceOrders(bounds, b.v, i);
      }
    } else {
      TrackedAdds(b.cumulative, b.count, b.sum, i);
      if i < |bounds| { CumulativeMany(b.cumulative, b.count, b.sum, i); }
    }
  }

  lemma EmptyCumulative(i: nat)
    ensures Cumulative([], i) == 0
  {
    if i > 0 { EmptyCumulative(i - 1); }
  }

  /** A log is consistent in itself: for the batches it is of, every cumulative bucket
      counts the observations at or below its bound, the count is their number and the sum
      is their sum. */
  lemma {:induction false} LogIsConsistent(bounds: seq<int>, bs: seq<Batch>, i: nat)
    requires forall a, b :: 0 <= a < b < |bounds| ==> bounds[a] < bounds[b]
    requires forall k :: 0 <= k < |bs| ==> Cumulated(bounds, bs[k])
    ensures i < |bounds| ==> Cumulative(Log(bounds, bs), i) == AtMost(bounds, bs, i)
    ensures Total(Log(bounds, bs), Count) == Observations(bs) && Total(Log(bounds, bs), Sum) == Sums(bs)
  {
    if bs == [] {
      EmptyCumulative(i);
    } else {
      var n := |bs| - 1;
      LogIsConsistent(bounds, bs[..n], i);
      var t := TicketOf(bounds, bs[n]);
      assert Log(bounds, bs) == Log(bounds, bs[..n]) + [t];
      BatchCounts(bounds, bs[n], i);
      TotalAppend(Log(bounds, bs[..n]), t, Count);
      TotalAppend(Log(bounds, bs[..n]), t, Sum);
      CumulativeLast(Log(bounds, bs[..n]), t, i);
    }
  }

  /** The cumulative count Write exposes for bound i, from what it has read. */
  function CumulativeRead(snapshot: Counts, i: nat): int {
    Get(snapshot, Bucket(i)) + if i == 0 then 0 else CumulativeRead(snapshot, i - 1)
  }

  lemma CumulativeReads(snapshot: Counts, log: seq<Ticket>, i: nat)
    requires forall j: nat :: j <= i ==> Get(snapshot, Bucket(j)) == Total(log, Bucket(j))
    ensures CumulativeRead(snapshot, i) == Cumulative(log, i)
  {
    if i > 0 { CumulativeReads(snapshot, log, i - 1); }
  }

  /** Consistent snapshots.  What Write reads, in any interleaving, of a histogram whose
      tickets since the last reset were taken for the batches bs when it switched: every
      cumulative bucket counts exactly the observations of bs at or below its bound, the
      count is their number and the sum is their sum. */
  lemma SnapshotIsConsistent(run: seq<State>, events: seq<Event>, m: nat, n: nat, bounds: seq<int>, bs: seq<Batch>)
    requires Run(run, events) && m < n < |events| && events[m].Switch? && events[n].Read?
    requires forall k :: m < k < n ==> !events[k].Read?
    requires forall a, b :: 0 <= a < b < |bounds| ==> bounds[a] < bounds[b]
    requires run[m].log == Log(bounds, bs) && forall k :: 0 <= k < |bs| ==> Cumulated(bounds, bs[k])
    ensures var read := run[n + 1].snapshot;
      && (forall i: nat :: i < |bounds| ==> CumulativeRead(read, i) == AtMost(bounds, bs, i))
      && Get(read, Count) == Observations(bs) && Get(read, Sum) == Sums(bs)
  {
    SnapshotIsExact(run, events, m, n, Count);
    SnapshotIsExact(run, events, m, n, Sum);
    LogIsConsistent(bounds, bs, 0);
    var read := run[n + 1].snapshot;
    forall i: nat | i < |bounds| ensures CumulativeRead(read, i) == AtMost(bounds, bs, i) {
      forall j: nat | j <= i ensures Get(read, Bucket(j)) == Total(run[m].log, Bucket(j)) { SnapshotIsExact(run, events, m, n, Bucket(j)); }
      CumulativeReads(read, run[m].log, i);
      LogIsConsistent(bounds, bs, i);
    }
  }
}
