/** The hot/cold ticket protocol of histogram and noObjectivesSummary, as
    interleaved atomic steps.

    An observation first takes a ticket: one atomic add to countAndHotIdx, which
    also tells it which of the two counts is hot.  It then adds to the parts of
    that count one by one, its count field last.  Write, under the mutex, switches
    the hot index, waits until the count field of the now cold counts has reached
    the number of tickets, reads them and merges them into the hot ones part by
    part.  The log and the snapshots are history.

    Here are the steps and the invariant they keep; what follows for snapshots is in
    Snapshots. */
module HotCold {

  import opened Helpers

  /** A part of the counts: the number of observations, their sum, a classic
      bucket, the zero bucket, or a sparse bucket. */
  datatype Part = Count | Sum | Bucket(i: nat) | Zero | Positive(key: int) | Negative(key: int)

  datatype Add = Add(part: Part, amount: int)

  /** What one ticket adds: AddTrackedHistogram takes one for several observations. */
  datatype Ticket = Ticket(adds: seq<Add>, count: nat)

  /** The adds of t with the count field last, as observe makes them. */
  function Adds(t: Ticket): seq<Add> { t.adds + [Add(Count, t.count)] }

  /** A ticket is for at least one observation, and its other adds are to other parts. */
  predicate Proper(t: Ticket) { t.count > 0 && forall k :: 0 <= k < |t.adds| ==> t.adds[k].part != Count }

  type Counts = map<Part, int>

  function Get(c: Counts, p: Part): int { if p in c then c[p] else 0 }

  function Plus(c: Counts, a: Add): Counts { c[a.part := Get(c, a.part) + a.amount] }

  /** A thread between observations, or with the adds it has still to make. */
  datatype Observer = Idle | Adding(idx: bool, left: seq<Add>)

  /** Write, reset or maybeReset, or nobody, has the mutex. */
  datatype Owner =
    | Nobody
    | Waiting(n: int)                       // Write: switched; awaiting cooldown at n
    | Merging(done: set<Part>)              // Write: read; merging part by part
    | Clearing(redo: Option<Ticket>)        // reset: about to clear the cold counts and repeat redo in them
    | Draining(n: int)                      // reset: switched; awaiting cooldown at n
    | Wiping                                // reset: about to clear the formerly hot counts

  datatype State = State(
    tickets: int,          // the lower 63 bits of countAndHotIdx
    hot: bool,             // its highest bit
    zeroth: Counts,        // counts[0]
    first: Counts,         // counts[1]
    observers: seq<Observer>,
    owner: Owner,
    // history:
    log: seq<Ticket>,      // the tickets taken since the last reset, in order
    cut: nat,              // how many of them had been taken at the last switch
    snapshot: Counts)      // what the last Write read

  function At(s: State, idx: bool): Counts { if idx then s.first else s.zeroth }

  function Set(s: State, idx: bool, c: Counts): State { if idx then s.(first := c) else s.(zeroth := c) }

  function Hot(s: State): Counts { At(s, s.hot) }
  function Cold(s: State): Counts { At(s, !s.hot) }

  function Initial(): State { State(0, false, map[], map[], [], Nobody, [], 0, map[]) }

  /** All the adds of a ticket, made at once. */
  function PlusAll(c: Counts, adds: seq<Add>): Counts
    decreases |adds|
  {
    if adds == [] then c else PlusAll(Plus(c, adds[0]), adds[1..])
  }

  datatype Event =
    | Spawn
    | Observe(o: nat, t: Ticket)      // take a ticket
    | Step(o: nat)                    // make the next add
    | Switch                          // Write swaps hot and cold
    | Read                            // the cooldown is over: Write reads the cold counts
    | Merge(p: Part)                  // one part added to the hot counts, then reset in the cold ones
    | Done
    | Reset(redo: Option<Ticket>)     // reset, or maybeReset repeating the latest observation
    | Clear                           // clear the cold counts, make them hot, and the ticket count with them
    | Drained
    | Wipe

  ghost predicate Enabled(s: State, e: Event) {
    match e
    case Spawn => true
    case Observe(o, t) => o < |s.observers| && s.observers[o].Idle? && Proper(t)
    case Step(o) => o < |s.observers| && s.observers[o].Adding? && s.observers[o].left != []
    case Switch => s.owner.Nobody?
    case Read => s.owner.Waiting? && Get(Cold(s), Count) == s.owner.n
    case Merge(p) => s.owner.Merging? && p !in s.owner.done
    case Done => s.owner.Merging? && forall p :: Get(Cold(s), p) != 0 ==> p in s.owner.done
    case Reset(redo) => s.owner.Nobody? && (redo.Some? ==> Proper(redo.value))
    case Clear => s.owner.Clearing?
    case Drained => s.owner.Draining? && Get(Cold(s), Count) == s.owner.n
    case Wipe => s.owner.Wiping?
  }

  function Apply(s: State, e: Event): State
    requires Enabled(s, e)
  {
    match e
    case Spawn => s.(observers := s.observers + [Idle])
    case Observe(o, t) =>
      s.(tickets := s.tickets + t.count, log := s.log + [t],
         observers := s.observers[o := Adding(s.hot, Adds(t))])
    case Step(o) =>
      var w := s.observers[o];
      var next := if |w.left| == 1 then Idle else Adding(w.idx, w.left[1..]);
      Set(s, w.idx, Plus(At(s, w.idx), w.left[0])).(observers := s.observers[o := next])
    case Switch => s.(hot := !s.hot, owner := Waiting(s.tickets), cut := |s.log|)
    case Read => s.(snapshot := Cold(s), owner := Merging({}))
    case Merge(p) =>
      var cold := Cold(s);
      Set(Set(s, s.hot, Plus(Hot(s), Add(p, Get(cold, p)))), !s.hot, cold[p := 0]).(owner := Merging(s.owner.done + {p}))
    case Done => s.(owner := Nobody)
    case Reset(redo) => s.(owner := Clearing(redo))
    case Clear =>
      var redo := s.owner.redo;
      var clean := if redo.Some? then PlusAll(map[], Adds(redo.value)) else map[];
      Set(s, !s.hot, clean).(
        hot := !s.hot,
        tickets := if redo.Some? then redo.value.count else 0,
        owner := Draining(s.tickets),
        log := if redo.Some? then [redo.value] else [],
        cut := 0)
    case Drained => s.(owner := Wiping)
    case Wipe => Set(s, !s.hot, map[]).(owner := Nobody)
  }

  // ---------------------------------------------------------------- sums

  function SumAdds(adds: seq<Add>, p: Part): int {
    if adds == [] then 0 else SumAdds(adds[..|adds| - 1], p) + if adds[|adds| - 1].part == p then adds[|adds| - 1].amount else 0
  }

  /** What the tickets of a log add up to in part p. */
  function Total(log: seq<Ticket>, p: Part): int {
    if log == [] then 0 else Total(log[..|log| - 1], p) + SumAdds(Adds(log[|log| - 1]), p)
  }

  function Left(w: Observer, idx: bool): seq<Add> { if w.Adding? && w.idx == idx then w.left else [] }

  /** What the observers still have to add to part p of counts[idx]. */
  function Pending(ws: seq<Observer>, idx: bool, p: Part): int {
    if ws == [] then 0 else Pending(ws[..|ws| - 1], idx, p) + SumAdds(Left(ws[|ws| - 1], idx), p)
  }

  lemma PendingUpdate(ws: seq<Observer>, o: nat, w: Observer, idx: bool, p: Part)
    requires o < |ws|
    ensures Pending(ws[o := w], idx, p) == Pending(ws, idx, p) - SumAdds(Left(ws[o], idx), p) + SumAdds(Left(w, idx), p)
  {
    var n := |ws| - 1;
    if o < n {
      assert ws[o := w][..n] == ws[..n][o := w];
      PendingUpdate(ws[..n], o, w, idx, p);
    } else {
      assert ws[o := w][..n] == ws[..n];
    }
  }

  lemma SumHead(adds: seq<Add>, p: Part)
    requires adds != []
    ensures SumAdds(adds, p) == SumAdds(adds[1..], p) + if adds[0].part == p then adds[0].amount else 0
  {
    if |adds| > 1 {
      SumHead(adds[..|adds| - 1], p);
      assert adds[..|adds| - 1][1..] == adds[1..][..|adds| - 2];
    }
  }

  lemma TotalAppend(log: seq<Ticket>, t: Ticket, p: Part)
    ensures Total(log + [t], p) == Total(log, p) + SumAdds(Adds(t), p)
  {
    assert (log + [t])[..|log|] == log;
  }

  lemma TotalSplit(log: seq<Ticket>, cut: nat, p: Part)
    requires cut <= |log|
    ensures Total(log, p) == Total(log[..cut], p) + Total(log[cut..], p)
  {
    if cut < |log| {
      var n := |log| - 1;
      TotalSplit(log[..n], cut, p);
      assert log[..n][..cut] == log[..cut];
      assert log[..n][cut..] == log[cut..][..n - cut];
    } else {
      assert log[..cut] == log;
    }
  }

  // ---------------------------------------------------------------- the invariant

  /** The adds an observer has left end with its count, and have it nowhere else. */
  ghost predicate Ends(left: seq<Add>) {
    && left != [] && left[|left| - 1].part == Count && left[|left| - 1].amount > 0
    && (forall k :: 0 <= k < |left| - 1 ==> left[k].part != Count)
  }

  lemma SumNone(adds: seq<Add>, p: Part)
    requires forall k :: 0 <= k < |adds| ==> adds[k].part != p
    ensures SumAdds(adds, p) == 0
  {
    if adds != [] { SumNone(adds[..|adds| - 1], p); }
  }

  lemma EndsCount(left: seq<Add>)
    requires Ends(left)
    ensures SumAdds(left, Count) == left[|left| - 1].amount
  {
    SumNone(left[..|left| - 1], Count);
  }

  ghost predicate ObserversOk(ws: seq<Observer>) {
    forall o :: 0 <= o < |ws| && ws[o].Adding? ==> Ends(ws[o].left)
  }

  /** Once nothing is left to add to the count field, nothing is left at all. */
  lemma PendingCount(ws: seq<Observer>, idx: bool)
    requires ObserversOk(ws)
    ensures Pending(ws, idx, Count) >= 0
    ensures Pending(ws, idx, Count) == 0 ==> forall o :: 0 <= o < |ws| && ws[o].Adding? ==> ws[o].idx != idx
  {
    if ws != [] {
      var n := |ws| - 1;
      PendingCount(ws[..n], idx);
      if ws[n].Adding? { EndsCount(ws[n].left); }
      forall o | 0 <= o < n && Pending(ws, idx, Count) == 0 && ws[o].Adding? ensures ws[o].idx != idx { assert ws[..n][o] == ws[o]; }
    }
  }

  lemma PendingNone(ws: seq<Observer>, idx: bool, p: Part)
    requires forall o :: 0 <= o < |ws| && ws[o].Adding? ==> ws[o].idx != idx
    ensures Pending(ws, idx, p) == 0
  {
    if ws != [] { PendingNone(ws[..|ws| - 1], idx, p); }
  }

  /** counts[idx] with what is still to be added to it. */
  function Full(s: State, idx: bool, p: Part): int { Get(At(s, idx), p) + Pending(s.observers, idx, p) }

  ghost predicate Quiet(s: State, idx: bool) { forall o :: 0 <= o < |s.observers| && s.observers[o].Adding? ==> s.observers[o].idx != idx }

  ghost predicate PartOk(s: State, p: Part)
    requires s.cut <= |s.log|
  {
    match s.owner
    case Nobody => Full(s, s.hot, p) == Total(s.log, p) && Get(Cold(s), p) == 0
    case Clearing(_) => Full(s, s.hot, p) == Total(s.log, p) && Get(Cold(s), p) == 0
    case Waiting(_) => Full(s, s.hot, p) == Total(s.log[s.cut..], p) && Full(s, !s.hot, p) == Total(s.log[..s.cut], p)
    case Merging(done) =>
      if p in done then Full(s, s.hot, p) == Total(s.log, p) && Get(Cold(s), p) == 0
      else Full(s, s.hot, p) == Total(s.log[s.cut..], p) && Get(Cold(s), p) == Total(s.log[..s.cut], p)
    case Draining(_) => Full(s, s.hot, p) == Total(s.log, p)
    case Wiping => Full(s, s.hot, p) == Total(s.log, p)
  }

  ghost predicate Inv(s: State) {
    && s.cut <= |s.log| && ObserversOk(s.observers)
    && (forall p :: PartOk(s, p))
    && s.tickets == Total(s.log, Count)
    && (s.owner.Waiting? || s.owner.Draining? || Quiet(s, !s.hot))
    && (s.owner.Clearing? && s.owner.redo.Some? ==> Proper(s.owner.redo.value))
    && (s.owner.Waiting? ==> s.owner.n == Total(s.log[..s.cut], Count))
    && (s.owner.Draining? ==> s.owner.n == Full(s, !s.hot, Count))
    && (s.owner.Merging? ==> forall p :: Get(s.snapshot, p) == Total(s.log[..s.cut], p))
  }

  lemma ObserveFull(s: State, o: nat, t: Ticket, idx: bool, p: Part)
    requires Enabled(s, Observe(o, t))
    ensures Full(Apply(s, Observe(o, t)), idx, p) == Full(s, idx, p) + if idx == s.hot then SumAdds(Adds(t), p) else 0
  {
    PendingUpdate(s.observers, o, Adding(s.hot, Adds(t)), idx, p);
  }

  lemma LogAppend(log: seq<Ticket>, t: Ticket, cut: nat, p: Part)
    requires cut <= |log|
    ensures (log + [t])[..cut] == log[..cut]
    ensures Total((log + [t])[cut..], p) == Total(log[cut..], p) + SumAdds(Adds(t), p)
    ensures Total(log + [t], p) == Total(log, p) + SumAdds(Adds(t), p)
  {
    assert (log + [t])[cut..] == log[cut..] + [t];
    TotalAppend(log[cut..], t, p);
    TotalAppend(log, t, p);
  }

  lemma ObservePart(s: State, o: nat, t: Ticket, p: Part)
    requires s.cut <= |s.log| && PartOk(s, p) && Enabled(s, Observe(o, t))
    ensures PartOk(Apply(s, Observe(o, t)), p)
  {
    ObserveFull(s, o, t, s.hot, p);
    ObserveFull(s, o, t, !s.hot, p);
    LogAppend(s.log, t, s.cut, p);
  }

  lemma ObserveKeeps(s: State, o: nat, t: Ticket)
    requires Inv(s) && Enabled(s, Observe(o, t))
    ensures Inv(Apply(s, Observe(o, t)))
  {
    var s' := Apply(s, Observe(o, t));
    forall p ensures PartOk(s', p) { assert PartOk(s, p); ObservePart(s, o, t, p); }
    TotalAppend(s.log, t, Count);
    EndsCount(Adds(t));
    assert s'.log[..s.cut] == s.log[..s.cut];
    PendingUpdate(s.observers, o, s'.observers[o], !s.hot, Count);
  }

  /** The first add taken off an observer's list. */
  lemma StepPending(ws: seq<Observer>, o: nat, idx: bool, p: Part)
    requires o < |ws| && ws[o].Adding? && ws[o].left != []
    ensures var w := ws[o];
      var next := if |w.left| == 1 then Idle else Adding(w.idx, w.left[1..]);
      Pending(ws[o := next], idx, p) == Pending(ws, idx, p) - if w.idx == idx && w.left[0].part == p then w.left[0].amount else 0
  {
    var w := ws[o];
    var next := if |w.left| == 1 then Idle else Adding(w.idx, w.left[1..]);
    PendingUpdate(ws, o, next, idx, p);
    SumHead(w.left, p);
    assert |w.left| == 1 ==> w.left[1..] == [];
  }

  lemma StepGets(s: State, o: nat, idx: bool, p: Part)
    requires Enabled(s, Step(o))
    ensures var w := s.observers[o];
      Get(At(Apply(s, Step(o)), idx), p) == Get(At(s, idx), p) + if w.idx == idx && w.left[0].part == p then w.left[0].amount else 0
  {
  }

  /** An add moves what it adds from pending to made. */
  lemma StepFull(s: State, o: nat, idx: bool, p: Part)
    requires Enabled(s, Step(o))
    ensures Full(Apply(s, Step(o)), idx, p) == Full(s, idx, p)
  {
    StepGets(s, o, idx, p);
    StepPending(s.observers, o, idx, p);
  }

  lemma StepPart(s: State, o: nat, p: Part)
    requires s.cut <= |s.log| && PartOk(s, p) && Enabled(s, Step(o))
    requires s.owner.Waiting? || s.owner.Draining? || Quiet(s, !s.hot)
    ensures PartOk(Apply(s, Step(o)), p)
  {
    StepFull(s, o, s.hot, p);
    StepFull(s, o, !s.hot, p);
  }

  lemma StepObservers(s: State, o: nat)
    requires ObserversOk(s.observers) && Enabled(s, Step(o))
    ensures ObserversOk(Apply(s, Step(o)).observers)
    ensures forall idx :: Quiet(s, idx) ==> Quiet(Apply(s, Step(o)), idx)
  {
    assert Ends(s.observers[o].left);
  }

  lemma StepKeeps(s: State, o: nat)
    requires Inv(s) && Enabled(s, Step(o))
    ensures Inv(Apply(s, Step(o)))
  {
    var s' := Apply(s, Step(o));
    forall p ensures PartOk(s', p) { assert PartOk(s, p); StepPart(s, o, p); }
    StepFull(s, o, !s.hot, Count);
    StepObservers(s, o);
  }

  lemma SpawnKeeps(s: State)
    requires Inv(s)
    ensures Inv(Apply(s, Spawn))
  {
    var s' := Apply(s, Spawn);
    assert s'.observers[..|s.observers|] == s.observers;
    forall p ensures PartOk(s', p) { assert PartOk(s, p); }
  }

  lemma SwitchKeeps(s: State)
    requires Inv(s) && Enabled(s, Switch)
    ensures Inv(Apply(s, Switch))
  {
    var s' := Apply(s, Switch);
    assert s.log[..|s.log|] == s.log && s.log[|s.log|..] == [];
    forall p ensures PartOk(s', p) {
      assert PartOk(s, p);
      PendingNone(s.observers, !s.hot, p);
    }
  }

  lemma ReadKeeps(s: State)
    requires Inv(s) && Enabled(s, Read)
    ensures Inv(Apply(s, Read))
  {
    var s' := Apply(s, Read);
    assert PartOk(s, Count);
    PendingCount(s.observers, !s.hot);
    forall p ensures PartOk(s', p) && Get(s'.snapshot, p) == Total(s.log[..s.cut], p) {
      assert PartOk(s, p);
      PendingNone(s.observers, !s.hot, p);
    }
  }

  lemma MergeGets(s: State, q: Part, p: Part)
    requires Enabled(s, Merge(q))
    ensures var s' := Apply(s, Merge(q));
      && s' == Set(Set(s, s.hot, Hot(s')), !s.hot, Cold(s')).(owner := Merging(s.owner.done + {q}))
      && Get(Hot(s'), p) == Get(Hot(s), p) + (if p == q then Get(Cold(s), p) else 0)
      && Get(Cold(s'), p) == if p == q then 0 else Get(Cold(s), p)
  {
  }

  lemma MergePart(s: State, q: Part, p: Part)
    requires s.cut <= |s.log| && PartOk(s, p) && Enabled(s, Merge(q))
    ensures PartOk(Apply(s, Merge(q)), p)
  {
    MergeGets(s, q, p);
    if p == q { TotalSplit(s.log, s.cut, p); }
  }

  lemma MergeKeeps(s: State, q: Part)
    requires Inv(s) && Enabled(s, Merge(q))
    ensures Inv(Apply(s, Merge(q)))
  {
    forall p ensures PartOk(Apply(s, Merge(q)), p) { assert PartOk(s, p); MergePart(s, q, p); }
  }

  lemma DoneKeeps(s: State)
    requires Inv(s) && Enabled(s, Done)
    ensures Inv(Apply(s, Done))
  {
    var s' := Apply(s, Done);
    forall p ensures PartOk(s', p) {
      assert PartOk(s, p);
      TotalSplit(s.log, s.cut, p);
    }
  }

  lemma PlusAllGet(c: Counts, adds: seq<Add>, p: Part)
    ensures Get(PlusAll(c, adds), p) == Get(c, p) + SumAdds(adds, p)
    decreases |adds|
  {
    if adds != [] {
      PlusAllGet(Plus(c, adds[0]), adds[1..], p);
      SumHead(adds, p);
    }
  }

  /** What a reset starts the log with. */
  lemma RedoAlone(redo: Ticket, p: Part)
    ensures Total([redo], p) == SumAdds(Adds(redo), p) && Get(PlusAll(map[], Adds(redo)), p) == SumAdds(Adds(redo), p)
  {
    PlusAllGet(map[], Adds(redo), p);
    TotalAppend([], redo, p);
    assert [] + [redo] == [redo];
  }

  lemma ClearGets(s: State, p: Part)
    requires Enabled(s, Clear)
    ensures var s' := Apply(s, Clear);
      && s'.hot == !s.hot && s'.observers == s.observers && s'.owner.Draining?
      && Get(Hot(s'), p) == if s.owner.redo.Some? then Get(PlusAll(map[], Adds(s.owner.redo.value)), p) else 0
  {
  }

  lemma ClearPart(s: State, p: Part)
    requires s.cut <= |s.log| && Quiet(s, !s.hot) && Enabled(s, Clear)
    ensures PartOk(Apply(s, Clear), p)
  {
    ClearGets(s, p);
    PendingNone(s.observers, !s.hot, p);
    if s.owner.redo.Some? { RedoAlone(s.owner.redo.value, p); }
  }

  lemma ClearKeeps(s: State)
    requires Inv(s) && Enabled(s, Clear)
    ensures Inv(Apply(s, Clear))
  {
    var redo := s.owner.redo;
    var s' := Apply(s, Clear);
    forall p ensures PartOk(s', p) { ClearPart(s, p); }
    ClearGets(s, Count);
    assert s'.log == if redo.Some? then [redo.value] else [];
    if redo.Some? {
      EndsCount(Adds(redo.value));
      RedoAlone(redo.value, Count);
    }
    assert PartOk(s, Count);
  }

  lemma DrainedKeeps(s: State)
    requires Inv(s) && Enabled(s, Drained)
    ensures Inv(Apply(s, Drained))
  {
    var s' := Apply(s, Drained);
    PendingCount(s.observers, !s.hot);
    forall p ensures PartOk(s', p) { assert PartOk(s, p); }
  }

  lemma WipeKeeps(s: State)
    requires Inv(s) && Enabled(s, Wipe)
    ensures Inv(Apply(s, Wipe))
  {
    var s' := Apply(s, Wipe);
    forall p ensures PartOk(s', p) { assert PartOk(s, p); }
  }

  lemma EventKeeps(s: State, e: Event)
    requires Inv(s) && Enabled(s, e)
    ensures Inv(Apply(s, e))
  {
    match e
    case Spawn => SpawnKeeps(s);
    case Observe(o, t) => ObserveKeeps(s, o, t);
    case Step(o) => StepKeeps(s, o);
    case Switch => SwitchKeeps(s);
    case Read => ReadKeeps(s);
    case Merge(q) => MergeKeeps(s, q);
    case Done => DoneKeeps(s);
    case Reset(redo) => forall p ensures PartOk(Apply(s, e), p) { assert PartOk(s, p); }
    case Clear => ClearKeeps(s);
    case Drained => DrainedKeeps(s);
    case Wipe => WipeKeeps(s);
  }

  // ---------------------------------------------------------------- theorems about whole runs

  ghost predicate Next(s: State, e: Event, s': State) { Enabled(s, e) && s' == Apply(s, e) }

  ghost predicate Run(run: seq<State>, events: seq<Event>) {
    && |run| == |events| + 1 && run[0] == Initial()
    && (forall n :: 0 <= n < |events| ==> Next(run[n], events[n], run[n + 1]))
  }

  lemma {:induction false} RunKeeps(run: seq<State>, events: seq<Event>, n: nat)
    requires Run(run, events) && n < |run|
    ensures Inv(run[n])
  {
    if n > 0 {
      RunKeeps(run, events, n - 1);
      assert Next(run[n - 1], events[n - 1], run[n - 1 + 1]);
      EventKeeps(run[n - 1], events[n - 1]);
    }
  }
}
