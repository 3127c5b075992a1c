/** coalescingGatherer of promhttp/http.go: concurrent callers of Gather share one
    underlying Gather and its result, and the last of them calls its done.  The steps
    are the critical sections, the writes before the channel is closed, and the
    closing; any interleaving of any number of callers is a run. */
module Coalesce {

  /** What the underlying Gather returns, or what callers are told of its panic. */
  datatype Outcome = Gathered(families: int, err: int) | GatherPanicked

  /** gatherCycle.  outcome is nil until the leader has set it; leader is the caller
      that started the cycle; dones counts the calls of the underlying done. */
  datatype Cycle = Cycle(refs: int, outcome: seq<Outcome>, ready: bool, leader: nat, dones: nat)

  /** Where a caller is.
      Leading: in the underlying Gather; Publishing: it has returned, ready is not
      closed; Clearing: it has panicked; Failing: the cycle is cleared, ready is not
      closed; Panicked: the panic has left Gather; Waiting: joined, waiting for ready;
      Holding: Gather has returned got; Finishing: released last, done not called yet;
      Gone. */
  datatype Caller =
    | Leading(cy: nat)
    | Publishing(cy: nat)
    | Clearing(cy: nat)
    | Failing(cy: nat)
    | Panicked(cy: nat)
    | Waiting(cy: nat)
    | Holding(cy: nat, got: Outcome)
    | Finishing(cy: nat)
    | Gone

  datatype State = State(cycles: seq<Cycle>, current: int, callers: seq<Caller>)

  /** c.cycle is nil. */
  const NO_CYCLE: int := -1

  datatype Event =
    | Enter
    | GatherReturns(c: nat, families: int, err: int)
    | GatherPanics(c: nat)
    | Clear(c: nat)
    | Close(c: nat)
    | Receive(c: nat)
    | Release(c: nat)
    | CallDone(c: nat)

  // ---------------------------------------------------------------- the steps

  predicate Enabled(s: State, e: Event) {
    match e
    case Enter => true
    case GatherReturns(c, _, _) => c < |s.callers| && s.callers[c].Leading?
    case GatherPanics(c) => c < |s.callers| && s.callers[c].Leading?
    case Clear(c) => c < |s.callers| && s.callers[c].Clearing?
    case Close(c) => c < |s.callers| && (s.callers[c].Publishing? || s.callers[c].Failing?)
    case Receive(c) =>
      c < |s.callers| && s.callers[c].Waiting? && s.callers[c].cy < |s.cycles| && s.cycles[s.callers[c].cy].ready
    case Release(c) => c < |s.callers| && s.callers[c].Holding?
    case CallDone(c) => c < |s.callers| && s.callers[c].Finishing?
  }

  predicate InRange(s: State) {
    && -1 <= s.current < |s.cycles|
    && forall c :: 0 <= c < |s.callers| && !s.callers[c].Gone? ==> s.callers[c].cy < |s.cycles|
  }

  function Moved(s: State, c: nat, to: Caller): State
    requires c < |s.callers|
  {
    s.(callers := s.callers[c := to])
  }

  function WithCycle(s: State, k: nat, cy: Cycle): State
    requires k < |s.cycles|
  {
    s.(cycles := s.cycles[k := cy])
  }

  function DoEnter(s: State): State
    requires InRange(s)
  {
    var me := |s.callers|;
    if s.current != NO_CYCLE then
      var k := s.current;
      WithCycle(s, k, s.cycles[k].(refs := s.cycles[k].refs + 1)).(callers := s.callers + [Waiting(k)])
    else
      State(s.cycles + [Cycle(1, [], false, me, 0)], |s.cycles|, s.callers + [Leading(|s.cycles|)])
  }

  function DoRelease(s: State, c: nat): State
    requires InRange(s) && c < |s.callers| && s.callers[c].Holding?
  {
    var k := s.callers[c].cy;
    var cy := s.cycles[k].(refs := s.cycles[k].refs - 1);
    var t := WithCycle(s, k, cy);
    if cy.refs > 0 then Moved(t, c, Gone)
    else Moved(t.(current := if t.current == k then NO_CYCLE else t.current), c, Finishing(k))
  }

  function Step(s: State, e: Event): State
    requires InRange(s) && Enabled(s, e)
  {
    match e
    case Enter => DoEnter(s)
    case GatherReturns(c, families, err) =>
      var k := s.callers[c].cy;
      Moved(WithCycle(s, k, s.cycles[k].(outcome := [Gathered(families, err)])), c, Publishing(k))
    case GatherPanics(c) => Moved(s, c, Clearing(s.callers[c].cy))
    case Clear(c) =>
      var k := s.callers[c].cy;
      Moved(s.(current := if s.current == k then NO_CYCLE else s.current), c, Failing(k))
    case Close(c) =>
      var k := s.callers[c].cy;
      if s.callers[c].Failing? then
        Moved(WithCycle(s, k, s.cycles[k].(outcome := [GatherPanicked], ready := true)), c, Panicked(k))
      else
        Moved(WithCycle(s, k, s.cycles[k].(ready := true)), c,
              Holding(k, if s.cycles[k].outcome == [] then GatherPanicked else s.cycles[k].outcome[0]))
    case Receive(c) =>
      var k := s.callers[c].cy;
      Moved(s, c, Holding(k, if s.cycles[k].outcome == [] then GatherPanicked else s.cycles[k].outcome[0]))
    case Release(c) => DoRelease(s, c)
    case CallDone(c) =>
      var k := s.callers[c].cy;
      Moved(WithCycle(s, k, s.cycles[k].(dones := s.cycles[k].dones + 1)), c, Gone)
  }

  // ---------------------------------------------------------------- the invariant

  /** The caller counts in refs: it has joined or started cycle k, and not released it. */
  predicate Refers(t: Caller, k: nat) { !t.Gone? && !t.Finishing? && t.cy == k }

  predicate Finishes(t: Caller, k: nat) { t.Finishing? && t.cy == k }

  function Holders(ts: seq<Caller>, k: nat): nat {
    if ts == [] then 0 else Holders(ts[..|ts| - 1], k) + if Refers(ts[|ts| - 1], k) then 1 else 0
  }

  function Finishers(ts: seq<Caller>, k: nat): nat {
    if ts == [] then 0 else Finishers(ts[..|ts| - 1], k) + if Finishes(ts[|ts| - 1], k) then 1 else 0
  }

  lemma {:induction false} CountsUpdate(ts: seq<Caller>, c: nat, to: Caller, k: nat)
    requires c < |ts|
    ensures Holders(ts[c := to], k) == Holders(ts, k) - (if Refers(ts[c], k) then 1 else 0) + if Refers(to, k) then 1 else 0
    ensures Finishers(ts[c := to], k) == Finishers(ts, k) - (if Finishes(ts[c], k) then 1 else 0) + if Finishes(to, k) then 1 else 0
  {
    var n := |ts| - 1;
    if c < n {
      CountsUpdate(ts[..n], c, to, k);
      assert ts[c := to][..n] == ts[..n][c := to];
    } else {
      assert ts[c := to][..n] == ts[..n];
    }
  }

  lemma CountsAppend(ts: seq<Caller>, t: Caller, k: nat)
    ensures Holders(ts + [t], k) == Holders(ts, k) + if Refers(t, k) then 1 else 0
    ensures Finishers(ts + [t], k) == Finishers(ts, k) + if Finishes(t, k) then 1 else 0
  {
    assert (ts + [t])[..|ts|] == ts;
  }

  lemma {:induction false} HeldOnce(ts: seq<Caller>, c: nat, k: nat)
    requires c < |ts|
    ensures Refers(ts[c], k) ==> Holders(ts, k) >= 1
    ensures Finishes(ts[c], k) ==> Finishers(ts, k) >= 1
  {
    if c < |ts| - 1 { HeldOnce(ts[..|ts| - 1], c, k); }
  }

  /** In the underlying Gather, or between it and the end of the cycle's start. */
  predicate Leads(t: Caller) { t.Leading? || t.Publishing? || t.Clearing? }

  /** A cycle's books: refs are the outstanding holders, and done is called, or about
      to be called, once and only after the last of them. */
  ghost predicate CycleOk(s: State, k: nat)
    requires k < |s.cycles|
  {
    var cy := s.cycles[k];
    && cy.refs == Holders(s.callers, k)
    && cy.dones + Finishers(s.callers, k) == (if cy.refs == 0 then 1 else 0)
    && (s.current == k ==> cy.refs > 0)
    && cy.leader < |s.callers|
    && (!cy.ready ==> var l := s.callers[cy.leader]; !l.Gone? && l.cy == k && (Leads(l) || l.Failing?))
    && (cy.ready ==> |cy.outcome| == 1)
    && (cy.ready && cy.outcome == [GatherPanicked] ==> s.callers[cy.leader] == Panicked(k) && s.current != k)
  }

  ghost predicate CallerOk(s: State, c: nat)
    requires InRange(s) && c < |s.callers|
  {
    match s.callers[c]
    case Leading(k) => s.current == k && s.cycles[k].leader == c && !s.cycles[k].ready && s.cycles[k].outcome == []
    case Publishing(k) =>
      s.current == k && s.cycles[k].leader == c && !s.cycles[k].ready && |s.cycles[k].outcome| == 1 && s.cycles[k].outcome[0].Gathered?
    case Clearing(k) => s.current == k && s.cycles[k].leader == c && !s.cycles[k].ready && s.cycles[k].outcome == []
    case Failing(k) => s.current != k && s.cycles[k].leader == c && !s.cycles[k].ready && s.cycles[k].outcome == []
    case Panicked(k) => s.current != k && s.cycles[k].leader == c && s.cycles[k].ready && s.cycles[k].outcome == [GatherPanicked]
    case Waiting(_) => true
    case Holding(k, got) => s.cycles[k].ready && s.cycles[k].outcome == [got]
    case Finishing(k) => s.cycles[k].ready && s.current != k
    case Gone => true
  }

  ghost predicate Inv(s: State) {
    && InRange(s)
    && (forall k :: 0 <= k < |s.cycles| ==> CycleOk(s, k))
    && (forall c :: 0 <= c < |s.callers| ==> CallerOk(s, c))
  }

  // ---------------------------------------------------------------- every step keeps it

  /** Caller c moves, cycle k changes to cy', everything else stays. */
  ghost predicate Moves(s: State, s': State, c: nat, k: nat, cy': Cycle, to: Caller)
    requires c < |s.callers| && k < |s.cycles|
  {
    && s'.cycles == s.cycles[k := cy'] && s'.callers == s.callers[c := to]
    && cy'.leader == s.cycles[k].leader
    && !s.callers[c].Gone? && s.callers[c].cy == k && (to.Gone? || to.cy == k)
  }

  /** The books of the other cycles are not touched. */
  lemma OtherCycles(s: State, s': State, c: nat, k: nat, cy': Cycle, to: Caller)
    requires Inv(s) && c < |s.callers| && k < |s.cycles| && Moves(s, s', c, k, cy', to)
    requires s'.current == s.current || (s'.current == NO_CYCLE && s.current == k)
    ensures forall j :: 0 <= j < |s.cycles| && j != k ==> CycleOk(s', j)
  {
    forall j | 0 <= j < |s.cycles| && j != k ensures CycleOk(s', j) {
      assert CycleOk(s, j);
      CountsUpdate(s.callers, c, to, j);
    }
  }

  lemma OtherCallers(s: State, s': State, c: nat, k: nat, cy': Cycle, to: Caller)
    requires Inv(s) && c < |s.callers| && k < |s.cycles| && Moves(s, s', c, k, cy', to) && InRange(s')
    requires s'.current == s.current || (s'.current == NO_CYCLE && s.current == k)
    requires cy'.ready == s.cycles[k].ready || s.cycles[k].leader == c
    requires cy'.outcome == s.cycles[k].outcome || s.cycles[k].leader == c
    requires !s.cycles[k].ready || (cy'.ready && cy'.outcome == s.cycles[k].outcome)
    requires s'.current == s.current || s.cycles[k].leader == c || cy'.refs == 0
    requires cy'.refs == Holders(s'.callers, k)
    ensures forall j :: 0 <= j < |s.callers| && j != c ==> CallerOk(s', j)
  {
    forall j | 0 <= j < |s.callers| && j != c ensures CallerOk(s', j) {
      assert CallerOk(s, j);
      HeldOnce(s'.callers, j, k);
      assert s'.callers[j] == s.callers[j];
    }
  }

  lemma CloseKeeps(s: State, c: nat)
    requires Inv(s) && Enabled(s, Close(c))
    ensures Inv(Step(s, Close(c)))
  {
    var s' := Step(s, Close(c));
    var k := s.callers[c].cy;
    assert CallerOk(s, c) && CycleOk(s, k);
    CountsUpdate(s.callers, c, s'.callers[c], k);
    OtherCycles(s, s', c, k, s'.cycles[k], s'.callers[c]);
    OtherCallers(s, s', c, k, s'.cycles[k], s'.callers[c]);
    assert CallerOk(s', c) && CycleOk(s', k);
  }

  lemma GatherKeeps(s: State, e: Event)
    requires Inv(s) && Enabled(s, e) && (e.GatherReturns? || e.GatherPanics? || e.Clear?)
    ensures Inv(Step(s, e))
  {
    var s' := Step(s, e);
    var k := s.callers[e.c].cy;
    assert CallerOk(s, e.c) && CycleOk(s, k);
    assert s'.cycles == s.cycles[k := s'.cycles[k]];
    CountsUpdate(s.callers, e.c, s'.callers[e.c], k);
    OtherCycles(s, s', e.c, k, s'.cycles[k], s'.callers[e.c]);
    OtherCallers(s, s', e.c, k, s'.cycles[k], s'.callers[e.c]);
    assert CallerOk(s', e.c) && CycleOk(s', k);
  }

  lemma ReceiveKeeps(s: State, c: nat)
    requires Inv(s) && Enabled(s, Receive(c))
    ensures Inv(Step(s, Receive(c)))
  {
    var s' := Step(s, Receive(c));
    var k := s.callers[c].cy;
    assert CallerOk(s, c) && CycleOk(s, k);
    assert s'.cycles == s.cycles[k := s'.cycles[k]];
    CountsUpdate(s.callers, c, s'.callers[c], k);
    OtherCycles(s, s', c, k, s'.cycles[k], s'.callers[c]);
    OtherCallers(s, s', c, k, s'.cycles[k], s'.callers[c]);
    assert CallerOk(s', c) && CycleOk(s', k);
  }

  lemma ReleaseKeeps(s: State, c: nat)
    requires Inv(s) && Enabled(s, Release(c))
    ensures Inv(Step(s, Release(c)))
  {
    var s' := Step(s, Release(c));
    var k := s.callers[c].cy;
    assert CallerOk(s, c) && CycleOk(s, k);
    HeldOnce(s.callers, c, k);
    CountsUpdate(s.callers, c, s'.callers[c], k);
    if s.cycles[k].outcome == [GatherPanicked] {
      HeldOnce(s'.callers, s.cycles[k].leader, k);
    }
    OtherCycles(s, s', c, k, s'.cycles[k], s'.callers[c]);
    OtherCallers(s, s', c, k, s'.cycles[k], s'.callers[c]);
    assert CallerOk(s', c) && CycleOk(s', k);
  }

  lemma CallDoneKeeps(s: State, c: nat)
    requires Inv(s) && Enabled(s, CallDone(c))
    ensures Inv(Step(s, CallDone(c)))
  {
    var s' := Step(s, CallDone(c));
    var k := s.callers[c].cy;
    assert CallerOk(s, c) && CycleOk(s, k);
    HeldOnce(s.callers, c, k);
    CountsUpdate(s.callers, c, s'.callers[c], k);
    OtherCycles(s, s', c, k, s'.cycles[k], s'.callers[c]);
    OtherCallers(s, s', c, k, s'.cycles[k], s'.callers[c]);
    assert CallerOk(s', c) && CycleOk(s', k);
  }

  /** No caller is in a cycle that does not exist yet. */
  lemma {:induction false} NoHolders(ts: seq<Caller>, k: nat)
    requires forall c :: 0 <= c < |ts| && !ts[c].Gone? ==> ts[c].cy < k
    ensures Holders(ts, k) == 0 && Finishers(ts, k) == 0
  {
    if ts != [] { NoHolders(ts[..|ts| - 1], k); }
  }

  lemma JoinKeeps(s: State)
    requires Inv(s) && s.current != NO_CYCLE
    ensures Inv(Step(s, Enter))
  {
    var s' := Step(s, Enter);
    forall k | 0 <= k < |s'.cycles| ensures CycleOk(s', k) {
      CountsAppend(s.callers, Waiting(s.current), k);
      assert CycleOk(s, k);
    }
    forall c | 0 <= c < |s'.callers| ensures CallerOk(s', c) {
      if c < |s.callers| { assert CallerOk(s, c); }
    }
  }

  lemma StartKeeps(s: State)
    requires Inv(s) && s.current == NO_CYCLE
    ensures Inv(Step(s, Enter))
  {
    var s' := Step(s, Enter);
    var n := |s.cycles|;
    NoHolders(s.callers, n);
    CountsAppend(s.callers, Leading(n), n);
    assert CycleOk(s', n);
    forall k | 0 <= k < n ensures CycleOk(s', k) {
      CountsAppend(s.callers, Leading(n), k);
      assert CycleOk(s, k);
    }
    forall c | 0 <= c < |s'.callers| ensures CallerOk(s', c) {
      if c < |s.callers| { assert CallerOk(s, c); }
    }
  }

  lemma StepKeeps(s: State, e: Event)
    requires Inv(s) && Enabled(s, e)
    ensures Inv(Step(s, e))
  {
    match e
    case Enter => if s.current != NO_CYCLE { JoinKeeps(s); } else { StartKeeps(s); }
    case GatherReturns(_, _, _) => GatherKeeps(s, e);
    case GatherPanics(_) => GatherKeeps(s, e);
    case Clear(_) => GatherKeeps(s, e);
    case Close(c) => CloseKeeps(s, c);
    case Receive(c) => ReceiveKeeps(s, c);
    case Release(c) => ReleaseKeeps(s, c);
    case CallDone(c) => CallDoneKeeps(s, c);
  }

  // ---------------------------------------------------------------- over whole runs

  const INITIAL: State := State([], NO_CYCLE, [])

  ghost predicate IsRun(run: seq<State>, events: seq<Event>) {
    && |run| == |events| + 1 && run[0] == INITIAL
    && (forall i :: 0 <= i < |run| ==> InRange(run[i]))
    && forall i :: 0 <= i < |events| ==> Enabled(run[i], events[i]) && run[i + 1] == Step(run[i], events[i])
  }

  lemma {:induction false} RunKeeps(run: seq<State>, events: seq<Event>, i: nat)
    requires IsRun(run, events) && i < |run|
    ensures Inv(run[i])
  {
    if i > 0 {
      RunKeeps(run, events, i - 1);
      StepKeeps(run[i - 1], events[i - 1]);
    }
  }

  /** At most one underlying Gather runs at a time. */
  lemma OneGather(run: seq<State>, events: seq<Event>, i: nat, c: nat, d: nat)
    requires IsRun(run, events) && i < |run| && c < |run[i].callers| && d < |run[i].callers|
    requires run[i].callers[c].Leading? && run[i].callers[d].Leading?
    ensures c == d
  {
    RunKeeps(run, events, i);
    assert CallerOk(run[i], c) && CallerOk(run[i], d);
  }

  /** What a cycle has come to does not change. */
  lemma OutcomeStays(s: State, e: Event, k: nat)
    requires Inv(s) && Enabled(s, e) && k < |s.cycles| && s.cycles[k].outcome != []
    ensures k < |Step(s, e).cycles| && Step(s, e).cycles[k].outcome == s.cycles[k].outcome
  {
    if !e.Enter? { assert CallerOk(s, e.c); }
  }

  lemma {:induction false} OutcomeLasts(run: seq<State>, events: seq<Event>, i: nat, j: nat, k: nat)
    requires IsRun(run, events) && i <= j < |run| && k < |run[i].cycles| && run[i].cycles[k].outcome != []
    ensures k < |run[j].cycles| && run[j].cycles[k].outcome == run[i].cycles[k].outcome
    decreases j
  {
    if i < j {
      OutcomeLasts(run, events, i, j - 1, k);
      RunKeeps(run, events, j - 1);
      OutcomeStays(run[j - 1], events[j - 1], k);
    }
  }

  /** Whoever shares a cycle gets the same, at whatever time: what its one underlying
      Gather returned, or the error that stands for its panic. */
  lemma SharersAgree(run: seq<State>, events: seq<Event>, i: nat, j: nat, c: nat, d: nat)
    requires IsRun(run, events) && i <= j < |run| && c < |run[i].callers| && d < |run[j].callers|
    requires run[i].callers[c].Holding? && run[j].callers[d].Holding? && run[i].callers[c].cy == run[j].callers[d].cy
    ensures run[i].callers[c].got == run[j].callers[d].got
  {
    RunKeeps(run, events, i);
    RunKeeps(run, events, j);
    assert CallerOk(run[i], c) && CallerOk(run[j], d);
    OutcomeLasts(run, events, i, j, run[i].callers[c].cy);
  }

  /** A cycle's refs are its outstanding holders, and its done is called at most once,
      when there are none left. */
  lemma DoneOnceAfterLast(run: seq<State>, events: seq<Event>, i: nat, k: nat)
    requires IsRun(run, events) && i < |run| && k < |run[i].cycles|
    ensures run[i].cycles[k].refs == Holders(run[i].callers, k)
    ensures run[i].cycles[k].dones <= 1
    ensures run[i].cycles[k].dones == 1 ==> Holders(run[i].callers, k) == 0 && run[i].current != k
  {
    RunKeeps(run, events, i);
    assert CycleOk(run[i], k);
  }

  ghost predicate AllLeft(s: State) { forall c :: 0 <= c < |s.callers| ==> s.callers[c].Gone? || s.callers[c].Panicked? }

  lemma {:induction false} NoneFinishing(ts: seq<Caller>, k: nat)
    requires forall c :: 0 <= c < |ts| ==> ts[c].Gone? || ts[c].Panicked?
    ensures Finishers(ts, k) == 0
    ensures Holders(ts, k) > 0 ==> exists c :: 0 <= c < |ts| && ts[c] == Panicked(k)
  {
    if ts != [] {
      NoneFinishing(ts[..|ts| - 1], k);
      if Holders(ts[..|ts| - 1], k) > 0 {
        var c :| 0 <= c < |ts| - 1 && ts[c] == Panicked(k);
      }
    }
  }

  /** Once every caller has left, every cycle that succeeded has called done, exactly
      once, a cycle that panicked has not, and the next caller starts a new one. */
  lemma DoneExactlyOnce(run: seq<State>, events: seq<Event>, i: nat, k: nat)
    requires IsRun(run, events) && i < |run| && AllLeft(run[i]) && k < |run[i].cycles|
    ensures |run[i].cycles[k].outcome| == 1
    ensures run[i].cycles[k].dones == if run[i].cycles[k].outcome[0].Gathered? then 1 else 0
    ensures run[i].current != k
  {
    var s := run[i];
    RunKeeps(run, events, i);
    assert CycleOk(s, k);
    NoneFinishing(s.callers, k);
    if Holders(s.callers, k) > 0 {
      var c :| 0 <= c < |s.callers| && s.callers[c] == Panicked(k);
      assert CallerOk(s, c);
    } else if s.cycles[k].outcome == [GatherPanicked] {
      HeldOnce(s.callers, s.cycles[k].leader, k);
    }
  }

  /** The next step of a caller that is not waiting. */
  function Next(t: Caller, c: nat): Event {
    match t
    case Leading(_) => GatherReturns(c, 0, 0)
    case Clearing(_) => Clear(c)
    case Publishing(_) => Close(c)
    case Failing(_) => Close(c)
    case Waiting(_) => Receive(c)
    case Holding(_, _) => Release(c)
    case _ => CallDone(c)
  }

  /** Nobody waits for nobody: a caller that has not left can go on, or the leader it
      waits for can. */
  lemma NoDeadlock(run: seq<State>, events: seq<Event>, i: nat, c: nat)
    requires IsRun(run, events) && i < |run| && c < |run[i].callers|
    requires !run[i].callers[c].Gone? && !run[i].callers[c].Panicked?
    ensures var s := run[i]; var k := s.callers[c].cy;
      Enabled(s, Next(s.callers[c], c)) ||
      (s.callers[c].Waiting? && s.cycles[k].leader < |s.callers| && s.callers[s.cycles[k].leader] != s.callers[c] &&
       Enabled(s, Next(s.callers[s.cycles[k].leader], s.cycles[k].leader)))
  {
    var s := run[i];
    RunKeeps(run, events, i);
    assert CallerOk(s, c) && CycleOk(s, s.callers[c].cy);
    assert CallerOk(s, s.cycles[s.callers[c].cy].leader);
  }
}
