/** Generations on the Gather path (promhttp/delta/gen.go with delta.go): after a gap
    in delivery a series goes on under a new generation label, from what was never
    delivered.  One counter, the rebase state it shares with the others, and a scraper
    that keeps the last value of every label.  Each component of a classic histogram
    goes the same way. */
module Generations {

  import opened Helpers

  const SECOND: int := 1_000_000_000

  /** time.Time.Unix. */
  function Unix(t: int): int { t / SECOND }

  /** born: when the exposer first saw the series; value: last committed; base: what
      was delivered when it came into generation basedOn. */
  datatype Entry = Entry(born: int, value: real, basedOn: int, base: real)

  /** A written series: its generation label, the value on the wire, and the cumulative
      value that is committed once it is delivered. */
  datatype Sample = Sample(gen: int, value: real, cumulative: real)

  /** gen, pending and last are rebaseState; cur is the counter, once it exists; held is
      the round awaiting acknowledgement, with the sample of the series if it has one;
      taken: the scraper has processed it; got is the last value it processed for each
      generation label. */
  datatype State = State(now: int, gen: int, pending: bool, last: Option<int>, cur: Option<real>, entry: Option<Entry>,
                         held: Option<Option<Sample>>, taken: bool, got: map<int, real>)

  datatype Mode = Plain | Acknowledged | Peek

  /** Write: the counter grows.  Tick: time passes.  Serve: one scrape; turn: it is the
      heartbeat turn of the series; delivered: the response was written in full; the
      clock is read three times, d2 and d3 apart.  Process: the scraper processes the
      held round.  Final: its last acknowledgement. */
  datatype Event =
    | Write(amount: real)
    | Tick(d: nat)
    | Serve(mode: Mode, delivered: bool, turn: bool, d2: nat, d3: nat)
    | Process
    | Final

  // ---------------------------------------------------------------- the steps

  /** rebaseState.due: whether this scrape moves to a new generation. */
  predicate Due(s: State, gap: int) {
    gap > 0 && !s.pending && s.last.Some? && s.now - s.last.value > gap
  }

  /** due's effect. */
  function AfterDue(s: State, gap: int): State {
    if gap <= 0 || s.pending then s
    else if s.last.None? then s.(last := Some(s.now))
    else if Due(s, gap) then s.(gen := Unix(s.now), pending := true)
    else s
  }

  /** rebaseState.genOf. */
  function GenOf(gen: int, e: Entry): int { if gen != 0 && e.born < gen then gen else e.born }

  /** rebaseState.rebaseEntry. */
  function Rebased(gen: int, e: Entry): Entry { if e.basedOn == gen then e else e.(basedOn := gen, base := e.value) }

  /** plan and decide for the series: its entry and, if it is written, its sample. */
  function Plan(s: State, turn: bool): (r: (State, Option<Sample>)) {
    if s.cur.None? then (s, None)
    else
      var cur := s.cur.value;
      var e := if s.entry.Some? then s.entry.value else Entry(Unix(s.now), 0.0, 0, 0.0);
      if cur == e.value && !turn then (s.(entry := Some(e)), None)
      else
        var e' := Rebased(s.gen, e);
        (s.(entry := Some(e')), Some(Sample(GenOf(s.gen, e'), if s.gen != 0 then cur - e'.base else cur, cur)))
  }

  /** pendingCommit.apply. */
  function Commit(s: State, sample: Option<Sample>): State {
    if sample.Some? && s.entry.Some? then s.(entry := Some(s.entry.value.(value := sample.value.cumulative))) else s
  }

  /** The scraper's side: it keeps the last value for the label. */
  function Got(s: State, sample: Option<Sample>): State {
    if sample.Some? then s.(got := s.got[sample.value.gen := sample.value.value]) else s
  }

  /** settle, for a scraper that acknowledges the held round exactly if it has
      processed it. */
  function Settle(s: State): State {
    if s.held.None? then s else (if s.taken then Commit(s, s.held.value) else s).(held := None, taken := false)
  }

  /** rebaseState.delivered. */
  function Delivered(s: State): State { s.(last := Some(s.now), pending := false) }

  function Wait(s: State, d: nat): State { s.(now := s.now + d) }

  /** What Serve does with the round once the response is out. */
  function Conclude(s: State, e: Event, sample: Option<Sample>): State
    requires e.Serve?
  {
    if e.mode == Peek || !e.delivered then s
    else if e.mode == Acknowledged then Delivered(s.(held := Some(sample), taken := false))
    else Delivered(Commit(Got(s, sample), sample))
  }

  function DoServe(s: State, e: Event, gap: int): State
    requires e.Serve?
  {
    var s1 := AfterDue(if e.mode == Peek then s else Settle(s), gap);
    var planned := Plan(Wait(s1, e.d2), e.turn);
    Conclude(Wait(planned.0, e.d3), e, planned.1)
  }

  function Step(s: State, e: Event, gap: int): State {
    match e
    case Write(x) => s.(cur := Some((if s.cur.Some? then s.cur.value else 0.0) + x))
    case Tick(d) => Wait(s, d)
    case Serve(_, _, _, _, _) => DoServe(s, e, gap)
    case Process => if s.held.Some? && !s.taken then Got(s, s.held.value).(taken := true) else s
    case Final => Settle(s)
  }

  /** The held round has the series, and brings something. */
  predicate Brings(s: State) {
    s.held.Some? && s.held.value.Some? && s.entry.Some? && s.held.value.value.cumulative != s.entry.value.value
  }

  /** The series goes under a later generation than the held round has it. */
  predicate MovedOn(s: State) {
    s.held.Some? && s.held.value.Some? && s.entry.Some? && s.held.value.value.gen != GenOf(s.gen, s.entry.value)
  }

  /** Hypotheses on a step: counters grow, and a peek moves to a new generation while the
      held round brings something only if the scraper does not process that round, before
      or after. */
  predicate Allowed(s: State, e: Event, gap: int) {
    match e
    case Write(x) => x >= 0.0
    case Serve(mode, _, _, _, _) => mode == Peek && Due(s, gap) && s.taken ==> !Brings(s)
    case Process => MovedOn(s) ==> !Brings(s)
    case _ => true
  }

  // ---------------------------------------------------------------- the scraper's total

  /** The sum of the values of labels 0 up to before n. */
  function SumTo(m: map<int, real>, n: nat): real {
    if n == 0 then 0.0 else SumTo(m, n - 1) + At(m, n - 1)
  }

  function At(m: map<int, real>, k: int): real { if k in m then m[k] else 0.0 }

  lemma {:induction false} SumUpdate(m: map<int, real>, k: int, v: real, n: nat)
    requires k >= 0
    ensures SumTo(m[k := v], n) == SumTo(m, n) + if k < n then v - At(m, k) else 0.0
  {
    if n > 0 { SumUpdate(m, k, v, n - 1); }
  }

  lemma {:induction false} SumEmpty(n: nat)
    ensures SumTo(map[], n) == 0.0
  {
    if n > 0 { SumEmpty(n - 1); }
  }

  // ---------------------------------------------------------------- the invariant

  /** What the scraper has of the series: the committed value, or that of the held round
      once it has processed it. */
  function Known(s: State): real
    requires s.entry.Some?
  {
    if s.held.Some? && s.held.value.Some? && s.taken then s.held.value.value.cumulative else s.entry.value.value
  }

  /** Labels processed are no later than the last delivery, and so is a generation that
      may be left. */
  ghost predicate Clock(s: State) {
    && SECOND <= s.now && 0 <= s.gen <= Unix(s.now)
    && (s.last.Some? ==> SECOND <= s.last.value <= s.now)
    && (!s.pending ==> s.gen == 0 || (s.last.Some? && s.gen <= Unix(s.last.value)))
    && (forall k <- s.got :: 0 <= k && s.last.Some? && k <= Unix(s.last.value))
    && (s.entry.Some? ==> 0 <= s.entry.value.born <= Unix(s.now) && 0 <= s.entry.value.basedOn <= s.gen)
  }

  /** The label the series goes under has what was committed since it came into the
      generation; before it does, the label is new. */
  ghost predicate Based(s: State)
    requires s.entry.Some?
  {
    var e := s.entry.value;
    && (e.basedOn == 0 ==> e.base == 0.0)
    && (e.basedOn == s.gen ==> At(s.got, GenOf(s.gen, e)) == Known(s) - e.base)
    && (e.basedOn != s.gen ==> GenOf(s.gen, e) !in s.got)
  }

  /** What the held round has is what the scraper lacks, on top of what its label has;
      its label is that of the series now, or the series has moved on and nothing of the
      round is going to be counted on top. */
  ghost predicate HeldOk(s: State) {
    s.held.Some? && s.held.value.Some? ==>
      var x := s.held.value.value;
      && s.entry.Some? && s.cur.Some? && s.last.Some? && s.entry.value.value <= x.cumulative <= s.cur.value
      && 0 <= x.gen <= Unix(s.last.value)
      && x.value == At(s.got, x.gen) + x.cumulative - Known(s)
      && if MovedOn(s) then s.taken ==> !Brings(s) else s.entry.value.basedOn == s.gen
  }

  /** The sum over all labels is what the scraper has of the series. */
  ghost predicate Telescoped(s: State)
    requires s.entry.Some?
  {
    Totals(s.got, Known(s))
  }

  ghost predicate Totals(m: map<int, real>, total: real) {
    forall n: nat :: (forall k <- m :: k < n) ==> SumTo(m, n) == total
  }

  ghost predicate Inv(s: State) {
    && Clock(s) && HeldOk(s) && (s.cur.Some? ==> s.cur.value >= 0.0)
    && if s.entry.None? then s.got == map[]
       else s.cur.Some? && Known(s) <= s.cur.value && Based(s) && Telescoped(s)
  }

  // ---------------------------------------------------------------- every step keeps it

  lemma UnixGrows(t: int, u: int)
    requires t <= u
    ensures Unix(t) <= Unix(u)
    ensures u - t >= SECOND ==> Unix(t) < Unix(u)
  {
  }

  lemma WaitKeeps(s: State, d: nat)
    requires Inv(s)
    ensures Inv(Wait(s, d))
  {
    UnixGrows(s.now, s.now + d);
  }

  lemma CommitKeeps(s: State)
    requires Inv(s) && s.held.Some? && s.taken
    ensures Inv(Commit(s, s.held.value).(held := None, taken := false))
  {
  }

  /** Without its held round, a series the scraper has not processed is as before. */
  lemma SettleKeeps(s: State)
    requires Inv(s)
    ensures Inv(Settle(s)) && Settle(s).held.None?
  {
    if s.held.Some? && s.taken { CommitKeeps(s); }
  }

  lemma MoveKeeps(s: State, gap: int)
    requires Inv(s) && Due(s, gap) && gap >= SECOND && (s.taken ==> !Brings(s))
    ensures Inv(s.(gen := Unix(s.now), pending := true))
  {
    UnixGrows(s.last.value, s.now);
  }

  lemma DueKeeps(s: State, gap: int)
    requires Inv(s) && (gap <= 0 || gap >= SECOND) && (Due(s, gap) && s.taken ==> !Brings(s))
    ensures Inv(AfterDue(s, gap))
  {
    if Due(s, gap) { MoveKeeps(s, gap); }
  }

  /** What is written is what the scraper lacks, on top of what its label has. */
  ghost predicate SampleOk(s: State, sample: Option<Sample>) {
    sample.Some? ==>
      var x := sample.value;
      s.entry.Some? && s.cur == Some(x.cumulative) && s.entry.value.basedOn == s.gen &&
      x.gen == GenOf(s.gen, s.entry.value) <= Unix(s.now) && x.value == x.cumulative - s.entry.value.base
  }

  lemma FirstSeen(s: State)
    requires Inv(s) && s.entry.None? && s.cur.Some?
    ensures Inv(s.(entry := Some(Entry(Unix(s.now), 0.0, 0, 0.0))))
  {
    forall n: nat ensures SumTo(s.got, n) == 0.0 { SumEmpty(n); }
  }

  lemma RebaseKeeps(s: State)
    requires Inv(s) && s.entry.Some?
    ensures Inv(s.(entry := Some(Rebased(s.gen, s.entry.value))))
  {
  }

  lemma PlanKeeps(s: State, turn: bool)
    requires Inv(s)
    ensures Inv(Plan(s, turn).0) && SampleOk(Plan(s, turn).0, Plan(s, turn).1)
    ensures Plan(s, turn).0 == s.(entry := Plan(s, turn).0.entry)
  {
    if s.cur.Some? {
      var s1 := s;
      if s.entry.None? {
        FirstSeen(s);
        s1 := s.(entry := Some(Entry(Unix(s.now), 0.0, 0, 0.0)));
      }
      RebaseKeeps(s1);
    }
  }

  /** Processing a sample brings the scraper to the cumulative value. */
  lemma GotTotal(s: State, x: Sample)
    requires Inv(s) && SampleFits(s, x)
    ensures Totals(s.got[x.gen := x.value], x.cumulative)
  {
    var m := s.got[x.gen := x.value];
    forall n: nat | forall k <- m :: k < n ensures SumTo(m, n) == x.cumulative {
      SumUpdate(s.got, x.gen, x.value, n);
      assert x.gen in m;
      assert forall k <- s.got :: k in m;
    }
  }

  /** Its label has what the scraper lacks of it. */
  ghost predicate SampleFits(s: State, x: Sample) {
    s.entry.Some? && 0 <= x.gen && x.value == At(s.got, x.gen) + x.cumulative - Known(s)
  }

  lemma ProcessKeeps(s: State)
    requires Inv(s) && s.held.Some? && !s.taken && (MovedOn(s) ==> !Brings(s))
    ensures Inv(Got(s, s.held.value).(taken := true))
  {
    if s.held.value.Some? { GotTotal(s, s.held.value.value); }
  }

  lemma HoldKeeps(s: State, sample: Option<Sample>)
    requires Inv(s) && SampleOk(s, sample) && s.held.None?
    ensures Inv(Delivered(s.(held := Some(sample), taken := false)))
  {
    if s.last.Some? { UnixGrows(s.last.value, s.now); }
  }

  lemma DeliverKeeps(s: State, sample: Option<Sample>)
    requires Inv(s) && SampleOk(s, sample) && s.held.None?
    ensures Inv(Delivered(Commit(Got(s, sample), sample)))
  {
    if s.last.Some? { UnixGrows(s.last.value, s.now); }
    if sample.Some? { GotTotal(s, sample.value); }
  }

  /** Serve up to the writing of the response. */
  lemma PlannedKeeps(s: State, e: Event, gap: int)
    requires Inv(s) && e.Serve? && (gap <= 0 || gap >= SECOND) && (Due(s, gap) && s.taken ==> !Brings(s))
    ensures var s2 := Wait(AfterDue(s, gap), e.d2); var planned := Plan(s2, e.turn); var s4 := Wait(planned.0, e.d3);
      Inv(s4) && SampleOk(s4, planned.1) && s4.held == s.held && s4.taken == s.taken
  {
    DueKeeps(s, gap);
    WaitKeeps(AfterDue(s, gap), e.d2);
    var s2 := Wait(AfterDue(s, gap), e.d2);
    PlanKeeps(s2, e.turn);
    var s3 := Plan(s2, e.turn).0;
    WaitKeeps(s3, e.d3);
    UnixGrows(s3.now, s3.now + e.d3);
  }

  lemma ServeKeeps(s: State, e: Event, gap: int)
    requires Inv(s) && e.Serve? && Allowed(s, e, gap) && (gap <= 0 || gap >= SECOND)
    ensures Inv(DoServe(s, e, gap))
  {
    var s0 := if e.mode == Peek then s else Settle(s);
    if e.mode != Peek { SettleKeeps(s); }
    PlannedKeeps(s0, e, gap);
    var s2 := Wait(AfterDue(s0, gap), e.d2);
    var planned := Plan(s2, e.turn);
    ConcludeKeeps(Wait(planned.0, e.d3), e, planned.1);
  }

  lemma ConcludeKeeps(s: State, e: Event, sample: Option<Sample>)
    requires Inv(s) && e.Serve? && SampleOk(s, sample) && (e.mode != Peek ==> s.held.None?)
    ensures Inv(Conclude(s, e, sample))
  {
    if e.mode == Acknowledged { HoldKeeps(s, sample); }
    if e.mode == Plain { DeliverKeeps(s, sample); }
  }

  lemma WriteKeeps(s: State, x: real)
    requires Inv(s) && x >= 0.0
    ensures Inv(s.(cur := Some((if s.cur.Some? then s.cur.value else 0.0) + x)))
  {
  }

  lemma StepKeeps(s: State, e: Event, gap: int)
    requires Inv(s) && Allowed(s, e, gap) && (gap <= 0 || gap >= SECOND)
    ensures Inv(Step(s, e, gap))
  {
    match e {
      case Write(x) => WriteKeeps(s, x);
      case Tick(d) => WaitKeeps(s, d);
      case Serve(_, _, _, _, _) => ServeKeeps(s, e, gap);
      case Process => if s.held.Some? && !s.taken { ProcessKeeps(s); }
      case Final => SettleKeeps(s);
    }
  }

  // ---------------------------------------------------------------- over whole runs

  function Initial(now: int): State { State(now, 0, false, None, None, None, None, false, map[]) }

  ghost predicate IsRun(run: seq<State>, events: seq<Event>, gap: int) {
    && |run| == |events| + 1 && run[0] == Initial(run[0].now) && run[0].now >= SECOND
    && forall i :: 0 <= i < |events| ==> Allowed(run[i], events[i], gap) && run[i + 1] == Step(run[i], events[i], gap)
  }

  lemma {:induction false} RunKeeps(run: seq<State>, events: seq<Event>, gap: int, i: nat)
    requires IsRun(run, events, gap) && i < |run| && (gap <= 0 || gap >= SECOND)
    ensures Inv(run[i])
  {
    if i > 0 {
      RunKeeps(run, events, gap, i - 1);
      StepKeeps(run[i - 1], events[i - 1], gap);
    }
  }

  /** Generations telescope: over any run of deliveries, failures, roll-backs, peeks and
      gaps, the last values of all the labels add up to the last committed cumulative
      value (between a held round's processing and its acknowledgement, to that
      round's). */
  lemma GenerationsTelescope(run: seq<State>, events: seq<Event>, gap: int, i: nat, n: nat)
    requires IsRun(run, events, gap) && i < |run| && (gap <= 0 || gap >= SECOND)
    requires run[i].entry.Some? && forall k <- run[i].got :: k < n
    ensures SumTo(run[i].got, n) == Known(run[i])
    ensures !run[i].taken ==> SumTo(run[i].got, n) == run[i].entry.value.value
  {
    RunKeeps(run, events, gap, i);
  }

  // ---------------------------------------------------------------- the peek that moves

  /** The state before the next round that is delivered: after a peek and, if process
      says so, the processing of the held round. */
  function AfterPeek(s: State, peek: Event, process: bool, gap: int): State
    requires peek.Serve?
  {
    var peeked := DoServe(s, peek, gap);
    if process then Step(peeked, Process, gap) else peeked
  }

  /** What the moving peek leaves. */
  lemma PeekMoves(s: State, peek: Event, process: bool, gap: int)
    requires Inv(s) && s.held.Some? && s.held.value.Some? && Brings(s) && Due(s, gap) && gap >= SECOND
    requires peek.Serve? && peek.mode == Peek
    ensures var t := AfterPeek(s, peek, process, gap); var x := s.held.value.value; var v := s.entry.value.value;
      && t.entry.Some? && t.entry.value.value == v && t.entry.value.basedOn == t.gen && t.entry.value.base == v && t.gen != 0
      && t.pending && t.held == s.held && t.cur == s.cur && t.taken == (s.taken || process)
      && GenOf(t.gen, t.entry.value) !in t.got && 0 <= GenOf(t.gen, t.entry.value)
      && Totals(t.got, if t.taken then x.cumulative else v)
  {
    UnixGrows(s.last.value, s.now);
    var peeked := DoServe(s, peek, gap);
    assert peeked.got == s.got && peeked.held == s.held && peeked.taken == s.taken;
    assert Totals(s.got, Known(s));
    assert s.cur.value > s.entry.value.value;
    var e := peeked.entry.value;
    assert e == s.entry.value.(basedOn := Unix(s.now), base := s.entry.value.value);
    assert GenOf(peeked.gen, e) !in s.got && s.held.value.value.gen < GenOf(peeked.gen, e);
    if process && !s.taken { GotTotal(s, s.held.value.value); }
  }

  /** The next round that is delivered and has the series. */
  lemma ServeAfter(t: State, serve: Event, gap: int, known: real, n: nat)
    requires t.entry.Some? && t.entry.value.basedOn == t.gen && t.gen != 0 && t.pending && t.cur.Some? && t.held.Some? && t.held.value.Some?
    requires 0 <= GenOf(t.gen, t.entry.value) && GenOf(t.gen, t.entry.value) !in t.got && Totals(t.got, known)
    requires serve.Serve? && serve.mode == Plain && serve.delivered
    requires serve.turn || t.cur.value != if t.taken then t.held.value.value.cumulative else t.entry.value.value
    requires forall k <- DoServe(t, serve, gap).got :: k < n
    ensures var u := DoServe(t, serve, gap);
      u.entry.Some? && u.entry.value.value == t.cur.value && SumTo(u.got, n) == known + t.cur.value - t.entry.value.base
  {
    var moved := GenOf(t.gen, t.entry.value);
    var m := t.got[moved := t.cur.value - t.entry.value.base];
    assert DoServe(t, serve, gap).got == m;
    SumUpdate(t.got, moved, t.cur.value - t.entry.value.base, n);
    assert moved in m;
    assert forall k <- t.got :: k in m;
  }

  /** What a peek costs that moves to a new generation while the held round has the
      series: its base is then the value from before that round.  Once the next round
      that has the series is delivered, the scraper has too much by what the held round
      brought if it processed that, before or after the peek, and what was committed
      otherwise. */
  lemma PeekMoveOvercounts(s: State, peek: Event, process: bool, serve: Event, gap: int, n: nat)
    requires Inv(s) && Brings(s) && Due(s, gap) && gap >= SECOND && peek.Serve? && peek.mode == Peek
    requires var t := AfterPeek(s, peek, process, gap);
      && serve.Serve? && serve.mode == Plain && serve.delivered
      && (serve.turn || s.cur.value != if t.taken then s.held.value.value.cumulative else s.entry.value.value)
      && forall k <- DoServe(t, serve, gap).got :: k < n
    ensures var t := AfterPeek(s, peek, process, gap);
      var brought := s.held.value.value.cumulative - s.entry.value.value;
      var u := DoServe(t, serve, gap);
      u.entry.Some? && SumTo(u.got, n) == u.entry.value.value + if t.taken then brought else 0.0
  {
    PeekMoves(s, peek, process, gap);
    var t := AfterPeek(s, peek, process, gap);
    ServeAfter(t, serve, gap, if t.taken then s.held.value.value.cumulative else s.entry.value.value, n);
  }

  /** So a peek may move exactly if the held round brings nothing or the scraper does not
      process it. */
  lemma PeekMoveIff(s: State, peek: Event, process: bool, serve: Event, gap: int, n: nat)
    requires Inv(s) && s.held.Some? && s.held.value.Some? && Due(s, gap) && gap >= SECOND && peek.Serve? && peek.mode == Peek
    requires var t := AfterPeek(s, peek, process, gap);
      && serve.Serve? && serve.mode == Plain && serve.delivered
      && (serve.turn || s.cur.value != if t.taken then s.held.value.value.cumulative else s.entry.value.value)
      && forall k <- DoServe(t, serve, gap).got :: k < n
    ensures var t := AfterPeek(s, peek, process, gap); var u := DoServe(t, serve, gap);
      u.entry.Some? && (SumTo(u.got, n) == u.entry.value.value <==> !t.taken || !Brings(s))
  {
    if Brings(s) {
      PeekMoveOvercounts(s, peek, process, serve, gap, n);
    } else {
      var peeked := DoServe(s, peek, gap);
      ServeKeeps(s, peek, gap);
      assert peeked.held == s.held && peeked.entry.value.value == s.entry.value.value;
      if process { StepKeeps(peeked, Process, gap); }
      ServeKeeps(AfterPeek(s, peek, process, gap), serve, gap);
    }
  }
}
