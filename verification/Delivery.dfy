/** Counters under delta exposition with acknowledged delivery: one exposer, one scraper
    and any number of clients writing, as one transition system.

    A client's write, in two steps, the addition and the enlisting, the deletion of a
    child from its Vec and the creation of a new child may come between any two steps of
    a scrape.  The tracker appears here through what the cut protocol guarantees: a
    counter's writes are on the open side of the cut, a cut closes that side and waits
    for the writes in progress there, and Take folds the closed side into the value as of
    the cut of every counter written before it.

    Fields marked "history" are never read by the exposer or the scraper.

    Here are the steps, the invariant, and the proof that every sound step keeps it;
    what follows for whole runs is in DeliveryTheorems. */
module Delivery {

  import opened Helpers
  import opened Acks

  /** What the exposer keeps for an instance. */
  datatype Entry = Entry(value: real, changed: nat, picked: nat)

  /** One child of a Vec: key stands for its label values. */
  datatype Inst = Inst(
    key: nat,
    dead: bool,                // deleted from its Vec
    dirty: bool,               // waiting in the tracker's list
    open: real,                // written since the last cut
    closed: real,              // written before it, not yet folded
    busy: seq<real>,           // writes in progress: in open, the instance not enlisted for them yet
    late: seq<real>,           // and those in closed, which Cut waits for
    atCut: real,               // CutValue
    entry: Option<Entry>,
    // history:
    made: real,                // all that clients wrote to it
    moved: real,               // all that AddTrackedCut moved into it
    out: real,                 // all that settleDeleted moved out of it
    seen: real)                // all that the scraper processed of its rows

  /** One line of a response; inst is history. */
  datatype Row = Row(inst: nat, key: nat, inc: real)

  /** How far Serve has got. */
  datatype Phase =
    | Resting
    | Cutting(ack: Ack)
    | Swapping(ack: Ack)
    | Taking(ack: Ack, todo: set<nat>)                // between two instances
    | Picking(ack: Ack, todo: set<nat>, inst: nat)    // pick(inst) is about to ask TrackedDeleted
    | Entering(ack: Ack, todo: set<nat>, inst: nat)   // it said no; about to look up the entry
    | Sending(ack: Ack, pending: map<nat, real>, rows: seq<Row>)
    | Dropping

  /** The round awaiting its acknowledgement: its number and values, the lines the
      scraper was sent, and (history) whether the scraper has processed them and which
      of its instances were merged into newer ones since. */
  datatype Held = Held(round: nat, values: map<nat, real>, rows: seq<Row>, processed: bool, spoiled: set<nat>)

  datatype State = State(
    session: string,
    insts: seq<Inst>,
    phase: Phase,
    round: nat,
    held: Option<Held>,
    taken: seq<nat>,           // the instances picked in this scrape, in order
    idle: set<nat>,            // what this scrape found idle
    sums: map<nat, real>,      // what the scraper has added up for each key
    last: nat,                 // the last round the scraper has processed, 0 for none
    skipped: set<nat>)         // history: what pick found deleted at its second look, in this scrape

  const IDLE_SCRAPES: nat := 30

  // ---------------------------------------------------------------- reading the state

  function Delivered(d: Inst): real { if d.entry.Some? then d.entry.value.value else 0.0 }

  function Total(d: Inst): real { d.atCut + d.closed + d.open }

  function Pile(vs: seq<real>): real { if vs == [] then 0.0 else Pile(vs[..|vs| - 1]) + vs[|vs| - 1] }

  /** What was written on either side of the cut, without the writes in progress. */
  function Opened(d: Inst): real { d.open - Pile(d.busy) }
  function Closed(d: Inst): real { d.closed - Pile(d.late) }

  function Without(vs: seq<real>, k: nat): seq<real>
    requires k < |vs|
  {
    vs[..k] + vs[k + 1..]
  }

  lemma PileAppend(vs: seq<real>, v: real)
    ensures Pile(vs + [v]) == Pile(vs) + v
  {
    assert (vs + [v])[..|vs|] == vs;
  }

  lemma {:induction false} PileWithout(vs: seq<real>, k: nat)
    requires k < |vs|
    ensures Pile(Without(vs, k)) == Pile(vs) - vs[k]
  {
    var n := |vs| - 1;
    if k < n {
      PileWithout(vs[..n], k);
      assert Without(vs, k) == Without(vs[..n], k) + [vs[n]];
      PileAppend(Without(vs[..n], k), vs[n]);
    } else {
      assert Without(vs, k) == vs[..n];
    }
  }

  function SumOf(sums: map<nat, real>, key: nat): real { if key in sums then sums[key] else 0.0 }

  /** The instance the Vec holds under key. */
  ghost predicate Live(s: State, i: nat, key: nat) { i < |s.insts| && !s.insts[i].dead && s.insts[i].key == key }

  ghost predicate Vacant(s: State, key: nat) { forall i :: 0 <= i < |s.insts| ==> !Live(s, i, key) }

  /** The dirty list. */
  function Listed(insts: seq<Inst>): set<nat> { set i | 0 <= i < |insts| && insts[i].dirty }

  function SetValue(d: Inst, v: real): Inst {
    d.(entry := Some(if d.entry.Some? then d.entry.value.(value := v) else Entry(v, 0, 0)))
  }

  // ---------------------------------------------------------------- commit, rollback, emit

  /** apply, for every value of a round. */
  function Commit(insts: seq<Inst>, values: map<nat, real>): (r: seq<Inst>)
    ensures |r| == |insts|
  {
    seq(|insts|, i requires 0 <= i < |insts| => if i in values then SetValue(insts[i], values[i]) else insts[i])
  }

  /** MarkChanged, for every instance of which. */
  function MarkAll(insts: seq<Inst>, which: set<nat>): (r: seq<Inst>)
    ensures |r| == |insts|
  {
    seq(|insts|, i requires 0 <= i < |insts| => if i in which then insts[i].(dirty := true) else insts[i])
  }

  /** What becomes of the held round, if there is one and this is no peek. */
  function Settle(s: State, a: Ack): State {
    if s.held.None? || a.Peek? then s
    else if Commits(s.session, s.held.value.round, a) then
      s.(insts := Commit(s.insts, s.held.value.values), held := None)
    else
      s.(insts := MarkAll(s.insts, s.held.value.values.Keys), held := None)
  }

  /** decide finds something to report: the value as of the cut is not the delivered one. */
  predicate Changed(d: Inst) { d.entry.Some? && d.atCut != Delivered(d) }

  /** The lines of the instances picked, in order. */
  function Rows(insts: seq<Inst>, taken: seq<nat>): seq<Row>
    requires forall k :: 0 <= k < |taken| ==> taken[k] < |insts|
  {
    if taken == [] then []
    else
      var i := taken[|taken| - 1];
      Rows(insts, taken[..|taken| - 1])
      + if Changed(insts[i]) then [Row(i, insts[i].key, insts[i].atCut - Delivered(insts[i]))] else []
  }

  /** What decide leaves in the entries of the instances picked. */
  function Decided(insts: seq<Inst>, taken: seq<nat>, round: nat): (r: seq<Inst>)
    ensures |r| == |insts|
  {
    seq(|insts|, i requires 0 <= i < |insts| =>
      if i in taken && Changed(insts[i]) then insts[i].(entry := Some(insts[i].entry.value.(changed := round))) else insts[i])
  }

  /** What is to be committed once the round is delivered. */
  function Pending(insts: seq<Inst>, taken: seq<nat>): map<nat, real> {
    map i: nat | i in taken && i < |insts| && Changed(insts[i]) :: insts[i].atCut
  }

  /** The scraper adds up the lines of a response. */
  function AddUp(sums: map<nat, real>, rows: seq<Row>): map<nat, real> {
    if rows == [] then sums
    else
      var n := |rows| - 1;
      var rest := AddUp(sums, rows[..n]);
      rest[rows[n].key := SumOf(rest, rows[n].key) + rows[n].inc]
  }

  /** History: what the lines of a response say of instance i. */
  function Said(rows: seq<Row>, i: nat): real {
    if rows == [] then 0.0
    else Said(rows[..|rows| - 1], i) + if rows[|rows| - 1].inst == i then rows[|rows| - 1].inc else 0.0
  }

  function Credit(insts: seq<Inst>, rows: seq<Row>): (r: seq<Inst>)
    ensures |r| == |insts|
  {
    seq(|insts|, i requires 0 <= i < |insts| => insts[i].(seen := insts[i].seen + Said(rows, i)))
  }

  function Process(s: State, rows: seq<Row>): State {
    s.(sums := AddUp(s.sums, rows), insts := Credit(s.insts, rows))
  }

  // ---------------------------------------------------------------- what may happen

  datatype Event =
    | Add(inst: nat, v: real, before: bool) // a client adds to an instance it holds, deleted or not; before: registered
                                            // before the cut moved on, which then waits for it
    | Enlist(inst: nat, k: nat, before: bool) // and enlists it for that write
    | Lookup(key: nat)                      // a client creates the child for key
    | Delete(inst: nat)                     // the application deletes a child
    | Request(ack: Ack, final: bool, idle: set<nat>)
    | Cut
    | Swap
    | Hand(inst: nat)                       // Take folds an instance and hands it out
    | Check                                 // pick asks TrackedDeleted, and settles a deleted instance
    | Enter                                 // pick looks up the entry
    | SecondPass                            // write, decide and encode what was picked
    | Finish(delivered: bool)
    | Drop(inst: nat)
    | Done
    | Receive                               // the scraper processes the round held for it

  ghost predicate Idle(s: State, i: nat, round: nat) {
    i < |s.insts| && s.insts[i].entry.Some? && round - s.insts[i].entry.value.changed > IDLE_SCRAPES
  }

  ghost predicate Enabled(s: State, e: Event) {
    match e
    case Add(i, v, before) => i < |s.insts| && v >= 0.0 && (before ==> s.phase.Swapping?)
    case Enlist(i, k, before) => i < |s.insts| && k < |if before then s.insts[i].late else s.insts[i].busy|
    case Lookup(key) => Vacant(s, key)
    case Delete(i) => i < |s.insts| && !s.insts[i].dead
    case Request(a, final, idle) =>
      s.phase.Resting? && forall i <- idle :: Idle(s, i, s.round + 1) && !s.insts[i].dead
    case Cut => s.phase.Cutting?
    case Swap => s.phase.Swapping? && forall i :: 0 <= i < |s.insts| ==> s.insts[i].late == []
    case Hand(i) => s.phase.Taking? && i in s.phase.todo && i < |s.insts|
    case Check => s.phase.Picking? && s.phase.inst < |s.insts|
    case Enter => s.phase.Entering? && s.phase.inst < |s.insts|
    case SecondPass => s.phase.Taking? && s.phase.todo == {} && forall k :: 0 <= k < |s.taken| ==> s.taken[k] < |s.insts|
    case Finish(_) => s.phase.Sending?
    case Drop(i) => s.phase.Dropping? && i in s.idle && i < |s.insts| && s.insts[i].entry.Some?
    case Done => s.phase.Dropping? && s.idle == {}
    case Receive => s.held.Some? && !s.held.value.processed
  }

  /** History: instance i is not what the held round carries any more. */
  function Spoil(held: Option<Held>, i: nat): Option<Held> {
    if held.Some? && i in held.value.values then Some(held.value.(spoiled := held.value.spoiled + {i})) else held
  }

  /** settleDeleted on a deleted instance i, next to the live instance j of its labels. */
  function Merge(s: State, i: nat, j: nat): State
    requires s.phase.Picking? && i < |s.insts| && j < |s.insts| && i != j
  {
    var d := s.insts[i];
    var n := s.insts[j];
    var left := d.atCut - Delivered(d);
    var d' := SetValue(d, d.atCut);
    if left > 0.0 then
      s.(insts := s.insts[i := d'.(out := d.out + left)]
                         [j := n.(atCut := n.atCut + left, dirty := true, moved := n.moved + left)],
         held := Spoil(s.held, i), phase := Picking(s.phase.ack, s.phase.todo, j))
    else
      s.(insts := s.insts[i := d'], held := Spoil(s.held, i), phase := Taking(s.phase.ack, s.phase.todo))
  }

  /** pick and settleDeleted on the instance being picked. */
  ghost function CheckStep(s: State): State
    requires s.phase.Picking? && s.phase.inst < |s.insts|
  {
    var i := s.phase.inst;
    var d := s.insts[i];
    if !d.dead then s.(phase := Entering(s.phase.ack, s.phase.todo, i))
    else if Vacant(s, d.key) then s.(insts := s.insts[i := d.(dead := false)])   // revived, and picked again
    else
      assert exists j :: Live(s, j, d.key);
      var j :| Live(s, j, d.key);
      Merge(s, i, j)
  }

  /** The instance pick is about to look up has nothing undelivered from before the cut,
      or is going to be reported anyway. */
  ghost predicate ComesAnyway(s: State)
    requires s.phase.Entering? && s.phase.inst < |s.insts|
  {
    var i := s.phase.inst;
    var d := s.insts[i];
    d.atCut + Closed(d) == Delivered(d) || d.dirty || i in s.phase.todo || i in s.taken || HeldAt(s, i)
  }

  ghost function EnterStep(s: State): State
    requires s.phase.Entering? && s.phase.inst < |s.insts|
  {
    var i := s.phase.inst;
    var d := s.insts[i];
    var next := s.(phase := Taking(s.phase.ack, s.phase.todo));
    if d.dead then                                           // deleted since it was asked
      next.(skipped := s.skipped + {i}, held := if ComesAnyway(s) || s.held.None? || s.held.value.processed then s.held else Spoil(s.held, i))
    else if d.entry.None? then
      next.(insts := s.insts[i := d.(entry := Some(Entry(0.0, s.round, s.round)))], taken := s.taken + [i])
    else if d.entry.value.picked == s.round then next        // already in this scrape
    else
      next.(insts := s.insts[i := d.(entry := Some(d.entry.value.(picked := s.round)))], taken := s.taken + [i])
  }

  function Taken(s: State): set<nat> { set k | 0 <= k < |s.taken| :: s.taken[k] }

  /** What Serve does once the response is out, or is not. */
  function FinishStep(s: State, delivered: bool): State
    requires s.phase.Sending?
  {
    var next := s.(phase := Dropping, taken := []);
    if s.phase.ack.Peek? then
      next.(insts := MarkAll(s.insts, Taken(s)), idle := {})
    else if delivered && Acknowledges(s.phase.ack) then
      next.(held := Some(Held(s.round, s.phase.pending, s.phase.rows, false, {})))
    else if delivered then
      // the scraper that does not acknowledge processes what it was delivered
      Process(next.(insts := Commit(s.insts, s.phase.pending), last := s.round), s.phase.rows)
    else
      next.(insts := MarkAll(s.insts, Taken(s)))
  }

  /** One more write in progress. */
  function Added(d: Inst, v: real, before: bool): Inst {
    if before then d.(closed := d.closed + v, late := d.late + [v], made := d.made + v)
    else d.(open := d.open + v, busy := d.busy + [v], made := d.made + v)
  }

  function DropStep(s: State, i: nat): State
    requires i < |s.insts| && s.insts[i].entry.Some?
  {
    var d := s.insts[i];
    var next := s.(idle := s.idle - {i});
    if s.round - d.entry.value.changed <= IDLE_SCRAPES || d.dead || d.dirty then next
    else next.(insts := s.insts[i := d.(dead := true)])
  }

  ghost function Apply(s: State, e: Event): State
    requires Enabled(s, e)
  {
    match e
    case Add(i, v, before) => s.(insts := s.insts[i := Added(s.insts[i], v, before)])
    case Enlist(i, k, before) =>
      var d := s.insts[i];
      s.(insts := s.insts[i :=
           if before then d.(late := Without(d.late, k), dirty := true) else d.(busy := Without(d.busy, k), dirty := true)])
    case Lookup(key) =>
      s.(insts := s.insts + [Inst(key, false, true, 0.0, 0.0, [], [], 0.0, None, 0.0, 0.0, 0.0, 0.0)])
    case Delete(i) => s.(insts := s.insts[i := s.insts[i].(dead := true)])
    case Request(a, final, idle) =>
      var s1 := Settle(s, a);
      if final && Acknowledges(a) then s1
      else s1.(round := s.round + 1, phase := Cutting(a), idle := idle, taken := [], skipped := {})
    case Cut =>
      s.(insts := seq(|s.insts|, i requires 0 <= i < |s.insts| =>
           s.insts[i].(closed := s.insts[i].open, open := s.insts[i].closed, late := s.insts[i].busy, busy := s.insts[i].late)),
         phase := Swapping(s.phase.ack))
    case Swap =>
      s.(insts := seq(|s.insts|, i requires 0 <= i < |s.insts| => s.insts[i].(dirty := false)),
         phase := Taking(s.phase.ack, Listed(s.insts)))
    case Hand(i) =>
      var d := s.insts[i];
      s.(insts := s.insts[i := d.(atCut := d.atCut + d.closed, closed := 0.0, dirty := d.dirty || d.open != 0.0)],
         phase := Picking(s.phase.ack, s.phase.todo - {i}, i))
    case Check => CheckStep(s)
    case Enter => EnterStep(s)
    case SecondPass =>
      s.(insts := Decided(s.insts, s.taken, s.round),
         phase := Sending(s.phase.ack, Pending(s.insts, s.taken), Rows(s.insts, s.taken)))
    case Finish(delivered) => FinishStep(s, delivered)
    case Drop(i) => DropStep(s, i)
    case Done => s.(phase := Resting)
    case Receive => Process(s, s.held.value.rows).(held := Some(s.held.value.(processed := true)), last := s.held.value.round)
  }

  // ---------------------------------------------------------------- what the code needs of its surroundings

  /** The instance being picked is deleted and its labels have a newer instance. */
  ghost predicate Merging(s: State) {
    s.phase.Picking? && s.phase.inst < |s.insts| && s.insts[s.phase.inst].dead && !Vacant(s, s.insts[s.phase.inst].key)
  }

  /** Skipping the instance pick is about to look up, should it be deleted, does no harm:
      it comes anyway, or once the held round that carries it is rolled back. */
  ghost predicate Harmless(s: State)
    requires s.phase.Entering? && s.phase.inst < |s.insts|
  {
    || !s.insts[s.phase.inst].dead || ComesAnyway(s)
    || (s.held.Some? && !s.held.value.processed && s.phase.inst in s.held.value.values)
  }

  /** A scraper acknowledges exactly the round it has processed; a peek merges an
      instance the held round carries only if the scraper does not process that round,
      before or after; and a child deleted in the moment between the two looks pick takes
      at it is one it may skip. */
  ghost predicate Sound(s: State, e: Event)
    requires Enabled(s, e)
  {
    match e
    case Request(a, _, _) =>
      s.held.Some? && !a.Peek? ==> (Commits(s.session, s.held.value.round, a) <==> s.held.value.processed)
    case Check => Merging(s) && s.held.Some? && s.held.value.processed ==> s.phase.inst !in s.held.value.values
    case Receive => s.held.value.spoiled == {}
    case Enter => Harmless(s)
    case _ => true
  }

  // ---------------------------------------------------------------- sums over the instances of a key

  function Seen(d: Inst): real { d.seen }
  function Made(d: Inst): real { d.made }
  function Moved(d: Inst): real { d.moved }
  function Out(d: Inst): real { d.out }
  function Undelivered(d: Inst): real { Total(d) - Delivered(d) }

  /** The writes in progress. */
  function InProgress(d: Inst): real { Pile(d.busy) + Pile(d.late) }

  function SumBy(insts: seq<Inst>, key: nat, f: Inst -> real): real {
    if insts == [] then 0.0
    else
      var n := |insts| - 1;
      SumBy(insts[..n], key, f) + if insts[n].key == key then f(insts[n]) else 0.0
  }

  lemma SumUpdate(insts: seq<Inst>, i: nat, d: Inst, key: nat, f: Inst -> real)
    requires i < |insts| && d.key == insts[i].key
    ensures SumBy(insts[i := d], key, f) == SumBy(insts, key, f) + if d.key == key then f(d) - f(insts[i]) else 0.0
  {
    var n := |insts| - 1;
    if i < n {
      assert insts[i := d][..n] == insts[..n][i := d];
      SumUpdate(insts[..n], i, d, key, f);
    } else {
      assert insts[i := d][..n] == insts[..n];
    }
  }

  lemma SumSame(a: seq<Inst>, b: seq<Inst>, key: nat, f: Inst -> real)
    requires |a| == |b| && forall i :: 0 <= i < |a| ==> a[i].key == b[i].key && f(a[i]) == f(b[i])
    ensures SumBy(a, key, f) == SumBy(b, key, f)
  {
    if a != [] { SumSame(a[..|a| - 1], b[..|b| - 1], key, f); }
  }

  /** A sum of differences is the difference of the sums. */
  lemma SumMinus(insts: seq<Inst>, key: nat, f: Inst -> real, g: Inst -> real, h: Inst -> real)
    requires forall d <- insts :: f(d) == g(d) - h(d)
    ensures SumBy(insts, key, f) == SumBy(insts, key, g) - SumBy(insts, key, h)
  {
    if insts != [] { SumMinus(insts[..|insts| - 1], key, f, g, h); }
  }

  // ---------------------------------------------------------------- the invariant

  /** What the held round carries. */
  function Values(s: State): map<nat, real> { if s.held.Some? then s.held.value.values - s.held.value.spoiled else map[] }

  /** What the scraper has processed of the held round for i. */
  function HeldPart(s: State, i: nat): real {
    if s.held.Some? && s.held.value.processed then Said(s.held.value.rows, i) else 0.0
  }

  ghost predicate Before(p: Phase) { p.Resting? || p.Cutting? || p.Swapping? || p.Dropping? }

  ghost predicate Scraping(p: Phase) { !p.Resting? && !p.Dropping? }

  function Todo(p: Phase): set<nat> { if p.Taking? || p.Picking? || p.Entering? then p.todo else {} }

  /** i will be reported: it is listed, or this scrape has it. */
  ghost predicate Coming(s: State, i: nat)
    requires i < |s.insts|
  {
    if Before(s.phase) then s.insts[i].dirty
    else
      || i in Todo(s.phase) || i in s.taken
      || ((s.phase.Picking? || s.phase.Entering?) && s.phase.inst == i)
      || (i in s.skipped && s.insts[i].dirty)
  }

  ghost predicate HeldAt(s: State, i: nat)
    requires i < |s.insts|
  {
    i in Values(s) && Values(s)[i] == s.insts[i].atCut + Closed(s.insts[i])
  }

  /** i comes again once the held round is rolled back, which is all it can be now. */
  ghost predicate Spoiled(s: State, i: nat) {
    s.held.Some? && i in s.held.value.values && i in s.held.value.spoiled && !s.held.value.processed
  }

  ghost predicate NonNegative(vs: seq<real>) { forall k :: 0 <= k < |vs| ==> vs[k] >= 0.0 }

  lemma {:induction false} PileNonNegative(vs: seq<real>)
    requires NonNegative(vs)
    ensures Pile(vs) >= 0.0
  {
    if vs != [] { PileNonNegative(vs[..|vs| - 1]); }
  }

  /** What was written is somewhere, and no more than it was delivered. */
  ghost predicate AmountsOk(d: Inst) {
    && Opened(d) >= 0.0 && Closed(d) >= 0.0 && NonNegative(d.busy) && NonNegative(d.late)
    && 0.0 <= Delivered(d) <= d.atCut && Total(d) == d.made + d.moved
  }

  ghost predicate InstOk(s: State, i: nat)
    requires i < |s.insts|
  {
    var d := s.insts[i];
    && AmountsOk(d) && (d.late != [] ==> s.phase.Swapping?)
    && (Closed(d) > 0.0 ==> (s.phase.Swapping? && d.dirty) || i in Todo(s.phase))
    && (Opened(d) > 0.0 ==> d.dirty || i in Todo(s.phase))
    && (d.atCut + Closed(d) > Delivered(d) ==> Coming(s, i) || HeldAt(s, i) || Spoiled(s, i))
    && d.seen == Delivered(d) - d.out + HeldPart(s, i)
    && (d.entry.Some? ==> d.entry.value.changed <= s.round && d.entry.value.picked <= s.round)
    && (Scraping(s.phase) && d.entry.Some? && d.entry.value.picked == s.round ==> i in s.taken)
    && (i in Values(s) ==> d.entry.Some? && Delivered(d) < Values(s)[i] <= d.atCut)
    && (s.phase.Dropping? && s.idle != {} && i in Values(s) ==> d.entry.value.changed == s.round)
  }

  /** The lines and the values of a round say the same, but for the instances spoiled. */
  ghost predicate RoundOk(s: State, values: map<nat, real>, rows: seq<Row>, spoiled: set<nat>) {
    && (forall i <- values :: i < |s.insts|)
    && (forall r <- rows :: r.inst < |s.insts| && r.key == s.insts[r.inst].key)
    && (forall i :: 0 <= i < |s.insts| && i !in spoiled ==> Said(rows, i) == if i in values then values[i] - Delivered(s.insts[i]) else 0.0)
  }

  ghost predicate TodoOk(s: State) { forall i <- Todo(s.phase) :: i < |s.insts| }

  lemma TodoKept(s: State, s': State)
    requires TodoOk(s) && Todo(s'.phase) <= Todo(s.phase) && |s.insts| <= |s'.insts|
    ensures TodoOk(s')
  {
    forall i: nat | i in Todo(s'.phase) ensures i < |s'.insts| { assert i in Todo(s.phase); }
  }

  /** What was picked in this scrape, each instance once. */
  ghost predicate PicksOk(s: State) {
    && (Before(s.phase) ==> s.taken == [])
    && (forall k :: 0 <= k < |s.taken| ==>
          s.taken[k] < |s.insts| && s.insts[s.taken[k]].entry.Some? && s.insts[s.taken[k]].entry.value.picked == s.round)
    && (forall k, l :: 0 <= k < l < |s.taken| ==> s.taken[k] != s.taken[l])
    && TodoOk(s)
    && (s.phase.Picking? || s.phase.Entering? ==> s.phase.inst < |s.insts|)
    && (forall i <- s.idle :: i < |s.insts| && s.insts[i].entry.Some?)
    && (Scraping(s.phase) ==> s.round > 0)
  }

  ghost predicate HeldOk(s: State) { s.held.Some? ==> RoundOk(s, s.held.value.values, s.held.value.rows, s.held.value.spoiled) }

  ghost predicate SendOk(s: State)
    requires PicksOk(s)
  {
    s.phase.Sending? ==>
      && RoundOk(s, s.phase.pending, s.phase.rows, {})
      && (forall i <- s.phase.pending ::
            && i in s.taken && s.phase.pending[i] == s.insts[i].atCut > Delivered(s.insts[i])
            && s.insts[i].entry.value.changed == s.round)
      && (forall i <- s.taken :: i in s.phase.pending || s.insts[i].atCut == Delivered(s.insts[i]))
  }

  /** Only a peek is served while a round is held; round numbers only grow. */
  ghost predicate NumbersOk(s: State) {
    && (Scraping(s.phase) && !s.phase.ack.Peek? ==> s.held.None?)
    && s.last <= s.round && (Scraping(s.phase) ==> s.last < s.round)
    && (s.held.Some? ==>
          && s.held.value.round <= s.round && (Scraping(s.phase) ==> s.held.value.round < s.round)
          && (if s.held.value.processed then s.last == s.held.value.round else s.last < s.held.value.round)
          && (s.held.value.processed || (s.phase.Dropping? && s.idle != {}) ==> s.held.value.spoiled == {}))
  }

  ghost predicate PhaseOk(s: State)
    requires PicksOk(s)
  {
    HeldOk(s) && SendOk(s) && NumbersOk(s)
  }

  /** At most one live instance for a key. */
  ghost predicate Unique(s: State) {
    forall i, j :: 0 <= i < |s.insts| && 0 <= j < |s.insts| && !s.insts[i].dead && !s.insts[j].dead && s.insts[i].key == s.insts[j].key ==> i == j
  }

  ghost predicate SumsOk(s: State) {
    forall key: nat :: SumOf(s.sums, key) == SumBy(s.insts, key, Seen) && SumBy(s.insts, key, Moved) == SumBy(s.insts, key, Out)
  }

  ghost predicate InstsOk(s: State) { forall i :: 0 <= i < |s.insts| ==> InstOk(s, i) }

  ghost predicate Inv(s: State) {
    && InstsOk(s)
    && PicksOk(s) && PhaseOk(s) && Unique(s) && SumsOk(s)
  }

  // ---------------------------------------------------------------- clients and the application

  /** Nothing the sums are made of has changed. */
  ghost predicate SameHistory(s: State, s': State) {
    && |s'.insts| == |s.insts| && s'.sums == s.sums
    && (forall i :: 0 <= i < |s.insts| ==>
          && s'.insts[i].key == s.insts[i].key && s'.insts[i].seen == s.insts[i].seen
          && s'.insts[i].moved == s.insts[i].moved && s'.insts[i].out == s.insts[i].out)
  }

  lemma HistoryKept(s: State, s': State)
    requires SumsOk(s) && SameHistory(s, s')
    ensures SumsOk(s')
  {
    forall key: nat
      ensures SumOf(s'.sums, key) == SumBy(s'.insts, key, Seen) && SumBy(s'.insts, key, Moved) == SumBy(s'.insts, key, Out)
    {
      SumSame(s.insts, s'.insts, key, Seen);
      SumSame(s.insts, s'.insts, key, Moved);
      SumSame(s.insts, s'.insts, key, Out);
    }
  }

  /** The held round carries the same of j, as far as the scraper goes as well. */
  ghost predicate SameHeld(s: State, s': State, j: nat) {
    && HeldPart(s', j) == HeldPart(s, j) && (j in Values(s') <==> j in Values(s))
    && (j in Values(s) ==> Values(s')[j] == Values(s)[j]) && (Spoiled(s, j) ==> Spoiled(s', j))
  }

  /** An instance a step leaves alone is still in order, if it is still coming. */
  lemma OtherOk(s: State, s': State, j: nat)
    requires j < |s.insts| && j < |s'.insts| && InstOk(s, j) && s'.insts[j] == s.insts[j]
    requires SameHeld(s, s', j) && s'.round == s.round && (s'.idle != {} ==> s.idle != {})
    requires Scraping(s'.phase) == Scraping(s.phase) && s'.phase.Swapping? == s.phase.Swapping? && s'.phase.Dropping? == s.phase.Dropping?
    requires Coming(s, j) ==> Coming(s', j)
    requires j in Todo(s.phase) ==> j in Todo(s'.phase)
    requires j in s.taken ==> j in s'.taken
    ensures InstOk(s', j)
  {
  }

  /** A step that delivers and settles nothing keeps the held round in order. */
  lemma HeldKept(s: State, s': State)
    requires HeldOk(s) && s'.held == s.held && |s'.insts| == |s.insts|
    requires forall i :: 0 <= i < |s.insts| ==>
      s'.insts[i].key == s.insts[i].key && (i in Values(s) ==> Delivered(s'.insts[i]) == Delivered(s.insts[i]))
    ensures HeldOk(s')
  {
  }

  lemma SendKept(s: State, s': State)
    requires PicksOk(s) && PicksOk(s') && SendOk(s) && |s'.insts| == |s.insts|
    requires s'.phase == s.phase && s'.taken == s.taken && s'.round == s.round
    requires forall i :: 0 <= i < |s.insts| ==>
      s'.insts[i].key == s.insts[i].key && s'.insts[i].entry == s.insts[i].entry && s'.insts[i].atCut == s.insts[i].atCut
    ensures SendOk(s')
  {
    assert forall i :: 0 <= i < |s.insts| ==> Delivered(s'.insts[i]) == Delivered(s.insts[i]);
  }

  /** A step that changes no entry, no value as of the cut and nothing of the scrape. */
  lemma RoundKept(s: State, s': State)
    requires PicksOk(s) && PhaseOk(s) && |s'.insts| == |s.insts|
    requires s'.held == s.held && s'.last == s.last && s'.phase == s.phase && s'.taken == s.taken && s'.round == s.round && s'.idle <= s.idle
    requires forall i :: 0 <= i < |s.insts| ==>
      s'.insts[i].key == s.insts[i].key && s'.insts[i].entry == s.insts[i].entry && s'.insts[i].atCut == s.insts[i].atCut
    ensures PicksOk(s') && PhaseOk(s')
  {
    HeldKept(s, s');
    SendKept(s, s');
  }

  lemma AddedAmounts(d: Inst, v: real, before: bool)
    requires AmountsOk(d) && v >= 0.0
    ensures AmountsOk(Added(d, v, before))
    ensures Opened(Added(d, v, before)) == Opened(d) && Closed(Added(d, v, before)) == Closed(d)
  {
    PileAppend(d.busy, v);
    PileAppend(d.late, v);
  }

  /** An instance whose writes in progress are all that has changed. */
  lemma StandsOk(s: State, i: nat, d: Inst)
    requires i < |s.insts| && InstOk(s, i) && AmountsOk(d) && (d.late != [] ==> s.phase.Swapping?)
    requires Opened(d) == Opened(s.insts[i]) && Closed(d) == Closed(s.insts[i]) && d.dirty == s.insts[i].dirty
    requires d.atCut == s.insts[i].atCut && d.entry == s.insts[i].entry && d.out == s.insts[i].out && d.seen == s.insts[i].seen
    ensures InstOk(s.(insts := s.insts[i := d]), i)
  {
  }

  lemma AddedOk(s: State, i: nat, v: real, before: bool)
    requires Enabled(s, Add(i, v, before)) && InstOk(s, i)
    ensures InstOk(Apply(s, Add(i, v, before)), i)
  {
    AddedAmounts(s.insts[i], v, before);
    StandsOk(s, i, Added(s.insts[i], v, before));
  }

  lemma AddKeeps(s: State, i: nat, v: real, before: bool)
    requires Inv(s) && Enabled(s, Add(i, v, before))
    ensures Inv(Apply(s, Add(i, v, before)))
  {
    var s' := Apply(s, Add(i, v, before));
    HistoryKept(s, s');
    RoundKept(s, s');
    forall j | 0 <= j < |s'.insts| ensures InstOk(s', j) {
      assert InstOk(s, j);
      if j != i { OtherOk(s, s', j); } else { AddedOk(s, i, v, before); }
    }
  }

  lemma EnlistedOk(s: State, i: nat, k: nat, before: bool)
    requires Enabled(s, Enlist(i, k, before)) && InstOk(s, i)
    ensures InstOk(Apply(s, Enlist(i, k, before)), i)
  {
    var d := s.insts[i];
    if before { PileWithout(d.late, k); } else { PileWithout(d.busy, k); }
  }

  lemma EnlistKeeps(s: State, i: nat, k: nat, before: bool)
    requires Inv(s) && Enabled(s, Enlist(i, k, before))
    ensures Inv(Apply(s, Enlist(i, k, before)))
  {
    var s' := Apply(s, Enlist(i, k, before));
    HistoryKept(s, s');
    RoundKept(s, s');
    forall j | 0 <= j < |s'.insts| ensures InstOk(s', j) {
      assert InstOk(s, j);
      if j != i { OtherOk(s, s', j); } else { EnlistedOk(s, i, k, before); }
    }
  }

  lemma DeletedOk(s: State, i: nat)
    requires i < |s.insts| && InstOk(s, i) && Enabled(s, Delete(i))
    ensures InstOk(Apply(s, Delete(i)), i)
  {
  }

  lemma DeleteKeeps(s: State, i: nat)
    requires Inv(s) && Enabled(s, Delete(i))
    ensures Inv(Apply(s, Delete(i)))
  {
    var s' := Apply(s, Delete(i));
    HistoryKept(s, s');
    RoundKept(s, s');
    forall j | 0 <= j < |s'.insts| ensures InstOk(s', j) {
      assert InstOk(s, j);
      if j != i { OtherOk(s, s', j); } else { DeletedOk(s, i); }
    }
  }

  lemma SaidNone(rows: seq<Row>, i: nat)
    requires forall r <- rows :: r.inst != i
    ensures Said(rows, i) == 0.0
  {
    if rows != [] {
      assert rows[|rows| - 1] in rows;
      SaidNone(rows[..|rows| - 1], i);
    }
  }

  lemma LookupInsts(s: State, key: nat)
    requires InstsOk(s) && PicksOk(s) && PhaseOk(s) && Enabled(s, Lookup(key))
    ensures InstsOk(Apply(s, Lookup(key)))
  {
    var s' := Apply(s, Lookup(key));
    var n := |s.insts|;
    if s.held.Some? { SaidNone(s.held.value.rows, n); }
    forall j | 0 <= j < |s'.insts| ensures InstOk(s', j) {
      if j < n { assert InstOk(s, j); OtherOk(s, s', j); }
    }
  }

  lemma LookupHeld(s: State, key: nat)
    requires HeldOk(s) && Enabled(s, Lookup(key))
    ensures HeldOk(Apply(s, Lookup(key)))
  {
    if s.held.Some? { SaidNone(s.held.value.rows, |s.insts|); }
  }

  lemma LookupPicks(s: State, key: nat)
    requires PicksOk(s) && Enabled(s, Lookup(key))
    ensures PicksOk(Apply(s, Lookup(key)))
  {
    TodoKept(s, Apply(s, Lookup(key)));
  }

  lemma LookupPhase(s: State, key: nat)
    requires PicksOk(s) && PhaseOk(s) && Enabled(s, Lookup(key))
    ensures PicksOk(Apply(s, Lookup(key))) && PhaseOk(Apply(s, Lookup(key)))
  {
    LookupPicks(s, key);
    LookupHeld(s, key);
    if s.phase.Sending? { SaidNone(s.phase.rows, |s.insts|); }
  }

  lemma LookupKeeps(s: State, key: nat)
    requires Inv(s) && Enabled(s, Lookup(key))
    ensures Inv(Apply(s, Lookup(key)))
  {
    LookupInsts(s, key);
    LookupPhase(s, key);
    var s' := Apply(s, Lookup(key));
    var n := |s.insts|;
    assert s'.insts[..n] == s.insts;
    forall k: nat
      ensures SumOf(s'.sums, k) == SumBy(s'.insts, k, Seen) && SumBy(s'.insts, k, Moved) == SumBy(s'.insts, k, Out)
    {
    }
    forall i | 0 <= i < n && !s.insts[i].dead ensures s.insts[i].key != key { assert !Live(s, i, key); }
  }

  // ---------------------------------------------------------------- a request

  lemma SettleInsts(s: State, a: Ack)
    requires InstsOk(s) && PicksOk(s) && HeldOk(s) && NumbersOk(s) && s.phase.Resting?
    requires s.held.Some? && !a.Peek? ==> (Commits(s.session, s.held.value.round, a) <==> s.held.value.processed)
    ensures InstsOk(Settle(s, a))
  {
    var s' := Settle(s, a);
    forall j | 0 <= j < |s'.insts| ensures InstOk(s', j) { assert InstOk(s, j); }
  }

  lemma SettleKeeps(s: State, a: Ack)
    requires Inv(s) && s.phase.Resting?
    requires s.held.Some? && !a.Peek? ==> (Commits(s.session, s.held.value.round, a) <==> s.held.value.processed)
    ensures Inv(Settle(s, a)) && (!a.Peek? ==> Settle(s, a).held.None?) && Settle(s, a).phase.Resting?
    ensures |Settle(s, a).insts| == |s.insts|
    ensures forall i :: 0 <= i < |s.insts| ==> Settle(s, a).insts[i].dead == s.insts[i].dead
    ensures forall i :: 0 <= i < |s.insts| && s.insts[i].entry.Some? ==>
      Settle(s, a).insts[i].entry.Some? && Settle(s, a).insts[i].entry.value.changed == s.insts[i].entry.value.changed
  {
    HistoryKept(s, Settle(s, a));
    SettleInsts(s, a);
  }

  /** A new scrape begins. */
  lemma BeginKeeps(s: State, a: Ack, idle: set<nat>)
    requires Inv(s) && s.phase.Resting? && (!a.Peek? ==> s.held.None?)
    requires forall i <- idle :: i < |s.insts| && s.insts[i].entry.Some?
    ensures Inv(s.(round := s.round + 1, phase := Cutting(a), idle := idle, taken := [], skipped := {}))
  {
    var s' := s.(round := s.round + 1, phase := Cutting(a), idle := idle, taken := [], skipped := {});
    HistoryKept(s, s');
    HeldKept(s, s');
    forall j | 0 <= j < |s'.insts| ensures InstOk(s', j) { assert InstOk(s, j); }
  }

  lemma RequestIdle(s: State, a: Ack, final: bool, idle: set<nat>)
    requires Inv(s) && Enabled(s, Request(a, final, idle))
    ensures forall i <- idle :: i < |Settle(s, a).insts| && Settle(s, a).insts[i].entry.Some?
  {
    forall i <- idle ensures i < |Settle(s, a).insts| && Settle(s, a).insts[i].entry.Some? { assert Idle(s, i, s.round + 1); }
  }

  lemma RequestKeeps(s: State, a: Ack, final: bool, idle: set<nat>)
    requires Inv(s) && Enabled(s, Request(a, final, idle)) && Sound(s, Request(a, final, idle))
    ensures Inv(Apply(s, Request(a, final, idle)))
  {
    SettleKeeps(s, a);
    if !(final && Acknowledges(a)) {
      RequestIdle(s, a, final, idle);
      BeginKeeps(Settle(s, a), a, idle);
    }
  }

  lemma CutKeeps(s: State)
    requires Inv(s) && Enabled(s, Cut)
    ensures Inv(Apply(s, Cut))
  {
    var s' := Apply(s, Cut);
    HistoryKept(s, s');
    HeldKept(s, s');
    forall j | 0 <= j < |s'.insts| ensures InstOk(s', j) { assert InstOk(s, j); }
  }

  lemma SwapKeeps(s: State)
    requires Inv(s) && Enabled(s, Swap)
    ensures Inv(Apply(s, Swap))
  {
    var s' := Apply(s, Swap);
    HistoryKept(s, s');
    HeldKept(s, s');
    forall j | 0 <= j < |s'.insts| ensures InstOk(s', j) { assert InstOk(s, j); }
  }

  lemma HandedOk(s: State, i: nat)
    requires i < |s.insts| && InstOk(s, i) && PicksOk(s) && Enabled(s, Hand(i))
    ensures InstOk(Apply(s, Hand(i)), i)
  {
    PileNonNegative(s.insts[i].busy);
    assert s.insts[i].late == [];
  }

  lemma HandKeeps(s: State, i: nat)
    requires Inv(s) && Enabled(s, Hand(i))
    ensures Inv(Apply(s, Hand(i)))
  {
    var s' := Apply(s, Hand(i));
    TodoKept(s, s');
    HistoryKept(s, s');
    HeldKept(s, s');
    forall j | 0 <= j < |s'.insts| ensures InstOk(s', j) {
      assert InstOk(s, j);
      if j == i { HandedOk(s, i); } else { OtherOk(s, s', j); }
    }
  }

  // ---------------------------------------------------------------- pick and settleDeleted

  lemma ReviveKeeps(s: State)
    requires Inv(s) && Enabled(s, Check) && s.insts[s.phase.inst].dead && Vacant(s, s.insts[s.phase.inst].key)
    ensures Inv(Apply(s, Check))
  {
    var s' := Apply(s, Check);
    HistoryKept(s, s');
    RoundKept(s, s');
    ReviveInsts(s);
    forall j | 0 <= j < |s.insts| && !s.insts[j].dead ensures s.insts[j].key != s.insts[s.phase.inst].key {
      assert !Live(s, j, s.insts[s.phase.inst].key);
    }
  }

  lemma ReviveInsts(s: State)
    requires InstsOk(s) && Enabled(s, Check) && s.insts[s.phase.inst].dead && Vacant(s, s.insts[s.phase.inst].key)
    ensures InstsOk(Apply(s, Check))
  {
    var s' := Apply(s, Check);
    forall j | 0 <= j < |s'.insts| ensures InstOk(s', j) { assert InstOk(s, j); }
  }

  lemma MergeSum(s: State, i: nat, j: nat, key: nat)
    requires s.phase.Picking? && i < |s.insts| && j < |s.insts| && i != j && s.insts[i].key == s.insts[j].key
    ensures var s' := Merge(s, i, j);
      && SumBy(s'.insts, key, Seen) == SumBy(s.insts, key, Seen)
      && SumBy(s'.insts, key, Moved) - SumBy(s'.insts, key, Out) == SumBy(s.insts, key, Moved) - SumBy(s.insts, key, Out)
  {
    var s' := Merge(s, i, j);
    var mid := s.insts[i := s'.insts[i]];
    SumUpdate(s.insts, i, s'.insts[i], key, Seen);
    SumUpdate(s.insts, i, s'.insts[i], key, Moved);
    SumUpdate(s.insts, i, s'.insts[i], key, Out);
    assert s'.insts == mid[j := s'.insts[j]];
    SumUpdate(mid, j, s'.insts[j], key, Seen);
    SumUpdate(mid, j, s'.insts[j], key, Moved);
    SumUpdate(mid, j, s'.insts[j], key, Out);
  }

  lemma MergeSums(s: State, i: nat, j: nat)
    requires SumsOk(s) && s.phase.Picking? && i < |s.insts| && j < |s.insts| && i != j && s.insts[i].key == s.insts[j].key
    ensures SumsOk(Merge(s, i, j))
  {
    var s' := Merge(s, i, j);
    forall key: nat
      ensures SumOf(s'.sums, key) == SumBy(s'.insts, key, Seen) && SumBy(s'.insts, key, Moved) == SumBy(s'.insts, key, Out)
    {
      MergeSum(s, i, j, key);
    }
  }

  /** The scraper has not processed a held round that carries i. */
  ghost predicate MayMerge(s: State, i: nat) { s.held.Some? && s.held.value.processed ==> i !in s.held.value.values }

  lemma MergedOk(s: State, i: nat, j: nat)
    requires HeldOk(s) && NumbersOk(s) && s.phase.Picking? && i == s.phase.inst < |s.insts| && j < |s.insts|
    requires InstOk(s, i) && s.insts[i].dead && Live(s, j, s.insts[i].key) && MayMerge(s, i)
    ensures InstOk(Merge(s, i, j), i)
  {
  }

  lemma MergeTargetOk(s: State, i: nat, j: nat)
    requires s.phase.Picking? && i == s.phase.inst < |s.insts| && j < |s.insts|
    requires InstOk(s, j) && s.insts[i].dead && Live(s, j, s.insts[i].key)
    ensures InstOk(Merge(s, i, j), j)
  {
  }

  lemma MergeInsts(s: State, i: nat, j: nat)
    requires InstsOk(s) && PicksOk(s) && PhaseOk(s) && s.phase.Picking? && i == s.phase.inst < |s.insts| && j < |s.insts|
    requires s.insts[i].dead && Live(s, j, s.insts[i].key) && MayMerge(s, i)
    ensures InstsOk(Merge(s, i, j))
  {
    var s' := Merge(s, i, j);
    forall l | 0 <= l < |s'.insts| ensures InstOk(s', l) {
      assert InstOk(s, l);
      if l == i { MergedOk(s, i, j); } else if l == j { MergeTargetOk(s, i, j); } else { OtherOk(s, s', l); }
    }
  }

  /** Whatever the merge changes of the held round's part in i is spoiled. */
  lemma SpoilKept(s: State, i: nat, j: nat)
    requires HeldOk(s) && s.phase.Picking? && i < |s.insts| && j < |s.insts| && i != j
    ensures HeldOk(Merge(s, i, j))
  {
    assert forall k :: 0 <= k < |s.insts| && k != i ==> Delivered(Merge(s, i, j).insts[k]) == Delivered(s.insts[k]);
  }

  lemma MergePicks(s: State, i: nat, j: nat)
    requires InstsOk(s) && PicksOk(s) && s.phase.Picking? && i == s.phase.inst < |s.insts| && j < |s.insts|
    requires s.insts[i].dead && Live(s, j, s.insts[i].key)
    ensures PicksOk(Merge(s, i, j))
  {
    assert InstOk(s, i) && InstOk(s, j);
    TodoKept(s, Merge(s, i, j));
  }

  lemma MergePhase(s: State, i: nat, j: nat)
    requires InstsOk(s) && PicksOk(s) && PhaseOk(s) && s.phase.Picking? && i == s.phase.inst < |s.insts| && j < |s.insts|
    requires s.insts[i].dead && Live(s, j, s.insts[i].key) && MayMerge(s, i)
    ensures PicksOk(Merge(s, i, j)) && PhaseOk(Merge(s, i, j))
  {
    MergePicks(s, i, j);
    assert InstOk(s, i) && InstOk(s, j);
    SpoilKept(s, i, j);
  }

  lemma MergeKeeps(s: State, i: nat, j: nat)
    requires Inv(s) && s.phase.Picking? && i == s.phase.inst < |s.insts| && j < |s.insts|
    requires s.insts[i].dead && Live(s, j, s.insts[i].key) && MayMerge(s, i)
    ensures Inv(Merge(s, i, j))
  {
    MergeSums(s, i, j);
    MergeInsts(s, i, j);
    MergePhase(s, i, j);
  }

  lemma AskKeeps(s: State)
    requires Inv(s) && Enabled(s, Check) && !s.insts[s.phase.inst].dead
    ensures Inv(Apply(s, Check))
  {
    var s' := Apply(s, Check);
    TodoKept(s, s');
    HistoryKept(s, s');
    HeldKept(s, s');
    forall j | 0 <= j < |s'.insts| ensures InstOk(s', j) { assert InstOk(s, j); }
  }

  lemma CheckKeeps(s: State)
    requires Inv(s) && Enabled(s, Check) && Sound(s, Check)
    ensures Inv(Apply(s, Check))
  {
    var i := s.phase.inst;
    if !s.insts[i].dead {
      AskKeeps(s);
    } else if Vacant(s, s.insts[i].key) {
      ReviveKeeps(s);
    } else {
      var j :| Live(s, j, s.insts[i].key) && Apply(s, Check) == Merge(s, i, j);
      assert Merging(s) && Live(s, j, s.insts[i].key);
      MergeKeeps(s, i, j);
    }
  }

  lemma EnteredOk(s: State)
    requires Enabled(s, Enter) && Sound(s, Enter) && InstOk(s, s.phase.inst)
    ensures InstOk(Apply(s, Enter), s.phase.inst)
  {
    var s' := Apply(s, Enter);
    assert s'.taken != s.taken ==> s'.taken[|s.taken|] == s.phase.inst;
    assert forall i <- s.taken :: i in s'.taken;
  }

  lemma EnterInsts(s: State)
    requires InstsOk(s) && Enabled(s, Enter) && Sound(s, Enter)
    ensures InstsOk(Apply(s, Enter))
  {
    var s' := Apply(s, Enter);
    assert forall i <- s.taken :: i in s'.taken;
    forall j | 0 <= j < |s'.insts| ensures InstOk(s', j) {
      assert InstOk(s, j);
      if j == s.phase.inst { EnteredOk(s); } else { OtherOk(s, s', j); }
    }
  }

  lemma EnterTaken(s: State)
    requires InstsOk(s) && PicksOk(s) && Enabled(s, Enter)
    ensures PicksOk(Apply(s, Enter))
  {
    assert InstOk(s, s.phase.inst);
    TodoKept(s, Apply(s, Enter));
  }

  lemma EnterHeld(s: State)
    requires HeldOk(s) && Enabled(s, Enter)
    ensures HeldOk(Apply(s, Enter))
  {
    assert forall k :: 0 <= k < |s.insts| ==> Delivered(Apply(s, Enter).insts[k]) == Delivered(s.insts[k]);
  }

  lemma EnterNumbers(s: State)
    requires NumbersOk(s) && Enabled(s, Enter)
    ensures NumbersOk(Apply(s, Enter))
  {
  }

  lemma EnterPicks(s: State)
    requires InstsOk(s) && PicksOk(s) && PhaseOk(s) && Enabled(s, Enter) && Sound(s, Enter)
    ensures PicksOk(Apply(s, Enter)) && PhaseOk(Apply(s, Enter))
  {
    EnterTaken(s);
    EnterHeld(s);
    EnterNumbers(s);
  }

  lemma EnterKeeps(s: State)
    requires Inv(s) && Enabled(s, Enter) && Sound(s, Enter)
    ensures Inv(Apply(s, Enter))
  {
    EnterInsts(s);
    EnterPicks(s);
    HistoryKept(s, Apply(s, Enter));
  }

  // ---------------------------------------------------------------- the second pass

  /** Every instance picked has one line, if it has anything to report. */
  lemma RowsSay(insts: seq<Inst>, taken: seq<nat>, i: nat)
    requires forall k :: 0 <= k < |taken| ==> taken[k] < |insts|
    requires forall k, l :: 0 <= k < l < |taken| ==> taken[k] != taken[l]
    requires i < |insts|
    ensures Said(Rows(insts, taken), i) == if i in taken && Changed(insts[i]) then insts[i].atCut - Delivered(insts[i]) else 0.0
  {
    if taken != [] {
      var n := |taken| - 1;
      RowsSay(insts, taken[..n], i);
      assert taken[n] !in taken[..n];
      assert i in taken <==> i in taken[..n] || i == taken[n];
      var rows, rest := Rows(insts, taken), Rows(insts, taken[..n]);
      assert rows != rest ==> rows[..|rows| - 1] == rest;
    }
  }

  lemma RowsPoint(insts: seq<Inst>, taken: seq<nat>)
    requires forall k :: 0 <= k < |taken| ==> taken[k] < |insts|
    ensures forall r <- Rows(insts, taken) :: r.inst < |insts| && r.key == insts[r.inst].key
  {
    if taken != [] { RowsPoint(insts, taken[..|taken| - 1]); }
  }

  lemma DecidedOk(s: State, j: nat)
    requires j < |s.insts| && InstOk(s, j) && PicksOk(s) && Enabled(s, SecondPass)
    ensures InstOk(Apply(s, SecondPass), j)
  {
  }

  lemma SecondPassPicks(s: State)
    requires PicksOk(s) && Enabled(s, SecondPass)
    ensures PicksOk(Apply(s, SecondPass))
  {
  }

  lemma SecondPassRound(s: State)
    requires PicksOk(s) && Enabled(s, SecondPass)
    ensures var s' := Apply(s, SecondPass); RoundOk(s', s'.phase.pending, s'.phase.rows, {})
  {
    var s' := Apply(s, SecondPass);
    RowsPoint(s.insts, s.taken);
    forall i | 0 <= i < |s.insts|
      ensures Said(s'.phase.rows, i) == if i in s'.phase.pending then s'.phase.pending[i] - Delivered(s'.insts[i]) else 0.0
    {
      RowsSay(s.insts, s.taken, i);
    }
  }

  lemma SecondPassSends(s: State)
    requires InstsOk(s) && PicksOk(s) && Enabled(s, SecondPass)
    ensures PicksOk(Apply(s, SecondPass)) && SendOk(Apply(s, SecondPass))
  {
    var s' := Apply(s, SecondPass);
    SecondPassPicks(s);
    SecondPassRound(s);
    forall i <- s'.phase.pending ensures s.insts[i].atCut > Delivered(s.insts[i]) { assert InstOk(s, i); }
  }

  lemma SecondPassKeeps(s: State)
    requires Inv(s) && Enabled(s, SecondPass)
    ensures Inv(Apply(s, SecondPass))
  {
    var s' := Apply(s, SecondPass);
    forall j | 0 <= j < |s'.insts| ensures InstOk(s', j) { assert InstOk(s, j); DecidedOk(s, j); }
    SecondPassSends(s);
    HeldKept(s, s');
    HistoryKept(s, s');
  }

  // ---------------------------------------------------------------- the scraper adds up

  function SaidOf(rows: seq<Row>, key: nat): real {
    if rows == [] then 0.0
    else SaidOf(rows[..|rows| - 1], key) + if rows[|rows| - 1].key == key then rows[|rows| - 1].inc else 0.0
  }

  lemma AddUpSum(sums: map<nat, real>, rows: seq<Row>, key: nat)
    ensures SumOf(AddUp(sums, rows), key) == SumOf(sums, key) + SaidOf(rows, key)
  {
    if rows != [] { AddUpSum(sums, rows[..|rows| - 1], key); }
  }

  lemma CreditLast(insts: seq<Inst>, rows: seq<Row>)
    requires rows != [] && rows[|rows| - 1].inst < |insts|
    ensures var r := rows[|rows| - 1];
      var before := Credit(insts, rows[..|rows| - 1]);
      Credit(insts, rows) == before[r.inst := before[r.inst].(seen := before[r.inst].seen + r.inc)]
  {
  }

  lemma CreditSum(insts: seq<Inst>, rows: seq<Row>, key: nat)
    requires forall r <- rows :: r.inst < |insts| && r.key == insts[r.inst].key
    ensures SumBy(Credit(insts, rows), key, Seen) == SumBy(insts, key, Seen) + SaidOf(rows, key)
  {
    if rows == [] {
      SumSame(insts, Credit(insts, rows), key, Seen);
    } else {
      var r := rows[|rows| - 1];
      assert r in rows;
      CreditSum(insts, rows[..|rows| - 1], key);
      CreditLast(insts, rows);
      var before := Credit(insts, rows[..|rows| - 1]);
      SumUpdate(before, r.inst, before[r.inst].(seen := before[r.inst].seen + r.inc), key, Seen);
    }
  }

  lemma ProcessSums(s: State, rows: seq<Row>)
    requires SumsOk(s) && forall r <- rows :: r.inst < |s.insts| && r.key == s.insts[r.inst].key
    ensures SumsOk(Process(s, rows))
  {
    var s' := Process(s, rows);
    forall key: nat
      ensures SumOf(s'.sums, key) == SumBy(s'.insts, key, Seen) && SumBy(s'.insts, key, Moved) == SumBy(s'.insts, key, Out)
    {
      AddUpSum(s.sums, rows, key);
      CreditSum(s.insts, rows, key);
      SumSame(s.insts, s'.insts, key, Moved);
      SumSame(s.insts, s'.insts, key, Out);
    }
  }

  lemma ReceivedOk(s: State, j: nat)
    requires PicksOk(s) && PhaseOk(s) && Enabled(s, Receive) && Sound(s, Receive) && j < |s.insts| && InstOk(s, j)
    ensures InstOk(Apply(s, Receive), j)
  {
  }

  lemma ReceiveHeld(s: State)
    requires HeldOk(s) && NumbersOk(s) && Enabled(s, Receive) && Sound(s, Receive)
    ensures HeldOk(Apply(s, Receive)) && NumbersOk(Apply(s, Receive))
  {
    assert forall i :: 0 <= i < |s.insts| ==> Delivered(Apply(s, Receive).insts[i]) == Delivered(s.insts[i]);
  }

  lemma ReceivePicks(s: State)
    requires PicksOk(s) && Enabled(s, Receive)
    ensures PicksOk(Apply(s, Receive))
  {
    TodoKept(s, Apply(s, Receive));
  }

  lemma ReceivePhase(s: State)
    requires PicksOk(s) && PhaseOk(s) && Enabled(s, Receive) && Sound(s, Receive)
    ensures PicksOk(Apply(s, Receive)) && PhaseOk(Apply(s, Receive))
  {
    ReceivePicks(s);
    ReceiveHeld(s);
    assert forall i :: 0 <= i < |s.insts| ==> Delivered(Apply(s, Receive).insts[i]) == Delivered(s.insts[i]);
  }

  lemma ReceiveKeeps(s: State)
    requires Inv(s) && Enabled(s, Receive) && Sound(s, Receive)
    ensures Inv(Apply(s, Receive))
  {
    var s' := Apply(s, Receive);
    ProcessSums(s, s.held.value.rows);
    assert SumsOk(s');
    ReceivePhase(s);
    forall j | 0 <= j < |s'.insts| ensures InstOk(s', j) { assert InstOk(s, j); ReceivedOk(s, j); }
  }

  // ---------------------------------------------------------------- the end of a scrape

  lemma PeekedOk(s: State, delivered: bool, j: nat)
    requires PicksOk(s) && PhaseOk(s) && Enabled(s, Finish(delivered)) && j < |s.insts| && InstOk(s, j)
    requires s.phase.ack.Peek?
    ensures InstOk(Apply(s, Finish(delivered)), j)
  {
    assert j in s.taken <==> j in Taken(s);
  }

  lemma RemarkedOk(s: State, j: nat)
    requires PicksOk(s) && PhaseOk(s) && Enabled(s, Finish(false)) && j < |s.insts| && InstOk(s, j)
    requires !s.phase.ack.Peek?
    ensures InstOk(Apply(s, Finish(false)), j)
  {
    assert j in s.taken <==> j in Taken(s);
  }

  lemma NowHeldOk(s: State, j: nat)
    requires PicksOk(s) && SendOk(s) && NumbersOk(s) && Enabled(s, Finish(true)) && j < |s.insts| && InstOk(s, j)
    requires Acknowledges(s.phase.ack)
    ensures InstOk(Apply(s, Finish(true)), j)
  {
  }

  lemma CommittedOk(s: State, j: nat)
    requires PicksOk(s) && SendOk(s) && NumbersOk(s) && Enabled(s, Finish(true)) && j < |s.insts| && InstOk(s, j)
    requires s.phase.ack.Silent?
    ensures InstOk(Apply(s, Finish(true)), j)
  {
    var d := s.insts[j];
    var d' := Apply(s, Finish(true)).insts[j];
    assert d' == (if j in s.phase.pending then SetValue(d, s.phase.pending[j]) else d).(seen := d.seen + Said(s.phase.rows, j));
    assert AmountsOk(d');
    assert Values(Apply(s, Finish(true))) == map[] && Values(s) == map[];
  }

  lemma FinishInsts(s: State, delivered: bool)
    requires InstsOk(s) && PicksOk(s) && PhaseOk(s) && Enabled(s, Finish(delivered))
    ensures InstsOk(Apply(s, Finish(delivered)))
  {
    var s' := Apply(s, Finish(delivered));
    forall j | 0 <= j < |s'.insts| ensures InstOk(s', j) {
      assert InstOk(s, j);
      if s.phase.ack.Peek? { PeekedOk(s, delivered, j); }
      else if !delivered { RemarkedOk(s, j); }
      else if s.phase.ack.Silent? { CommittedOk(s, j); }
      else { NowHeldOk(s, j); }
    }
  }

  lemma FinishPicks(s: State, delivered: bool)
    requires InstsOk(s) && PicksOk(s) && PhaseOk(s) && Enabled(s, Finish(delivered))
    ensures PicksOk(Apply(s, Finish(delivered)))
  {
  }

  lemma FinishPhase(s: State, delivered: bool)
    requires InstsOk(s) && PicksOk(s) && PhaseOk(s) && Enabled(s, Finish(delivered))
    ensures PicksOk(Apply(s, Finish(delivered))) && PhaseOk(Apply(s, Finish(delivered)))
  {
    FinishPicks(s, delivered);
  }

  lemma FinishKeeps(s: State, delivered: bool)
    requires Inv(s) && Enabled(s, Finish(delivered))
    ensures Inv(Apply(s, Finish(delivered)))
  {
    var s' := Apply(s, Finish(delivered));
    FinishInsts(s, delivered);
    FinishPhase(s, delivered);
    if delivered && s.phase.ack.Silent? {
      var s1 := s.(insts := Commit(s.insts, s.phase.pending));
      HistoryKept(s, s1);
      ProcessSums(s1, s.phase.rows);
      assert SumsOk(s');
    } else {
      HistoryKept(s, s');
    }
  }

  lemma DroppedOk(s: State, i: nat)
    requires i < |s.insts| && InstOk(s, i) && Enabled(s, Drop(i))
    ensures InstOk(Apply(s, Drop(i)), i)
  {
  }

  lemma DropKeeps(s: State, i: nat)
    requires Inv(s) && Enabled(s, Drop(i))
    ensures Inv(Apply(s, Drop(i)))
  {
    var s' := Apply(s, Drop(i));
    HistoryKept(s, s');
    RoundKept(s, s');
    forall j | 0 <= j < |s'.insts| ensures InstOk(s', j) {
      assert InstOk(s, j);
      if j != i { OtherOk(s, s', j); } else { DroppedOk(s, i); }
    }
  }

  lemma DoneKeeps(s: State)
    requires Inv(s) && Enabled(s, Done)
    ensures Inv(Apply(s, Done))
  {
    var s' := Apply(s, Done);
    HistoryKept(s, s');
    forall j | 0 <= j < |s'.insts| ensures InstOk(s', j) { assert InstOk(s, j); }
  }

  lemma StepKeeps(s: State, e: Event)
    requires Inv(s) && Enabled(s, e) && Sound(s, e)
    ensures Inv(Apply(s, e))
  {
    match e
    case Add(i, v, before) => AddKeeps(s, i, v, before);
    case Enlist(i, k, before) => EnlistKeeps(s, i, k, before);
    case Lookup(key) => LookupKeeps(s, key);
    case Delete(i) => DeleteKeeps(s, i);
    case Request(a, final, idle) => RequestKeeps(s, a, final, idle);
    case Cut => CutKeeps(s);
    case Swap => SwapKeeps(s);
    case Hand(i) => HandKeeps(s, i);
    case Check => CheckKeeps(s);
    case Enter => EnterKeeps(s);
    case SecondPass => SecondPassKeeps(s);
    case Finish(delivered) => FinishKeeps(s, delivered);
    case Drop(i) => DropKeeps(s, i);
    case Done => DoneKeeps(s);
    case Receive => ReceiveKeeps(s);
  }

  // ---------------------------------------------------------------- theorems about whole runs

  ghost function Initial(session: string): State { State(session, [], Resting, 0, None, [], {}, map[], 0, {}) }

  ghost predicate Next(s: State, e: Event, s': State) { Enabled(s, e) && Sound(s, e) && s' == Apply(s, e) }

  ghost predicate Run(run: seq<State>, events: seq<Event>) {
    && |run| == |events| + 1 && run[0] == Initial(run[0].session)
    && (forall n :: 0 <= n < |events| ==> Next(run[n], events[n], run[n + 1]))
  }

  lemma {:induction false} RunKeeps(run: seq<State>, events: seq<Event>, n: nat)
    requires Run(run, events) && n < |run|
    ensures Inv(run[n])
  {
    if n > 0 {
      RunKeeps(run, events, n - 1);
      assert Next(run[n - 1], events[n - 1], run[n - 1 + 1]);
      StepKeeps(run[n - 1], events[n - 1]);
    }
  }
}
