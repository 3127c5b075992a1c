/** Classic histograms under delta exposition with acknowledged delivery: one family of
    one bucket layout, with any number of label sets, one scraper and any number of
    clients observing, as one transition system.

    A histogram has no value as of the cut: the second pass of a scrape writes each one
    picked in turn, with whatever was observed up to then.  It is a log of observations
    here, in the order of their tickets, of which Write reads all there are (Snapshots
    proves that); what was delivered of it is a reading of some beginning of that log.
    So that no observation is counted twice or lost is said of the numbers the exposer
    computes, bucket by bucket, as well as of the count and the sum.

    Idle cleanup takes no step of its own: what it deletes, Delete may delete at any time. */
module HistogramDelivery {

  import opened Helpers
  import opened Acks

  /** One observation: the first bucket it is in, and its value. */
  datatype Obs = Obs(bucket: nat, v: real)

  /** What a histogram exposes: its count, its sum, and the number at or below a bound. */
  datatype Part = Count | Sum | Below(bound: nat)

  /** The numbers of a histogram: upTo has one for each bound, one more if the bucket above
      them all is written out as well, which an exemplar in it asks for; or none yet. */
  datatype Slice = Slice(count: nat, sum: real, upTo: seq<nat>)

  const NOTHING := Slice(0, 0.0, [])

  /** What the exposer keeps for an instance: what it delivered, and when it picked it. */
  datatype Entry = Entry(slice: Slice, picked: nat)

  /** One child of a Vec: key stands for its label values. */
  datatype Inst = Inst(
    key: nat,
    dead: bool,                // deleted from its Vec
    dirty: bool,               // waiting in the tracker's list
    log: seq<Obs>,
    busy: set<nat>,            // the observations, by their place in log, it is not enlisted for yet
    exemplar: bool,            // there is one above all bounds
    entry: Option<Entry>,
    // history:
    made: seq<Obs>,            // all that clients observed in it
    moved: seq<Obs>,           // all that AddTrackedHistogram moved into it
    out: seq<Obs>,             // all that settleDeleted moved out of it
    lost: seq<Obs>)            // all that it would have moved, had AddTrackedHistogram not refused

  /** The lines of a histogram in a response; inst is history. */
  datatype Row = Row(inst: nat, key: nat, count: int, sum: real, upTo: seq<int>)

  datatype Phase =
    | Resting
    | Asked(ack: Ack)
    | Taking(ack: Ack, todo: set<nat>)                // between two instances
    | Picking(ack: Ack, todo: set<nat>, inst: nat)    // pick(inst) is about to ask TrackedDeleted
    | Entering(ack: Ack, todo: set<nat>, inst: nat)   // it said no; about to look up the entry
    | Writing(ack: Ack, left: seq<nat>, pending: map<nat, Slice>, rows: seq<Row>)

  datatype Held = Held(round: nat, values: map<nat, Slice>, rows: seq<Row>, processed: bool, spoiled: set<nat>)

  datatype State = State(
    session: string,
    bounds: nat,               // how many upper bounds the family has
    insts: seq<Inst>,
    phase: Phase,
    round: nat,
    held: Option<Held>,
    taken: seq<nat>,           // the instances picked in this scrape, in order
    processed: seq<Row>)       // all that the scraper has processed

  // ---------------------------------------------------------------- what a histogram exposes

  function AtMost(log: seq<Obs>, b: nat): nat {
    if log == [] then 0 else AtMost(log[..|log| - 1], b) + if log[|log| - 1].bucket <= b then 1 else 0
  }

  function SumOf(log: seq<Obs>): real {
    if log == [] then 0.0 else SumOf(log[..|log| - 1]) + log[|log| - 1].v
  }

  function Tally(log: seq<Obs>, c: Part): real {
    match c
    case Count => |log| as real
    case Sum => SumOf(log)
    case Below(b) => AtMost(log, b) as real
  }

  lemma TallyAppend(a: seq<Obs>, b: seq<Obs>, c: Part)
    ensures Tally(a + b, c) == Tally(a, c) + Tally(b, c)
  {
    if b == [] {
      assert a + b == a;
    } else {
      assert (a + b)[..|a + b| - 1] == a + b[..|b| - 1];
      TallyAppend(a, b[..|b| - 1], c);
      if c.Below? { TallyAppend(a, b[..|b| - 1], Below(c.bound)); }
    }
  }

  function Given(d: Inst): Slice { if d.entry.Some? then d.entry.value.slice else NOTHING }

  /** Write. */
  function Read(d: Inst, bounds: nat): Slice {
    Slice(|d.log|, SumOf(d.log),
          seq(if d.exemplar then bounds + 1 else bounds, b requires 0 <= b < if d.exemplar then bounds + 1 else bounds => AtMost(d.log, b)))
  }

  function PartOf(w: Slice, c: Part): real {
    match c
    case Count => w.count as real
    case Sum => w.sum
    case Below(b) => if b < |w.upTo| then w.upTo[b] as real else 0.0
  }

  /** What is delivered is taken from what is read, bucket by bucket. */
  function Less(w: Slice, g: Slice): (r: seq<int>)
    ensures |r| == |w.upTo|
  {
    seq(|w.upTo|, b requires 0 <= b < |w.upTo| => var read: int := w.upTo[b]; read - if b < |g.upTo| then g.upTo[b] else 0)
  }

  /** The increments decide leaves to be encoded. */
  function RowOf(i: nat, d: Inst, w: Slice): Row {
    Row(i, d.key, w.count - Given(d).count, w.sum - Given(d).sum, Less(w, Given(d)))
  }

  /** A line of a row; the encoder makes up the one above all bounds if it is not written out. */
  function Line(r: Row, c: Part): real {
    match c
    case Count => r.count as real
    case Sum => r.sum
    case Below(b) => if b < |r.upTo| then r.upTo[b] as real else r.count as real
  }

  /** The lines of finite bounds, the count and the sum. */
  predicate Finite(c: Part, bounds: nat) { c.Below? ==> c.bound < bounds }

  /** History: what the rows say of instance i, and of a key. */
  function Said(rows: seq<Row>, i: nat, c: Part): real {
    if rows == [] then 0.0
    else Said(rows[..|rows| - 1], i, c) + if rows[|rows| - 1].inst == i then Line(rows[|rows| - 1], c) else 0.0
  }

  function SaidOf(rows: seq<Row>, key: nat, c: Part): real {
    if rows == [] then 0.0
    else SaidOf(rows[..|rows| - 1], key, c) + if rows[|rows| - 1].key == key then Line(rows[|rows| - 1], c) else 0.0
  }

  /** What is not delivered of an instance. */
  function Left(d: Inst): seq<Obs> { if Given(d).count <= |d.log| then d.log[Given(d).count..] else [] }

  // ---------------------------------------------------------------- the steps

  ghost predicate Live(s: State, i: nat, key: nat) { i < |s.insts| && !s.insts[i].dead && s.insts[i].key == key }

  ghost predicate Vacant(s: State, key: nat) { forall i :: 0 <= i < |s.insts| ==> !Live(s, i, key) }

  function Listed(insts: seq<Inst>): set<nat> { set i | 0 <= i < |insts| && insts[i].dirty }

  function SetSlice(d: Inst, w: Slice): Inst {
    d.(entry := Some(if d.entry.Some? then d.entry.value.(slice := w) else Entry(w, 0)))
  }

  function Commit(insts: seq<Inst>, values: map<nat, Slice>): (r: seq<Inst>)
    ensures |r| == |insts|
  {
    seq(|insts|, i requires 0 <= i < |insts| => if i in values then SetSlice(insts[i], values[i]) else insts[i])
  }

  /** MarkChanged, for every instance of which. */
  function MarkAll(insts: seq<Inst>, which: set<nat>): (r: seq<Inst>)
    ensures |r| == |insts|
  {
    seq(|insts|, i requires 0 <= i < |insts| => if i in which then insts[i].(dirty := true) else insts[i])
  }

  function Settle(s: State, a: Ack): State {
    if s.held.None? || a.Peek? then s
    else if Commits(s.session, s.held.value.round, a) then
      s.(insts := Commit(s.insts, s.held.value.values), held := None)
    else
      s.(insts := MarkAll(s.insts, s.held.value.values.Keys), held := None)
  }

  /** A new scrape begins. */
  function Start(s: State, a: Ack): State { s.(round := s.round + 1, phase := Asked(a)) }

  datatype Event =
    | Observe(inst: nat, x: Obs)            // a client observes, in an instance it holds, deleted or not
    | Exemplify(inst: nat, k: nat)          // and stores the exemplar of an observation above all bounds
    | Enlist(inst: nat, k: nat)             // and enlists the instance for it
    | Lookup(key: nat)                      // a client creates the child for key
    | Delete(inst: nat)                     // the application or idle cleanup deletes a child
    | Request(ack: Ack, final: bool)
    | Take
    | Hand(inst: nat)
    | Check                                 // pick asks TrackedDeleted, and settles a deleted instance
    | Enter                                 // pick looks up the entry
    | Begin                                 // the second pass
    | Write                                 // one instance of it is read and decided
    | Finish(delivered: bool)
    | Receive                               // the scraper processes the round held for it

  ghost predicate Enabled(s: State, e: Event) {
    match e
    case Observe(i, x) => i < |s.insts| && x.bucket <= s.bounds
    case Exemplify(i, k) => i < |s.insts| && k < |s.insts[i].log| && s.insts[i].log[k].bucket == s.bounds
    case Enlist(i, k) => i < |s.insts| && k in s.insts[i].busy
    case Lookup(key) => Vacant(s, key)
    case Delete(i) => i < |s.insts| && !s.insts[i].dead
    case Request(_, _) => s.phase.Resting?
    case Take => s.phase.Asked?
    case Hand(i) => s.phase.Taking? && i in s.phase.todo && i < |s.insts|
    case Check => s.phase.Picking? && s.phase.inst < |s.insts|
    case Enter => s.phase.Entering? && s.phase.inst < |s.insts|
    case Begin => s.phase.Taking? && s.phase.todo == {}
    case Write => s.phase.Writing? && s.phase.left != [] && s.phase.left[0] < |s.insts| && s.insts[s.phase.left[0]].entry.Some?
    case Finish(_) => s.phase.Writing? && s.phase.left == []
    case Receive => s.held.Some? && !s.held.value.processed
  }

  /** History: instance i is not what the held round carries any more. */
  function Spoil(held: Option<Held>, i: nat): Option<Held> {
    if held.Some? && i in held.value.values then Some(held.value.(spoiled := held.value.spoiled + {i})) else held
  }

  /** AddTrackedHistogram takes what is not delivered of d: there is something, and the
      slice read has no bucket more than there are bounds. */
  predicate Accepts(d: Inst, bounds: nat) {
    Read(d, bounds).count > Given(d).count && |Less(Read(d, bounds), Given(d))| <= bounds
  }

  /** settleDeleted on a deleted instance i, next to the live instance j of its labels: the
      entry takes what was read, whether it was moved or not. */
  function Merge(s: State, i: nat, j: nat): State
    requires s.phase.Picking? && i < |s.insts| && j < |s.insts| && i != j
  {
    var d := s.insts[i];
    var n := s.insts[j];
    var d' := SetSlice(d, Read(d, s.bounds));
    if Accepts(d, s.bounds) then
      s.(insts := s.insts[i := d'.(out := d.out + Left(d))][j := n.(log := n.log + Left(d), dirty := true, moved := n.moved + Left(d))],
         held := Spoil(s.held, i), phase := Picking(s.phase.ack, s.phase.todo, j))
    else
      s.(insts := s.insts[i := d'.(lost := d.lost + Left(d))],
         held := Spoil(s.held, i), phase := Taking(s.phase.ack, s.phase.todo))
  }

  ghost function CheckStep(s: State): State
    requires s.phase.Picking? && s.phase.inst < |s.insts|
  {
    var i := s.phase.inst;
    var d := s.insts[i];
    if !d.dead then s.(phase := Entering(s.phase.ack, s.phase.todo, i))
    else if Vacant(s, d.key) then s.(insts := s.insts[i := d.(dead := false)])   // revived, and picked again
    else
      assert exists j :: Live(s, j, d.key);
      var j :| Live(s, j, d.key);
      Merge(s, i, j)
  }

  /** From place top on, d has nothing but observations in progress, or is listed. */
  ghost predicate Covered(d: Inst, top: nat) { d.dirty || forall k :: top <= k < |d.log| ==> k in d.busy }

  /** The instance pick is about to look up will be reported anyway, should it be deleted. */
  ghost predicate ComesAnyway(s: State)
    requires s.phase.Entering? && s.phase.inst < |s.insts|
  {
    var i := s.phase.inst;
    var d := s.insts[i];
    Covered(d, Given(d).count) || i in s.phase.todo || i in s.taken || (i in Values(s) && Covered(d, Values(s)[i].count))
  }

  ghost function EnterStep(s: State): State
    requires s.phase.Entering? && s.phase.inst < |s.insts|
  {
    var i := s.phase.inst;
    var d := s.insts[i];
    var next := s.(phase := Taking(s.phase.ack, s.phase.todo));
    if d.dead then                                           // deleted since it was asked
      next.(held := if ComesAnyway(s) || s.held.None? || s.held.value.processed then s.held else Spoil(s.held, i))
    else if d.entry.None? then
      next.(insts := s.insts[i := d.(entry := Some(Entry(NOTHING, s.round)))], taken := s.taken + [i])
    else if d.entry.value.picked == s.round then next        // already in this scrape
    else
      next.(insts := s.insts[i := d.(entry := Some(d.entry.value.(picked := s.round)))], taken := s.taken + [i])
  }

  /** emitFamily on the next instance picked: it is reported if its count or its sum is not
      the one delivered. */
  function WriteStep(s: State): State
    requires s.phase.Writing? && s.phase.left != [] && s.phase.left[0] < |s.insts|
  {
    var i := s.phase.left[0];
    var w := Read(s.insts[i], s.bounds);
    var g := Given(s.insts[i]);
    var rest := s.phase.left[1..];
    if w.count != g.count || w.sum != g.sum then
      s.(phase := Writing(s.phase.ack, rest, s.phase.pending[i := w], s.phase.rows + [RowOf(i, s.insts[i], w)]))
    else
      s.(phase := Writing(s.phase.ack, rest, s.phase.pending, s.phase.rows))
  }

  function Taken(s: State): set<nat> { set k | 0 <= k < |s.taken| :: s.taken[k] }

  function FinishStep(s: State, delivered: bool): State
    requires s.phase.Writing?
  {
    var next := s.(phase := Resting, taken := []);
    if s.phase.ack.Peek? || !delivered then
      next.(insts := MarkAll(s.insts, Taken(s)))
    else if Acknowledges(s.phase.ack) then
      next.(held := Some(Held(s.round, s.phase.pending, s.phase.rows, false, {})))
    else
      // the scraper that does not acknowledge processes what it was delivered
      next.(insts := Commit(s.insts, s.phase.pending), processed := s.processed + s.phase.rows)
  }

  ghost function Apply(s: State, e: Event): State
    requires Enabled(s, e)
  {
    match e
    case Observe(i, x) =>
      var d := s.insts[i];
      s.(insts := s.insts[i := d.(log := d.log + [x], busy := d.busy + {|d.log|}, made := d.made + [x])])
    case Exemplify(i, _) => s.(insts := s.insts[i := s.insts[i].(exemplar := true)])
    case Enlist(i, k) => s.(insts := s.insts[i := s.insts[i].(busy := s.insts[i].busy - {k}, dirty := true)])
    case Lookup(key) => s.(insts := s.insts + [Inst(key, false, true, [], {}, false, None, [], [], [], [])])
    case Delete(i) => s.(insts := s.insts[i := s.insts[i].(dead := true)])
    case Request(a, final) =>
      var s1 := Settle(s, a);
      if final && Acknowledges(a) then s1 else Start(s1, a)
    case Take =>
      s.(insts := seq(|s.insts|, i requires 0 <= i < |s.insts| => s.insts[i].(dirty := false)),
         phase := Taking(s.phase.ack, Listed(s.insts)))
    case Hand(i) => s.(phase := Picking(s.phase.ack, s.phase.todo - {i}, i))
    case Check => CheckStep(s)
    case Enter => EnterStep(s)
    case Begin => s.(phase := Writing(s.phase.ack, s.taken, map[], []))
    case Write => WriteStep(s)
    case Finish(delivered) => FinishStep(s, delivered)
    case Receive => s.(processed := s.processed + s.held.value.rows, held := Some(s.held.value.(processed := true)))
  }

  ghost predicate Merging(s: State) {
    s.phase.Picking? && s.phase.inst < |s.insts| && s.insts[s.phase.inst].dead && !Vacant(s, s.insts[s.phase.inst].key)
  }

  ghost predicate Harmless(s: State)
    requires s.phase.Entering? && s.phase.inst < |s.insts|
  {
    !s.insts[s.phase.inst].dead || ComesAnyway(s) || (s.held.Some? && !s.held.value.processed && s.phase.inst in s.held.value.values)
  }

  /** What is needed of the surroundings, as of a counter's. */
  ghost predicate Sound(s: State, e: Event)
    requires Enabled(s, e)
  {
    match e
    case Request(a, _) =>
      s.held.Some? && !a.Peek? ==> (Commits(s.session, s.held.value.round, a) <==> s.held.value.processed)
    case Check => Merging(s) && s.held.Some? && s.held.value.processed ==> s.phase.inst !in s.held.value.values
    case Receive => s.held.value.spoiled == {}
    case Enter => Harmless(s)
    case _ => true
  }

  // ---------------------------------------------------------------- the invariant

  /** What the held round carries. */
  function Values(s: State): map<nat, Slice> { if s.held.Some? then s.held.value.values - s.held.value.spoiled else map[] }

  /** What the scraper has processed of it. */
  function HeldRows(s: State): seq<Row> { if s.held.Some? && s.held.value.processed then s.held.value.rows else [] }

  /** w is what Write reads of some beginning of the log. */
  ghost predicate Reads(w: Slice, d: Inst, bounds: nat) {
    && w.count <= |d.log| && w.sum == SumOf(d.log[..w.count])
    && (w == NOTHING || |w.upTo| == bounds || (|w.upTo| == bounds + 1 && d.exemplar))
    && (forall b :: 0 <= b < |w.upTo| ==> w.upTo[b] == AtMost(d.log[..w.count], b))
  }

  ghost predicate LogOk(d: Inst, bounds: nat) {
    && (forall k :: 0 <= k < |d.log| ==> d.log[k].bucket <= bounds)
    && (forall k <- d.busy :: k < |d.log|)
    && (forall c: Part :: Tally(d.log, c) == Tally(d.made, c) + Tally(d.moved, c))
    && Reads(Given(d), d, bounds)
  }

  ghost predicate LogsOk(s: State) { forall i :: 0 <= i < |s.insts| ==> LogOk(s.insts[i], s.bounds) }

  /** All that the scraper has processed of i is what was delivered of it, less what went
      another way, and its part of the held round. */
  ghost predicate SaidOk(s: State, i: nat)
    requires i < |s.insts|
  {
    var d := s.insts[i];
    forall c: Part :: Finite(c, s.bounds) ==>
      Said(s.processed, i, c) == PartOf(Given(d), c) - Tally(d.out, c) - Tally(d.lost, c) + Said(HeldRows(s), i, c)
  }

  ghost predicate SaidsOk(s: State) { forall i :: 0 <= i < |s.insts| ==> SaidOk(s, i) }

  ghost predicate FirstPass(p: Phase) { p.Taking? || p.Picking? || p.Entering? }

  ghost predicate Scraping(p: Phase) { FirstPass(p) || p.Asked? || p.Writing? }

  function Todo(p: Phase): set<nat> { if p.Taking? || p.Picking? || p.Entering? then p.todo else {} }

  /** i is going to be read. */
  ghost predicate Waiting(s: State, i: nat) {
    || i in Todo(s.phase) || ((s.phase.Picking? || s.phase.Entering?) && s.phase.inst == i)
    || (FirstPass(s.phase) && i in s.taken) || (s.phase.Writing? && i in s.phase.left)
  }

  /** How far it has been read, or delivered if it has not in this scrape. */
  function Top(s: State, i: nat): nat
    requires i < |s.insts|
  {
    if s.phase.Writing? && i in s.phase.pending then s.phase.pending[i].count else Given(s.insts[i]).count
  }

  ghost predicate Spoiled(s: State, i: nat) {
    s.held.Some? && i in s.held.value.values && i in s.held.value.spoiled && !s.held.value.processed
  }

  ghost predicate Due(s: State, i: nat)
    requires i < |s.insts|
  {
    || Waiting(s, i) || Covered(s.insts[i], Top(s, i)) || Spoiled(s, i)
    || (i in Values(s) && Covered(s.insts[i], Values(s)[i].count))
  }

  ghost predicate DuesOk(s: State) { forall i :: 0 <= i < |s.insts| ==> Due(s, i) }

  ghost predicate EntryOk(s: State, i: nat)
    requires i < |s.insts|
  {
    var d := s.insts[i];
    && (d.entry.Some? ==> d.entry.value.picked <= s.round)
    && (Scraping(s.phase) && d.entry.Some? && d.entry.value.picked == s.round ==> i in s.taken)
    && (i in Values(s) ==> Given(d).count < Values(s)[i].count && Reads(Values(s)[i], d, s.bounds))
  }

  ghost predicate EntriesOk(s: State) { forall i :: 0 <= i < |s.insts| ==> EntryOk(s, i) }

  /** Rows point to their instances, and say at least as much above all bounds as they count. */
  ghost predicate RowsOk(s: State, rows: seq<Row>) {
    forall r <- rows :: r.inst < |s.insts| && r.key == s.insts[r.inst].key && Line(r, Below(s.bounds)) >= Line(r, Count)
  }

  /** The lines and the values of a round say the same, but for the instances spoiled. */
  ghost predicate RoundOk(s: State, values: map<nat, Slice>, rows: seq<Row>, spoiled: set<nat>) {
    && (forall i <- values :: i < |s.insts|)
    && RowsOk(s, rows)
    && (forall i, c: Part :: 0 <= i < |s.insts| && i !in spoiled && Finite(c, s.bounds) ==>
          Said(rows, i, c) == if i in values then PartOf(values[i], c) - PartOf(Given(s.insts[i]), c) else 0.0)
  }

  ghost predicate Distinct(xs: seq<nat>) { forall k, l :: 0 <= k < l < |xs| ==> xs[k] != xs[l] }

  ghost predicate PicksOk(s: State) {
    && (s.phase.Resting? || s.phase.Asked? ==> s.taken == [])
    && (forall k :: 0 <= k < |s.taken| ==>
          s.taken[k] < |s.insts| && s.insts[s.taken[k]].entry.Some? && s.insts[s.taken[k]].entry.value.picked == s.round)
    && Distinct(s.taken)
    && (forall i <- Todo(s.phase) :: i < |s.insts|)
    && (s.phase.Picking? || s.phase.Entering? ==> s.phase.inst < |s.insts|)
    && (Scraping(s.phase) ==> s.round > 0)
  }

  ghost predicate HeldOk(s: State) {
    s.held.Some? ==>
      && RoundOk(s, s.held.value.values, s.held.value.rows, s.held.value.spoiled)
      && (s.held.value.processed ==> s.held.value.spoiled == {})
      && (Scraping(s.phase) ==> s.phase.ack.Peek?)
  }

  /** What is left to write is the end of what was picked, and nothing of it is pending yet. */
  ghost predicate LeftOk(s: State) {
    s.phase.Writing? ==>
      && |s.phase.left| <= |s.taken| && s.phase.left == s.taken[|s.taken| - |s.phase.left|..]
      && (forall i <- s.phase.pending :: i in s.taken && i !in s.phase.left)
  }

  ghost predicate WriteOk(s: State) {
    s.phase.Writing? ==>
      && RoundOk(s, s.phase.pending, s.phase.rows, {}) && LeftOk(s)
      && (forall i <- s.phase.pending ::
            Given(s.insts[i]).count < s.phase.pending[i].count && Reads(s.phase.pending[i], s.insts[i], s.bounds))
  }

  ghost predicate Unique(s: State) {
    forall i, j :: 0 <= i < |s.insts| && 0 <= j < |s.insts| && !s.insts[i].dead && !s.insts[j].dead && s.insts[i].key == s.insts[j].key ==> i == j
  }

  /** What an instance has of one kind. */
  datatype Kind = Made | Moved | Out | Lost | Delivered | Undelivered

  function Amount(d: Inst, kind: Kind, c: Part): real {
    match kind
    case Made => Tally(d.made, c)
    case Moved => Tally(d.moved, c)
    case Out => Tally(d.out, c)
    case Lost => Tally(d.lost, c)
    case Delivered => PartOf(Given(d), c)
    case Undelivered => Tally(Left(d), c)
  }

  function Total(insts: seq<Inst>, key: nat, kind: Kind, c: Part): real {
    if insts == [] then 0.0
    else
      var n := |insts| - 1;
      Total(insts[..n], key, kind, c) + if insts[n].key == key then Amount(insts[n], kind, c) else 0.0
  }

  ghost predicate MovesOk(s: State) {
    forall key: nat, c: Part :: Total(s.insts, key, Moved, c) == Total(s.insts, key, Out, c)
  }

  ghost predicate Inv(s: State) {
    && LogsOk(s) && SaidsOk(s) && DuesOk(s) && EntriesOk(s) && PicksOk(s) && HeldOk(s) && WriteOk(s) && Unique(s) && MovesOk(s)
    && RowsOk(s, s.processed)
  }

  // ---------------------------------------------------------------- sums

  lemma TotalUpdate(insts: seq<Inst>, i: nat, d: Inst, key: nat, kind: Kind, c: Part)
    requires i < |insts| && d.key == insts[i].key
    ensures Total(insts[i := d], key, kind, c) == Total(insts, key, kind, c) + if d.key == key then Amount(d, kind, c) - Amount(insts[i], kind, c) else 0.0
  {
    var n := |insts| - 1;
    if i < n {
      assert insts[i := d][..n] == insts[..n][i := d];
      TotalUpdate(insts[..n], i, d, key, kind, c);
    } else {
      assert insts[i := d][..n] == insts[..n];
    }
  }

  lemma TotalSame(a: seq<Inst>, b: seq<Inst>, key: nat, kind: Kind, c: Part)
    requires |a| == |b| && forall i :: 0 <= i < |a| ==> a[i].key == b[i].key && Amount(a[i], kind, c) == Amount(b[i], kind, c)
    ensures Total(a, key, kind, c) == Total(b, key, kind, c)
  {
    if a != [] { TotalSame(a[..|a| - 1], b[..|b| - 1], key, kind, c); }
  }

  lemma SaidAppend(a: seq<Row>, b: seq<Row>, i: nat, c: Part)
    ensures Said(a + b, i, c) == Said(a, i, c) + Said(b, i, c)
  {
    if b == [] {
      assert a + b == a;
    } else {
      assert (a + b)[..|a + b| - 1] == a + b[..|b| - 1];
      SaidAppend(a, b[..|b| - 1], i, c);
    }
  }

  lemma SaidNone(rows: seq<Row>, i: nat, c: Part)
    requires forall r <- rows :: r.inst != i
    ensures Said(rows, i, c) == 0.0
  {
    if rows != [] {
      assert rows[|rows| - 1] in rows;
      SaidNone(rows[..|rows| - 1], i, c);
    }
  }

  // ---------------------------------------------------------------- readings

  /** What was read of a log that has grown since is still what its beginning reads. */
  lemma ReadsKept(w: Slice, d: Inst, d': Inst, bounds: nat)
    requires Reads(w, d, bounds) && |d.log| <= |d'.log| && d'.log[..|d.log|] == d.log && (d.exemplar ==> d'.exemplar)
    ensures Reads(w, d', bounds)
  {
    assert d'.log[..w.count] == d.log[..w.count];
  }

  lemma AtMostAll(log: seq<Obs>, b: nat)
    requires forall k :: 0 <= k < |log| ==> log[k].bucket <= b
    ensures AtMost(log, b) == |log|
  {
    if log != [] { AtMostAll(log[..|log| - 1], b); }
  }

  lemma WriteReads(d: Inst, bounds: nat)
    ensures Reads(Read(d, bounds), d, bounds)
  {
    assert d.log[..|d.log|] == d.log;
  }

  lemma ReadsPart(w: Slice, d: Inst, bounds: nat, c: Part)
    requires Reads(w, d, bounds) && Finite(c, bounds)
    ensures PartOf(w, c) == Tally(d.log[..w.count], c)
  {
  }

  /** What is read is what was delivered and what is left. */
  lemma LeftPart(d: Inst, bounds: nat, c: Part)
    requires Reads(Given(d), d, bounds) && Finite(c, bounds)
    ensures PartOf(Read(d, bounds), c) == PartOf(Given(d), c) + Tally(Left(d), c)
  {
    WriteReads(d, bounds);
    assert d.log[..|d.log|] == d.log;
    ReadsPart(Read(d, bounds), d, bounds, c);
    ReadsPart(Given(d), d, bounds, c);
    assert d.log == d.log[..Given(d).count] + Left(d);
    TallyAppend(d.log[..Given(d).count], Left(d), c);
  }

  /** The lines of a row are what is left. */
  lemma RowPart(i: nat, d: Inst, bounds: nat, c: Part)
    requires Reads(Given(d), d, bounds) && Finite(c, bounds)
    ensures Line(RowOf(i, d, Read(d, bounds)), c) == Tally(Left(d), c) == PartOf(Read(d, bounds), c) - PartOf(Given(d), c)
  {
    LeftPart(d, bounds, c);
  }

  /** Above all bounds, a row says what it counts, and once more all that was delivered
      before, if this is the first time that line is written out. */
  lemma RowAbove(i: nat, d: Inst, bounds: nat)
    requires LogOk(d, bounds)
    ensures var r, g := RowOf(i, d, Read(d, bounds)), Given(d);
      Line(r, Below(bounds)) == Line(r, Count) + if d.exemplar && |g.upTo| <= bounds then g.count as real else 0.0
  {
    AtMostAll(d.log, bounds);
    assert forall k :: 0 <= k < Given(d).count ==> d.log[..Given(d).count][k] == d.log[k];
    AtMostAll(d.log[..Given(d).count], bounds);
  }

  /** A round stays in order if what it speaks of is still delivered as far, or spoiled. */
  lemma RoundKept(s: State, s': State, values: map<nat, Slice>, rows: seq<Row>, spoiled: set<nat>, spoiled': set<nat>)
    requires RoundOk(s, values, rows, spoiled) && |s'.insts| == |s.insts| && s'.bounds == s.bounds
    requires forall i :: 0 <= i < |s.insts| ==> s'.insts[i].key == s.insts[i].key
    requires forall i :: 0 <= i < |s.insts| && i !in spoiled' ==> i !in spoiled && Given(s'.insts[i]) == Given(s.insts[i])
    ensures RoundOk(s', values, rows, spoiled')
  {
  }

  // ---------------------------------------------------------------- clients

  /** The same instance, with more in its log. */
  ghost predicate Grown(d: Inst, d': Inst) {
    && d'.key == d.key && d'.entry == d.entry && d'.moved == d.moved && d'.out == d.out && d'.lost == d.lost && (d.dead ==> d'.dead)
    && |d.log| <= |d'.log| && d'.log[..|d.log|] == d.log && (d.exemplar ==> d'.exemplar)
  }

  /** A step that changes the log of one instance, and only lists it. */
  lemma GrownKeeps(s: State, i: nat, d': Inst)
    requires Inv(s) && i < |s.insts| && Grown(s.insts[i], d') && LogOk(d', s.bounds)
    requires forall top: nat :: top <= |s.insts[i].log| && Covered(s.insts[i], top) ==> Covered(d', top)
    ensures Inv(s.(insts := s.insts[i := d']))
  {
    var s' := s.(insts := s.insts[i := d']);
    GrownEntries(s, i, d');
    GrownWrites(s, i, d');
    GrownHeld(s, i, d');
    GrownDues(s, i, d');
    forall j | 0 <= j < |s'.insts| ensures SaidOk(s', j) { assert SaidOk(s, j); }
    forall key: nat, c: Part ensures Total(s'.insts, key, Moved, c) == Total(s'.insts, key, Out, c) {
      TotalSame(s.insts, s'.insts, key, Moved, c);
      TotalSame(s.insts, s'.insts, key, Out, c);
    }
  }

  lemma GrownEntries(s: State, i: nat, d': Inst)
    requires EntriesOk(s) && i < |s.insts| && Grown(s.insts[i], d')
    ensures EntriesOk(s.(insts := s.insts[i := d']))
  {
    var s' := s.(insts := s.insts[i := d']);
    forall j | 0 <= j < |s'.insts| ensures EntryOk(s', j) {
      assert EntryOk(s, j);
      if j in Values(s) { ReadsKept(Values(s)[j], s.insts[j], s'.insts[j], s.bounds); }
    }
  }

  lemma GrownHeld(s: State, i: nat, d': Inst)
    requires HeldOk(s) && PicksOk(s) && i < |s.insts| && Grown(s.insts[i], d')
    ensures var s' := s.(insts := s.insts[i := d']); HeldOk(s') && PicksOk(s')
  {
    assert forall j :: 0 <= j < |s.insts| ==> Given(s.(insts := s.insts[i := d']).insts[j]) == Given(s.insts[j]);
  }

  lemma GrownWrites(s: State, i: nat, d': Inst)
    requires WriteOk(s) && i < |s.insts| && Grown(s.insts[i], d')
    ensures WriteOk(s.(insts := s.insts[i := d']))
  {
    var s' := s.(insts := s.insts[i := d']);
    assert forall j :: 0 <= j < |s.insts| ==> Given(s'.insts[j]) == Given(s.insts[j]);
    if s.phase.Writing? {
      forall j <- s.phase.pending ensures Reads(s.phase.pending[j], s'.insts[j], s.bounds) {
        ReadsKept(s.phase.pending[j], s.insts[j], s'.insts[j], s.bounds);
      }
    }
  }

  lemma GrownDues(s: State, i: nat, d': Inst)
    requires Inv(s) && i < |s.insts| && Grown(s.insts[i], d')
    requires forall top: nat :: top <= |s.insts[i].log| && Covered(s.insts[i], top) ==> Covered(d', top)
    ensures DuesOk(s.(insts := s.insts[i := d']))
  {
    var s' := s.(insts := s.insts[i := d']);
    forall j | 0 <= j < |s'.insts| ensures Due(s', j) {
      assert Due(s, j) && EntryOk(s, j) && LogOk(s.insts[j], s.bounds);
      assert Top(s, j) <= |s.insts[j].log|;
    }
  }

  lemma ObserveKeeps(s: State, i: nat, x: Obs)
    requires Inv(s) && Enabled(s, Observe(i, x))
    ensures Inv(Apply(s, Observe(i, x)))
  {
    var d, d' := s.insts[i], Apply(s, Observe(i, x)).insts[i];
    forall c: Part ensures Tally(d'.log, c) == Tally(d'.made, c) + Tally(d'.moved, c) {
      TallyAppend(d.log, [x], c);
      TallyAppend(d.made, [x], c);
    }
    ReadsKept(Given(d), d, d', s.bounds);
    GrownKeeps(s, i, d');
  }

  lemma ExemplifyKeeps(s: State, i: nat, k: nat)
    requires Inv(s) && Enabled(s, Exemplify(i, k))
    ensures Inv(Apply(s, Exemplify(i, k)))
  {
    GrownKeeps(s, i, s.insts[i].(exemplar := true));
  }

  lemma EnlistKeeps(s: State, i: nat, k: nat)
    requires Inv(s) && Enabled(s, Enlist(i, k))
    ensures Inv(Apply(s, Enlist(i, k)))
  {
    GrownKeeps(s, i, Apply(s, Enlist(i, k)).insts[i]);
  }

  lemma DeleteKeeps(s: State, i: nat)
    requires Inv(s) && Enabled(s, Delete(i))
    ensures Inv(Apply(s, Delete(i)))
  {
    GrownKeeps(s, i, s.insts[i].(dead := true));
  }

  lemma LookupKeeps(s: State, key: nat)
    requires Inv(s) && Enabled(s, Lookup(key))
    ensures Inv(Apply(s, Lookup(key)))
  {
    LookupLogs(s, key);
    LookupSaids(s, key);
    LookupRounds(s, key);
    LookupDues(s, key);
    forall i | 0 <= i < |s.insts| && !s.insts[i].dead ensures s.insts[i].key != key { assert !Live(s, i, key); }
  }

  lemma LookupLogs(s: State, key: nat)
    requires LogsOk(s) && MovesOk(s) && RowsOk(s, s.processed) && Enabled(s, Lookup(key))
    ensures var s' := Apply(s, Lookup(key)); LogsOk(s') && MovesOk(s') && RowsOk(s', s'.processed)
  {
    var s' := Apply(s, Lookup(key));
    forall c: Part ensures Tally([], c) == 0.0 {}
    forall k: nat, c: Part ensures Total(s'.insts, k, Moved, c) == Total(s'.insts, k, Out, c) { assert s'.insts[..|s.insts|] == s.insts; }
  }

  lemma LookupDues(s: State, key: nat)
    requires DuesOk(s) && EntriesOk(s) && HeldOk(s) && WriteOk(s) && Enabled(s, Lookup(key))
    ensures DuesOk(Apply(s, Lookup(key))) && EntriesOk(Apply(s, Lookup(key)))
  {
    var s' := Apply(s, Lookup(key));
    forall j | 0 <= j < |s'.insts| ensures Due(s', j) && EntryOk(s', j) {
      if j < |s.insts| { assert Due(s, j) && EntryOk(s, j); }
    }
  }

  lemma LookupSaids(s: State, key: nat)
    requires SaidsOk(s) && HeldOk(s) && RowsOk(s, s.processed) && Enabled(s, Lookup(key))
    ensures SaidsOk(Apply(s, Lookup(key)))
  {
    var s' := Apply(s, Lookup(key));
    forall j | 0 <= j < |s'.insts| ensures SaidOk(s', j) {
      if j < |s.insts| {
        assert SaidOk(s, j);
      } else {
        forall c: Part ensures Said(s.processed, j, c) == 0.0 && Said(HeldRows(s), j, c) == 0.0 {
          SaidNone(s.processed, j, c);
          SaidNone(HeldRows(s), j, c);
        }
      }
    }
  }

  lemma LookupRounds(s: State, key: nat)
    requires PicksOk(s) && HeldOk(s) && WriteOk(s) && Enabled(s, Lookup(key))
    ensures var s' := Apply(s, Lookup(key)); PicksOk(s') && HeldOk(s') && WriteOk(s')
  {
    LookupHeld(s, key);
    LookupWrites(s, key);
  }

  lemma LookupHeld(s: State, key: nat)
    requires HeldOk(s) && Enabled(s, Lookup(key))
    ensures HeldOk(Apply(s, Lookup(key)))
  {
    if s.held.Some? {
      forall c: Part ensures Said(s.held.value.rows, |s.insts|, c) == 0.0 { SaidNone(s.held.value.rows, |s.insts|, c); }
    }
  }

  lemma LookupWrites(s: State, key: nat)
    requires WriteOk(s) && Enabled(s, Lookup(key))
    ensures WriteOk(Apply(s, Lookup(key)))
  {
    if s.phase.Writing? {
      forall c: Part ensures Said(s.phase.rows, |s.insts|, c) == 0.0 { SaidNone(s.phase.rows, |s.insts|, c); }
    }
  }

  // ---------------------------------------------------------------- a request

  /** The same logs and histories, and as much delivered. */
  ghost predicate SameBooks(s: State, s': State) {
    && |s'.insts| == |s.insts| && s'.bounds == s.bounds && s'.processed == s.processed && HeldRows(s') == HeldRows(s)
    && forall i :: 0 <= i < |s.insts| ==>
         && Given(s'.insts[i]) == Given(s.insts[i])
         && s'.insts[i] == s.insts[i].(dead := s'.insts[i].dead, dirty := s'.insts[i].dirty, entry := s'.insts[i].entry)
  }

  lemma BooksKept(s: State, s': State)
    requires LogsOk(s) && SaidsOk(s) && MovesOk(s) && RowsOk(s, s.processed) && SameBooks(s, s')
    ensures LogsOk(s') && SaidsOk(s') && MovesOk(s') && RowsOk(s', s'.processed)
  {
    forall i | 0 <= i < |s'.insts| ensures LogOk(s'.insts[i], s'.bounds) && SaidOk(s', i) {
      assert LogOk(s.insts[i], s.bounds) && SaidOk(s, i);
    }
    forall key: nat, c: Part ensures Total(s'.insts, key, Moved, c) == Total(s'.insts, key, Out, c) {
      TotalSame(s.insts, s'.insts, key, Moved, c);
      TotalSame(s.insts, s'.insts, key, Out, c);
    }
  }

  lemma HeldKept(s: State, s': State)
    requires HeldOk(s) && SameBooks(s, s') && s'.held == s.held
    requires s.held.Some? && Scraping(s'.phase) ==> s'.phase.ack.Peek?
    ensures HeldOk(s')
  {
  }

  /** What a round says of an instance is what its commit adds to what was delivered. */
  lemma CommitSaid(s: State, values: map<nat, Slice>, rows: seq<Row>, i: nat)
    requires RoundOk(s, values, rows, {}) && i < |s.insts|
    ensures var d' := Commit(s.insts, values)[i]; forall c: Part :: Finite(c, s.bounds) ==>
      PartOf(Given(d'), c) == PartOf(Given(s.insts[i]), c) + Said(rows, i, c)
  {
  }

  lemma CommitBooks(s: State, values: map<nat, Slice>, s': State)
    requires LogsOk(s) && MovesOk(s) && RowsOk(s, s.processed)
    requires forall i <- values :: i < |s.insts| && Reads(values[i], s.insts[i], s.bounds)
    requires s'.bounds == s.bounds && s'.insts == Commit(s.insts, values)
    ensures LogsOk(s') && MovesOk(s') && RowsOk(s', s.processed)
  {
    forall i | 0 <= i < |s'.insts| ensures LogOk(s'.insts[i], s'.bounds) {
      assert LogOk(s.insts[i], s.bounds);
      if i in values { SetLog(s.insts[i], values[i], s.bounds); }
    }
    CommitMoves(s, values, s');
  }

  lemma CommitMoves(s: State, values: map<nat, Slice>, s': State)
    requires MovesOk(s) && s'.insts == Commit(s.insts, values)
    ensures MovesOk(s')
  {
    forall key: nat, c: Part ensures Total(s'.insts, key, Moved, c) == Total(s'.insts, key, Out, c) {
      TotalSame(s.insts, s'.insts, key, Moved, c);
      TotalSame(s.insts, s'.insts, key, Out, c);
    }
  }

  lemma SetLog(d: Inst, w: Slice, bounds: nat)
    requires LogOk(d, bounds) && Reads(w, d, bounds)
    ensures LogOk(SetSlice(d, w), bounds)
  {
  }

  lemma CommitHeldKeeps(s: State, a: Ack)
    requires Inv(s) && s.phase.Resting? && s.held.Some? && s.held.value.processed
    ensures Inv(s.(insts := Commit(s.insts, s.held.value.values), held := None))
  {
    var h := s.held.value;
    var s' := s.(insts := Commit(s.insts, h.values), held := None);
    assert Values(s) == h.values;
    forall i <- h.values ensures Reads(h.values[i], s.insts[i], s.bounds) { assert EntryOk(s, i); }
    CommitBooks(s, h.values, s');
    forall i | 0 <= i < |s'.insts| ensures SaidOk(s', i) {
      assert SaidOk(s, i);
      CommitSaid(s, h.values, h.rows, i);
    }
    forall i | 0 <= i < |s'.insts| ensures Due(s', i) && EntryOk(s', i) { assert Due(s, i) && EntryOk(s, i); }
  }

  lemma RollBackKeeps(s: State, a: Ack)
    requires Inv(s) && s.phase.Resting? && s.held.Some? && !s.held.value.processed
    ensures Inv(s.(insts := MarkAll(s.insts, s.held.value.values.Keys), held := None))
  {
    var s' := s.(insts := MarkAll(s.insts, s.held.value.values.Keys), held := None);
    BooksKept(s, s');
    forall i | 0 <= i < |s'.insts| ensures Due(s', i) && EntryOk(s', i) { assert Due(s, i) && EntryOk(s, i); }
  }

  lemma SettleKeeps(s: State, a: Ack)
    requires Inv(s) && s.phase.Resting?
    requires s.held.Some? && !a.Peek? ==> (Commits(s.session, s.held.value.round, a) <==> s.held.value.processed)
    ensures Inv(Settle(s, a)) && (!a.Peek? ==> Settle(s, a).held.None?)
  {
    if s.held.Some? && !a.Peek? {
      if s.held.value.processed { CommitHeldKeeps(s, a); } else { RollBackKeeps(s, a); }
    }
  }

  lemma RequestKeeps(s: State, a: Ack, final: bool)
    requires Inv(s) && Enabled(s, Request(a, final)) && Sound(s, Request(a, final))
    ensures Inv(Apply(s, Request(a, final)))
  {
    SettleKeeps(s, a);
    SettleRests(s, a);
    if !(final && Acknowledges(a)) { StartKeeps(Settle(s, a), a); }
  }

  lemma SettleRests(s: State, a: Ack)
    ensures Settle(s, a).phase == s.phase
  {
  }

  lemma StartKeeps(s: State, a: Ack)
    requires Inv(s) && s.phase.Resting? && (!a.Peek? ==> s.held.None?)
    ensures Inv(Start(s, a))
  {
    var s' := Start(s, a);
    BooksKept(s, s');
    HeldKept(s, s');
    forall i | 0 <= i < |s'.insts| ensures Due(s', i) && EntryOk(s', i) { assert Due(s, i) && EntryOk(s, i); }
  }

  lemma TakeKeeps(s: State)
    requires Inv(s) && Enabled(s, Take)
    ensures Inv(Apply(s, Take))
  {
    var s' := Apply(s, Take);
    BooksKept(s, s');
    HeldKept(s, s');
    TakeDues(s);
  }

  lemma TakeDues(s: State)
    requires DuesOk(s) && EntriesOk(s) && Enabled(s, Take)
    ensures DuesOk(Apply(s, Take)) && EntriesOk(Apply(s, Take))
  {
    var s' := Apply(s, Take);
    forall i | 0 <= i < |s'.insts| ensures Due(s', i) && EntryOk(s', i) { assert Due(s, i) && EntryOk(s, i); }
  }

  lemma HandKeeps(s: State, i: nat)
    requires Inv(s) && Enabled(s, Hand(i))
    ensures Inv(Apply(s, Hand(i)))
  {
    var s' := Apply(s, Hand(i));
    BooksKept(s, s');
    forall j <- Todo(s'.phase) ensures j < |s'.insts| { assert j in Todo(s.phase); }
    forall j | 0 <= j < |s'.insts| ensures Due(s', j) && EntryOk(s', j) { assert Due(s, j) && EntryOk(s, j); }
  }

  // ---------------------------------------------------------------- pick and settleDeleted

  lemma AskKeeps(s: State)
    requires Inv(s) && Enabled(s, Check) && !s.insts[s.phase.inst].dead
    ensures Inv(Apply(s, Check))
  {
    var s' := Apply(s, Check);
    BooksKept(s, s');
    forall j <- Todo(s'.phase) ensures j < |s'.insts| { assert j in Todo(s.phase); }
    forall j | 0 <= j < |s'.insts| ensures Due(s', j) && EntryOk(s', j) { assert Due(s, j) && EntryOk(s, j); }
  }

  lemma ReviveKeeps(s: State)
    requires Inv(s) && Enabled(s, Check) && s.insts[s.phase.inst].dead && Vacant(s, s.insts[s.phase.inst].key)
    ensures Inv(Apply(s, Check))
  {
    var s' := Apply(s, Check);
    BooksKept(s, s');
    HeldKept(s, s');
    forall j | 0 <= j < |s'.insts| ensures Due(s', j) && EntryOk(s', j) { assert Due(s, j) && EntryOk(s, j); }
    forall j | 0 <= j < |s.insts| && !s.insts[j].dead ensures s.insts[j].key != s.insts[s.phase.inst].key {
      assert !Live(s, j, s.insts[s.phase.inst].key);
    }
  }

  /** The scraper has not processed a held round that carries i. */
  ghost predicate MayMerge(s: State, i: nat) { s.held.Some? && s.held.value.processed ==> i !in s.held.value.values }

  lemma MergeMoves(s: State, i: nat, j: nat)
    requires MovesOk(s) && s.phase.Picking? && i < |s.insts| && j < |s.insts| && i != j && s.insts[i].key == s.insts[j].key
    ensures MovesOk(Merge(s, i, j))
  {
    var s' := Merge(s, i, j);
    var mid := s.insts[i := s'.insts[i]];
    var left := Left(s.insts[i]);
    assert s'.insts == mid[j := s'.insts[j]];
    forall key: nat, c: Part ensures Total(s'.insts, key, Moved, c) == Total(s'.insts, key, Out, c) {
      TotalUpdate(s.insts, i, s'.insts[i], key, Moved, c);
      TotalUpdate(s.insts, i, s'.insts[i], key, Out, c);
      TotalUpdate(mid, j, s'.insts[j], key, Moved, c);
      TotalUpdate(mid, j, s'.insts[j], key, Out, c);
      TallyAppend(s.insts[i].out, left, c);
      TallyAppend(s.insts[j].moved, left, c);
    }
  }

  lemma MergedLogs(s: State, i: nat, j: nat)
    requires LogsOk(s) && s.phase.Picking? && i < |s.insts| && j < |s.insts| && i != j
    ensures LogsOk(Merge(s, i, j))
  {
    var s' := Merge(s, i, j);
    var left := Left(s.insts[i]);
    assert LogOk(s.insts[i], s.bounds) && LogOk(s.insts[j], s.bounds);
    forall k | 0 <= k < |s.insts| ensures LogOk(s'.insts[k], s.bounds) {
      if k == i {
        WriteReads(s.insts[i], s.bounds);
      } else if k == j && Accepts(s.insts[i], s.bounds) {
        forall c: Part ensures Tally(s'.insts[j].log, c) == Tally(s'.insts[j].made, c) + Tally(s'.insts[j].moved, c) {
          TallyAppend(s.insts[j].log, left, c);
          TallyAppend(s.insts[j].moved, left, c);
        }
        ReadsKept(Given(s.insts[j]), s.insts[j], s'.insts[j], s.bounds);
      } else {
        assert s'.insts[k] == s.insts[k];
      }
    }
  }

  lemma MergedSaid(s: State, i: nat, j: nat)
    requires s.phase.Picking? && i < |s.insts| && j < |s.insts| && i != j && SaidOk(s, i) && LogOk(s.insts[i], s.bounds)
    ensures SaidOk(Merge(s, i, j), i)
  {
    var d, s' := s.insts[i], Merge(s, i, j);
    forall c: Part | Finite(c, s.bounds)
      ensures PartOf(Given(s'.insts[i]), c) - Tally(s'.insts[i].out, c) - Tally(s'.insts[i].lost, c)
           == PartOf(Given(d), c) - Tally(d.out, c) - Tally(d.lost, c)
    {
      LeftPart(d, s.bounds, c);
      TallyAppend(d.out, Left(d), c);
      TallyAppend(d.lost, Left(d), c);
    }
  }

  lemma MergeSaids(s: State, i: nat, j: nat)
    requires SaidsOk(s) && LogsOk(s) && s.phase.Picking? && i < |s.insts| && j < |s.insts| && i != j
    ensures SaidsOk(Merge(s, i, j))
  {
    var s' := Merge(s, i, j);
    forall k | 0 <= k < |s'.insts| ensures SaidOk(s', k) {
      assert SaidOk(s, k) && LogOk(s.insts[k], s.bounds);
      if k == i { MergedSaid(s, i, j); } else { UnmergedSaid(s, i, j, k); }
    }
  }

  lemma UnmergedSaid(s: State, i: nat, j: nat, k: nat)
    requires s.phase.Picking? && i < |s.insts| && j < |s.insts| && i != j && k < |s.insts| && k != i && SaidOk(s, k)
    ensures SaidOk(Merge(s, i, j), k)
  {
    var d, d' := s.insts[k], Merge(s, i, j).insts[k];
    assert Given(d') == Given(d) && d'.out == d.out && d'.lost == d.lost;
    assert HeldRows(Merge(s, i, j)) == HeldRows(s);
  }

  lemma MergeRows(s: State, i: nat, j: nat)
    requires s.phase.Picking? && i < |s.insts| && j < |s.insts| && i != j && RowsOk(s, s.processed)
    ensures RowsOk(Merge(s, i, j), s.processed)
  {
  }

  lemma MergeDues(s: State, i: nat, j: nat)
    requires DuesOk(s) && EntriesOk(s) && s.phase.Picking? && i == s.phase.inst < |s.insts| && j < |s.insts|
    requires s.insts[i].dead && Live(s, j, s.insts[i].key)
    ensures DuesOk(Merge(s, i, j))
  {
    var s' := Merge(s, i, j);
    forall k | 0 <= k < |s'.insts| ensures Due(s', k) { assert Due(s, k) && EntryOk(s, k); }
  }

  lemma MergeTarget(s: State, i: nat, j: nat)
    requires s.phase.Picking? && i < |s.insts| && j < |s.insts| && i != j && EntryOk(s, j)
    ensures EntryOk(Merge(s, i, j), j)
  {
    if j in Values(s) { ReadsKept(Values(s)[j], s.insts[j], Merge(s, i, j).insts[j], s.bounds); }
  }

  lemma MergeEntries(s: State, i: nat, j: nat)
    requires EntriesOk(s) && PicksOk(s) && HeldOk(s) && s.phase.Picking? && i == s.phase.inst < |s.insts| && j < |s.insts|
    requires s.insts[i].dead && Live(s, j, s.insts[i].key) && MayMerge(s, i)
    ensures EntriesOk(Merge(s, i, j))
  {
    var s' := Merge(s, i, j);
    forall k | 0 <= k < |s'.insts| ensures EntryOk(s', k) {
      assert EntryOk(s, k);
      if k == j { MergeTarget(s, i, j); }
    }
  }

  /** A round that does not carry i says nothing of it, whatever becomes of it. */
  lemma NotCarried(s: State, i: nat, j: nat)
    requires s.phase.Picking? && i < |s.insts| && j < |s.insts| && i != j && s.held.Some? && i !in s.held.value.values
    requires RoundOk(s, s.held.value.values, s.held.value.rows, s.held.value.spoiled)
    ensures RoundOk(Merge(s, i, j), s.held.value.values, s.held.value.rows, s.held.value.spoiled)
  {
    assert forall k :: 0 <= k < |s.insts| && k != i ==> Given(Merge(s, i, j).insts[k]) == Given(s.insts[k]);
  }

  lemma MergeHeld(s: State, i: nat, j: nat)
    requires HeldOk(s) && s.phase.Picking? && i < |s.insts| && j < |s.insts| && i != j && MayMerge(s, i)
    ensures HeldOk(Merge(s, i, j))
  {
    if s.held.Some? {
      RoundKept(s, Merge(s, i, j), s.held.value.values, s.held.value.rows, s.held.value.spoiled, s.held.value.spoiled + {i});
      if i !in s.held.value.values { NotCarried(s, i, j); }
    }
  }

  lemma MergePicks(s: State, i: nat, j: nat)
    requires PicksOk(s) && s.phase.Picking? && i == s.phase.inst < |s.insts| && j < |s.insts| && i != j
    ensures PicksOk(Merge(s, i, j))
  {
    var s' := Merge(s, i, j);
    forall k <- Todo(s'.phase) ensures k < |s'.insts| { assert k in Todo(s.phase); }
  }

  lemma MergeKeeps(s: State, i: nat, j: nat)
    requires Inv(s) && s.phase.Picking? && i == s.phase.inst < |s.insts| && j < |s.insts|
    requires s.insts[i].dead && Live(s, j, s.insts[i].key) && MayMerge(s, i)
    ensures Inv(Merge(s, i, j))
  {
    MergeMoves(s, i, j);
    MergedLogs(s, i, j);
    MergeSaids(s, i, j);
    MergeRows(s, i, j);
    MergeDues(s, i, j);
    MergeEntries(s, i, j);
    MergePicks(s, i, j);
    MergeHeld(s, i, j);
  }

  lemma CheckKeeps(s: State)
    requires Inv(s) && Enabled(s, Check) && Sound(s, Check)
    ensures Inv(Apply(s, Check))
  {
    var i := s.phase.inst;
    if !s.insts[i].dead {
      AskKeeps(s);
    } else if Vacant(s, s.insts[i].key) {
      ReviveKeeps(s);
    } else {
      var j :| Live(s, j, s.insts[i].key) && Apply(s, Check) == Merge(s, i, j);
      assert Merging(s) && Live(s, j, s.insts[i].key) && MayMerge(s, i);
      MergeKeeps(s, i, j);
    }
  }

  lemma EnterDues(s: State)
    requires DuesOk(s) && EntriesOk(s) && Enabled(s, Enter) && Sound(s, Enter)
    ensures DuesOk(Apply(s, Enter))
  {
    var s' := Apply(s, Enter);
    assert s'.taken != s.taken ==> s'.taken[|s.taken|] == s.phase.inst;
    assert forall i <- s.taken :: i in s'.taken;
    forall j | 0 <= j < |s'.insts| ensures Due(s', j) { assert Due(s, j) && EntryOk(s, j); }
  }

  lemma EnterEntries(s: State)
    requires EntriesOk(s) && Enabled(s, Enter)
    ensures EntriesOk(Apply(s, Enter))
  {
    var s' := Apply(s, Enter);
    assert s'.taken != s.taken ==> s'.taken[|s.taken|] == s.phase.inst;
    assert forall i <- s.taken :: i in s'.taken;
    forall j | 0 <= j < |s'.insts| ensures EntryOk(s', j) { assert EntryOk(s, j); }
  }

  lemma EnterPicks(s: State)
    requires PicksOk(s) && EntriesOk(s) && Enabled(s, Enter)
    ensures PicksOk(Apply(s, Enter))
  {
    var s' := Apply(s, Enter);
    assert EntryOk(s, s.phase.inst);
    forall k <- Todo(s'.phase) ensures k < |s'.insts| { assert k in Todo(s.phase); }
  }

  lemma EnterHeld(s: State)
    requires HeldOk(s) && Enabled(s, Enter)
    ensures HeldOk(Apply(s, Enter))
  {
    if s.held.Some? {
      RoundKept(s, Apply(s, Enter), s.held.value.values, s.held.value.rows, s.held.value.spoiled, Apply(s, Enter).held.value.spoiled);
    }
  }

  lemma EnterKeeps(s: State)
    requires Inv(s) && Enabled(s, Enter) && Sound(s, Enter)
    ensures Inv(Apply(s, Enter))
  {
    EnterDues(s);
    EnterEntries(s);
    EnterPicks(s);
    EnterHeld(s);
    EnterBooks(s);
    BooksKept(s, Apply(s, Enter));
  }

  lemma EnterBooks(s: State)
    requires Enabled(s, Enter)
    ensures var s' := Apply(s, Enter); SameBooks(s, s') && (WriteOk(s) ==> WriteOk(s')) && (Unique(s) ==> Unique(s'))
  {
  }

  // ---------------------------------------------------------------- the second pass

  lemma BeginKeeps(s: State)
    requires Inv(s) && Enabled(s, Begin)
    ensures Inv(Apply(s, Begin))
  {
    var s' := Apply(s, Begin);
    BooksKept(s, s');
    HeldKept(s, s');
    forall j | 0 <= j < |s'.insts| ensures Due(s', j) && EntryOk(s', j) { assert Due(s, j) && EntryOk(s, j); }
  }

  /** The row written, if it is one, is the increment of what is pending for it. */
  lemma WrittenRow(s: State, k: nat, c: Part)
    requires Enabled(s, Write) && k < |s.insts| && Finite(c, s.bounds) && Reads(Given(s.insts[s.phase.left[0]]), s.insts[s.phase.left[0]], s.bounds)
    requires s.phase.left[0] !in s.phase.pending
    requires Said(s.phase.rows, k, c) == if k in s.phase.pending then PartOf(s.phase.pending[k], c) - PartOf(Given(s.insts[k]), c) else 0.0
    ensures var p := Apply(s, Write).phase;
      Said(p.rows, k, c) == if k in p.pending then PartOf(p.pending[k], c) - PartOf(Given(s.insts[k]), c) else 0.0
  {
    var i, rows := s.phase.left[0], Apply(s, Write).phase.rows;
    RowPart(i, s.insts[i], s.bounds, c);
    assert rows != s.phase.rows ==> rows[..|rows| - 1] == s.phase.rows;
  }

  /** Each instance picked is written once. */
  lemma LeftOnce(s: State)
    requires Distinct(s.taken) && LeftOk(s) && s.phase.Writing? && s.phase.left != []
    ensures s.phase.left[0] in s.taken && s.phase.left[0] !in s.phase.left[1..] && s.phase.left[0] !in s.phase.pending
  {
    var left := s.phase.left;
    SuffixOnce(s.taken, left);
    assert left[0] in left;
  }

  lemma SuffixOnce(taken: seq<nat>, left: seq<nat>)
    requires Distinct(taken)
    requires 0 < |left| <= |taken| && left == taken[|taken| - |left|..]
    ensures left[0] in taken && left[0] !in left[1..]
  {
    var from := |taken| - |left|;
    assert left[0] == taken[from];
    assert forall k :: 0 <= k < |left| - 1 ==> left[1..][k] == taken[from + 1 + k];
  }

  lemma WrittenRows(s: State)
    requires Enabled(s, Write) && RowsOk(s, s.phase.rows) && LogOk(s.insts[s.phase.left[0]], s.bounds)
    ensures RowsOk(Apply(s, Write), Apply(s, Write).phase.rows)
  {
    RowAbove(s.phase.left[0], s.insts[s.phase.left[0]], s.bounds);
  }

  lemma WriteRound(s: State)
    requires LogsOk(s) && PicksOk(s) && WriteOk(s) && Enabled(s, Write)
    ensures var s' := Apply(s, Write); RoundOk(s', s'.phase.pending, s'.phase.rows, {})
  {
    var s' := Apply(s, Write);
    var i := s.phase.left[0];
    assert LogOk(s.insts[i], s.bounds);
    LeftOnce(s);
    WrittenRows(s);
    forall k, c: Part | 0 <= k < |s.insts| && Finite(c, s.bounds)
      ensures Said(s'.phase.rows, k, c) == if k in s'.phase.pending then PartOf(s'.phase.pending[k], c) - PartOf(Given(s.insts[k]), c) else 0.0
    {
      WrittenRow(s, k, c);
    }
  }

  lemma WriteRows(s: State)
    requires LogsOk(s) && PicksOk(s) && WriteOk(s) && Enabled(s, Write)
    ensures WriteOk(Apply(s, Write))
  {
    assert LogOk(s.insts[s.phase.left[0]], s.bounds);
    WriteReads(s.insts[s.phase.left[0]], s.bounds);
    WriteLeft(s);
    WriteRound(s);
  }

  lemma WriteLeft(s: State)
    requires PicksOk(s) && LeftOk(s) && Enabled(s, Write)
    ensures LeftOk(Apply(s, Write))
  {
    LeftOnce(s);
  }

  lemma WriteDues(s: State)
    requires Inv(s) && Enabled(s, Write)
    ensures DuesOk(Apply(s, Write))
  {
    var s' := Apply(s, Write);
    var i := s.phase.left[0];
    assert LogOk(s.insts[i], s.bounds);
    forall k | 0 <= k < |s'.insts| ensures Due(s', k) {
      assert Due(s, k);
      assert k in s.phase.left ==> k == i || k in s'.phase.left;
    }
  }

  lemma WriteKeeps(s: State)
    requires Inv(s) && Enabled(s, Write)
    ensures Inv(Apply(s, Write))
  {
    var s' := Apply(s, Write);
    WriteRows(s);
    WriteDues(s);
    BooksKept(s, s');
    HeldKept(s, s');
    WritePicks(s);
  }

  lemma WritePicks(s: State)
    requires PicksOk(s) && EntriesOk(s) && Enabled(s, Write)
    ensures PicksOk(Apply(s, Write)) && EntriesOk(Apply(s, Write))
  {
    var s' := Apply(s, Write);
    forall j | 0 <= j < |s'.insts| ensures EntryOk(s', j) { assert EntryOk(s, j); }
  }

  // ---------------------------------------------------------------- the end of a scrape

  lemma RemarkKeeps(s: State, delivered: bool)
    requires Inv(s) && Enabled(s, Finish(delivered)) && (s.phase.ack.Peek? || !delivered)
    ensures Inv(Apply(s, Finish(delivered)))
  {
    RemarkBooks(s, delivered);
    BooksKept(s, Apply(s, Finish(delivered)));
    HeldKept(s, Apply(s, Finish(delivered)));
    RemarkDues(s, delivered);
  }

  lemma RemarkBooks(s: State, delivered: bool)
    requires Enabled(s, Finish(delivered)) && (s.phase.ack.Peek? || !delivered)
    ensures var s' := Apply(s, Finish(delivered)); SameBooks(s, s') && s'.held == s.held && s'.phase.Resting? && (Unique(s) ==> Unique(s'))
  {
  }

  lemma RemarkDues(s: State, delivered: bool)
    requires DuesOk(s) && EntriesOk(s) && PicksOk(s) && WriteOk(s) && Enabled(s, Finish(delivered)) && (s.phase.ack.Peek? || !delivered)
    ensures var s' := Apply(s, Finish(delivered)); DuesOk(s') && EntriesOk(s') && PicksOk(s')
  {
    var s' := Apply(s, Finish(delivered));
    forall j | 0 <= j < |s'.insts| ensures Due(s', j) {
      assert Due(s, j) && EntryOk(s, j);
      assert j in s.taken <==> j in Taken(s);
    }
    RemarkEntries(s, delivered);
  }

  lemma RemarkEntries(s: State, delivered: bool)
    requires EntriesOk(s) && PicksOk(s) && Enabled(s, Finish(delivered)) && (s.phase.ack.Peek? || !delivered)
    ensures var s' := Apply(s, Finish(delivered)); EntriesOk(s') && PicksOk(s')
  {
    var s' := Apply(s, Finish(delivered));
    forall j | 0 <= j < |s'.insts| ensures EntryOk(s', j) { assert EntryOk(s, j); }
  }

  lemma NowHeldKeeps(s: State)
    requires Inv(s) && Enabled(s, Finish(true)) && Acknowledges(s.phase.ack)
    ensures Inv(Apply(s, Finish(true)))
  {
    var s' := Apply(s, Finish(true));
    BooksKept(s, s');
    NowHeldDues(s);
  }

  lemma NowHeldDues(s: State)
    requires DuesOk(s) && EntriesOk(s) && PicksOk(s) && HeldOk(s) && WriteOk(s) && Enabled(s, Finish(true)) && Acknowledges(s.phase.ack)
    ensures var s' := Apply(s, Finish(true)); DuesOk(s') && EntriesOk(s') && PicksOk(s')
  {
    var s' := Apply(s, Finish(true));
    assert Values(s') == s.phase.pending;
    forall j | 0 <= j < |s'.insts| ensures Due(s', j) { assert Due(s, j) && EntryOk(s, j); }
    NowHeldEntries(s);
  }

  lemma NowHeldEntries(s: State)
    requires EntriesOk(s) && PicksOk(s) && WriteOk(s) && Enabled(s, Finish(true)) && Acknowledges(s.phase.ack)
    ensures var s' := Apply(s, Finish(true)); EntriesOk(s') && PicksOk(s')
  {
    var s' := Apply(s, Finish(true));
    assert Values(s') == s.phase.pending;
    forall j | 0 <= j < |s'.insts| ensures EntryOk(s', j) { assert EntryOk(s, j); }
  }

  lemma SilentKeeps(s: State)
    requires Inv(s) && Enabled(s, Finish(true)) && s.phase.ack.Silent?
    ensures Inv(Apply(s, Finish(true)))
  {
    var s' := Apply(s, Finish(true));
    CommitBooks(s, s.phase.pending, s');
    SilentSaids(s);
    SilentDues(s);
  }

  lemma SilentDues(s: State)
    requires DuesOk(s) && EntriesOk(s) && PicksOk(s) && HeldOk(s) && WriteOk(s) && Enabled(s, Finish(true)) && s.phase.ack.Silent?
    ensures var s' := Apply(s, Finish(true)); DuesOk(s') && EntriesOk(s') && PicksOk(s')
  {
    var s' := Apply(s, Finish(true));
    forall j | 0 <= j < |s'.insts| ensures Due(s', j) { assert Due(s, j) && EntryOk(s, j); }
    SilentEntries(s);
  }

  lemma SilentEntries(s: State)
    requires EntriesOk(s) && HeldOk(s) && PicksOk(s) && Enabled(s, Finish(true)) && s.phase.ack.Silent?
    ensures EntriesOk(Apply(s, Finish(true))) && PicksOk(Apply(s, Finish(true)))
  {
    var s' := Apply(s, Finish(true));
    forall j | 0 <= j < |s'.insts| ensures EntryOk(s', j) { assert EntryOk(s, j); }
  }

  lemma SilentSaids(s: State)
    requires SaidsOk(s) && HeldOk(s) && WriteOk(s) && Enabled(s, Finish(true)) && s.phase.ack.Silent?
    ensures SaidsOk(Apply(s, Finish(true)))
  {
    var s' := Apply(s, Finish(true));
    forall i | 0 <= i < |s'.insts| ensures SaidOk(s', i) {
      assert SaidOk(s, i);
      CommitSaid(s, s.phase.pending, s.phase.rows, i);
      forall c: Part ensures Said(s'.processed, i, c) == Said(s.processed, i, c) + Said(s.phase.rows, i, c) {
        SaidAppend(s.processed, s.phase.rows, i, c);
      }
    }
  }

  lemma FinishKeeps(s: State, delivered: bool)
    requires Inv(s) && Enabled(s, Finish(delivered))
    ensures Inv(Apply(s, Finish(delivered)))
  {
    if s.phase.ack.Peek? || !delivered { RemarkKeeps(s, delivered); }
    else if Acknowledges(s.phase.ack) { NowHeldKeeps(s); }
    else { SilentKeeps(s); }
  }

  lemma ReceiveSaids(s: State)
    requires SaidsOk(s) && Enabled(s, Receive)
    ensures SaidsOk(Apply(s, Receive))
  {
    var s' := Apply(s, Receive);
    var rows := s.held.value.rows;
    forall i | 0 <= i < |s'.insts| ensures SaidOk(s', i) {
      assert SaidOk(s, i);
      forall c: Part ensures Said(s'.processed, i, c) == Said(s.processed, i, c) + Said(rows, i, c) { SaidAppend(s.processed, rows, i, c); }
    }
  }

  lemma ReceiveDues(s: State)
    requires DuesOk(s) && EntriesOk(s) && Enabled(s, Receive) && Sound(s, Receive)
    ensures DuesOk(Apply(s, Receive)) && EntriesOk(Apply(s, Receive))
  {
    var s' := Apply(s, Receive);
    forall j | 0 <= j < |s'.insts| ensures Due(s', j) && EntryOk(s', j) { assert Due(s, j) && EntryOk(s, j); }
  }

  lemma ReceiveKeeps(s: State)
    requires Inv(s) && Enabled(s, Receive) && Sound(s, Receive)
    ensures Inv(Apply(s, Receive))
  {
    ReceiveSaids(s);
    ReceiveDues(s);
  }

  // ---------------------------------------------------------------- runs

  lemma StepKeeps(s: State, e: Event)
    requires Inv(s) && Enabled(s, e) && Sound(s, e)
    ensures Inv(Apply(s, e))
  {
    match e
    case Observe(i, x) => ObserveKeeps(s, i, x);
    case Exemplify(i, k) => ExemplifyKeeps(s, i, k);
    case Enlist(i, k) => EnlistKeeps(s, i, k);
    case Lookup(key) => LookupKeeps(s, key);
    case Delete(i) => DeleteKeeps(s, i);
    case Request(a, final) => RequestKeeps(s, a, final);
    case Take => TakeKeeps(s);
    case Hand(i) => HandKeeps(s, i);
    case Check => CheckKeeps(s);
    case Enter => EnterKeeps(s);
    case Begin => BeginKeeps(s);
    case Write => WriteKeeps(s);
    case Finish(delivered) => FinishKeeps(s, delivered);
    case Receive => ReceiveKeeps(s);
  }

  ghost function Initial(session: string, bounds: nat): State { State(session, bounds, [], Resting, 0, None, [], []) }

  ghost predicate Next(s: State, e: Event, s': State) { Enabled(s, e) && Sound(s, e) && s' == Apply(s, e) }

  ghost predicate Run(run: seq<State>, events: seq<Event>) {
    && |run| == |events| + 1 && run[0] == Initial(run[0].session, run[0].bounds)
    && (forall n :: 0 <= n < |events| ==> Next(run[n], events[n], run[n + 1]))
  }

  lemma {:induction false} RunKeeps(run: seq<State>, events: seq<Event>, n: nat)
    requires Run(run, events) && n < |run|
    ensures Inv(run[n])
  {
    if n > 0 {
      RunKeeps(run, events, n - 1);
      assert Next(run[n - 1], events[n - 1], run[n - 1 + 1]);
      StepKeeps(run[n - 1], events[n - 1]);
    }
  }
}
