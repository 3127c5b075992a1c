/** The lock-free "cut" protocol of the change tracker, as interleaved atomic steps.

    Any number of threads write to tracked counters while a single consumer
    alternates Cut and Take.  Every load, store, compare-and-swap and critical
    section of the code that another thread can observe is one step of its own;
    only the order of the steps of one thread is fixed.  Fields marked "history"
    are written and never read by the protocol: they record which write was made
    under which cut number, so that theorems can speak about it.

    Here are the steps, the invariant, and the proof that every step of every thread
    keeps it; what follows for whole runs is in CutTheorems. */
module CutProtocol {

  const SHARDS: nat := 256

  import opened Helpers

  /** Where one call of dirtyState.mark stands. */
  datatype Mark =
    | ReadOwn                // about to load the instance's epoch
    | ReadShard(own: nat)    // has it; about to load the shard's and compare
    | Lock                   // unequal: about to lock the shard and compare again
    | Append                 // has the lock and stored the epoch; about to append and unlock

  /** Where a thread stands: count, the creation of an instance, or neither. */
  datatype Pc =
    | Idle
    | Load
    | Register(c: nat)
    | Validate(c: nat)
    | Undo(c: nat)
    | ReadSince(c: nat)
    | Cas(c: nat, seen: real)
    | Enlist(c: nat, mark: Mark)
    | Leave(c: nat)
    | Create(mark: Mark)

  /** group: the Atomically call the thread is in.  begin and mine are history:
      how many writes were complete when this one began, and its place in the log. */
  datatype Thread = Thread(pc: Pc, inst: nat, shard: nat, v: real, group: Option<nat>, begin: nat, mine: nat)

  datatype Inst = Inst(shard: nat, epoch: nat, even: real, odd: real, atCut: real)

  /** who is the index of the thread holding the mutex, -1 for the consumer. */
  datatype Mutex = Free | Held(who: int, inst: nat)

  datatype Shard = Shard(epoch: nat, dirty: seq<nat>, mutex: Mutex, inEven: int, inOdd: int)

  /** Where the consumer stands in Cut (the first four) or in Take of cut c. */
  datatype Consumer =
    | Resting                             // Take has returned
    | Locked                              // Cut holds the tracker's lock
    | Bumped(c: nat)                      // the cut has moved on; about to unlock
    | Waiting(c: nat, s: nat)             // for shard s to drain
    | Swapping(c: nat, s: nat)            // Take: about to swap shard s's list
    | Folding(c: nat, s: nat, k: nat)     // about to fold taken[k], or to move on to the next shard
    | Checking(c: nat, s: nat, k: nat)    // folded it; about to look at its other side
    | Marking(c: nat, s: nat, k: nat, mark: Mark)
    | Handing(c: nat, s: nat, k: nat)     // about to pass it to fn

  /** History: one completed addition to a side. */
  datatype Write = Write(inst: nat, cut: nat, v: real, begin: nat, group: Option<nat>)

  datatype State = State(
    cut: nat,
    shards: seq<Shard>,
    insts: seq<Inst>,
    threads: seq<Thread>,
    consumer: Consumer,
    taken: seq<nat>,
    // history:
    handed: set<nat>,       // what this Take has passed to fn
    log: seq<Write>,        // every addition made, in order
    complete: seq<nat>,     // the log entries whose write has returned, in order
    groups: seq<nat>        // the cut each Atomically call started under
  )

  // ---------------------------------------------------------------- state access

  /** since[c & 1]. */
  function Since(i: Inst, c: nat): real { if c % 2 == 0 then i.even else i.odd }

  function SetSince(i: Inst, c: nat, v: real): Inst {
    if c % 2 == 0 then i.(even := v) else i.(odd := v)
  }

  /** inflight[c & 1]. */
  function InFlight(s: Shard, c: nat): int { if c % 2 == 0 then s.inEven else s.inOdd }

  function AddInFlight(s: Shard, c: nat, n: int): Shard {
    if c % 2 == 0 then s.(inEven := s.inEven + n) else s.(inOdd := s.inOdd + n)
  }

  function SetPc(s: State, t: nat, pc: Pc): State
    requires t < |s.threads|
  {
    s.(threads := s.threads[t := s.threads[t].(pc := pc)])
  }

  function AddTo(s: State, shard: nat, c: nat, n: int): State
    requires shard < |s.shards|
  {
    s.(shards := s.shards[shard := AddInFlight(s.shards[shard], c, n)])
  }

  /** Every index in the state points somewhere. */
  ghost predicate Shape(s: State) {
    && |s.shards| == SHARDS
    && (forall i :: 0 <= i < |s.insts| ==> s.insts[i].shard < SHARDS)
    && (forall t :: 0 <= t < |s.threads| && !s.threads[t].pc.Idle? ==>
          s.threads[t].inst < |s.insts| && s.threads[t].shard == s.insts[s.threads[t].inst].shard)
    && (forall k :: 0 <= k < |s.taken| ==> s.taken[k] < |s.insts|)
    && (forall k :: 0 <= k < |s.complete| ==> s.complete[k] < |s.log|)
    && (match s.consumer
        case Waiting(_, sh) => sh < SHARDS && s.taken == []
        case Swapping(_, sh) => sh < SHARDS && s.taken == []
        case Folding(_, sh, k) => k <= |s.taken| && sh < SHARDS
        case Checking(_, sh, k) => k < |s.taken| && sh < SHARDS
        case Marking(_, sh, k, _) => k < |s.taken| && sh < SHARDS
        case Handing(_, sh, k) => k < |s.taken| && sh < SHARDS
        case _ => s.taken == [])
  }

  // ---------------------------------------------------------------- the steps

  const CONSUMER := -1

  function Initial(): State {
    State(0, seq(SHARDS, _ => Shard(1, [], Free, 0, 0)), [], [], Resting, [], {}, [], [], [])
  }

  /** One step of mark(i) by who: the state after it, and where mark stands then,
      None when it has returned.  Not enabled while somebody else has the mutex. */
  function MarkStep(s: State, who: int, i: nat, m: Mark): Option<(State, Option<Mark>)>
    requires i < |s.insts| && s.insts[i].shard < |s.shards|
  {
    var sh := s.insts[i].shard;
    match m
    case ReadOwn => Some((s, Some(ReadShard(s.insts[i].epoch))))
    case ReadShard(own) => Some((s, if own == s.shards[sh].epoch then None else Some(Lock)))
    case Lock =>
      if s.shards[sh].mutex != Free then None
      else if s.insts[i].epoch == s.shards[sh].epoch then Some((s, None))
      else Some((s.(insts := s.insts[i := s.insts[i].(epoch := s.shards[sh].epoch)],
                    shards := s.shards[sh := s.shards[sh].(mutex := Held(who, i))]), Some(Append)))
    case Append =>
      Some((s.(shards := s.shards[sh := s.shards[sh].(dirty := s.shards[sh].dirty + [i], mutex := Free)]), None))
  }

  /** The next step of thread t, None when it has none or has to wait. */
  function ThreadStep(s: State, t: nat): Option<State>
    requires t < |s.threads| && Shape(s)
  {
    var w := s.threads[t];
    match w.pc
    case Idle => None
    case Load => Some(SetPc(s, t, Register(s.cut)))
    case Register(c) => Some(SetPc(AddTo(s, w.shard, c, 1), t, Validate(c)))
    case Validate(c) => Some(SetPc(s, t, if s.cut != c then Undo(c) else ReadSince(c)))
    case Undo(c) => Some(SetPc(AddTo(s, w.shard, c, -1), t, Load))
    case ReadSince(c) => Some(SetPc(s, t, Cas(c, Since(s.insts[w.inst], c))))
    case Cas(c, seen) =>
      if Since(s.insts[w.inst], c) != seen then Some(SetPc(s, t, ReadSince(c)))
      else Some(s.(
        insts := s.insts[w.inst := SetSince(s.insts[w.inst], c, seen + w.v)],
        threads := s.threads[t := w.(pc := Enlist(c, ReadOwn), mine := |s.log|)],
        log := s.log + [Write(w.inst, c, w.v, w.begin, w.group)]))
    case Enlist(c, m) =>
      (match MarkStep(s, t, w.inst, m)
       case None => None
       case Some((s', None)) => Some(SetPc(s', t, Leave(c)))
       case Some((s', Some(m'))) => Some(SetPc(s', t, Enlist(c, m'))))
    case Leave(c) =>
      Some(SetPc(AddTo(s, w.shard, c, -1), t, Idle).(complete := s.complete + [w.mine]))
    case Create(m) =>
      (match MarkStep(s, t, w.inst, m)
       case None => None
       case Some((s', None)) => Some(SetPc(s', t, Idle))
       case Some((s', Some(m'))) => Some(SetPc(s', t, Create(m'))))
  }

  /** The next step of the consumer, None while it has to wait. */
  function ConsumerStep(s: State): Option<State>
    requires Shape(s)
  {
    match s.consumer
    case Resting =>   // the exclusive lock waits for every Atomically in progress
      if exists t :: 0 <= t < |s.threads| && s.threads[t].group.Some? then None else Some(s.(consumer := Locked))
    case Locked => Some(s.(cut := s.cut + 1, consumer := Bumped(s.cut)))
    case Bumped(c) => Some(s.(consumer := Waiting(c, 0)))
    case Waiting(c, sh) =>
      if InFlight(s.shards[sh], c) != 0 then None
      else Some(s.(consumer := if sh + 1 < SHARDS then Waiting(c, sh + 1) else Swapping(c, 0), handed := {}))
    case Swapping(c, sh) =>
      if s.shards[sh].mutex != Free then None
      else
        Some(s.(shards := s.shards[sh := s.shards[sh].(dirty := [], epoch := s.shards[sh].epoch + 1)],
                taken := s.shards[sh].dirty, consumer := Folding(c, sh, 0)))
    case Folding(c, sh, k) =>
      if k == |s.taken| then
        Some(s.(taken := [], consumer := if sh + 1 < SHARDS then Swapping(c, sh + 1) else Resting))
      else
      var d := s.insts[s.taken[k]];
      Some(s.(insts := s.insts[s.taken[k] := SetSince(d, c, 0.0).(atCut := d.atCut + Since(d, c))],
              consumer := Checking(c, sh, k)))
    case Checking(c, sh, k) =>
      Some(s.(consumer := if Since(s.insts[s.taken[k]], c + 1) != 0.0 then Marking(c, sh, k, ReadOwn) else Handing(c, sh, k)))
    case Marking(c, sh, k, m) =>
      (match MarkStep(s, CONSUMER, s.taken[k], m)
       case None => None
       case Some((s', None)) => Some(s'.(consumer := Handing(c, sh, k)))
       case Some((s', Some(m'))) => Some(s'.(consumer := Marking(c, sh, k, m'))))
    case Handing(c, sh, k) =>
      Some(s.(handed := s.handed + {s.taken[k]}, consumer := Folding(c, sh, k + 1)))
  }

  datatype Event =
    | Spawn                                  // a new thread, about to do nothing
    | NewInst(t: nat, shard: nat)            // trackMetric: t creates an instance
    | Begin(t: nat, inst: nat, v: real)      // t calls Counter.Add
    | Enter(t: nat)                          // t enters Atomically
    | Exit(t: nat)
    | Step(t: nat)
    | Consume

  /** What the environment may do next; a negative v panics in Add before count. */
  ghost predicate Enabled(s: State, e: Event)
    requires Shape(s)
  {
    match e
    case Spawn => true
    case NewInst(t, shard) => t < |s.threads| && s.threads[t].pc.Idle? && shard < SHARDS
    case Begin(t, inst, v) => t < |s.threads| && s.threads[t].pc.Idle? && inst < |s.insts| && v >= 0.0
    case Enter(t) => t < |s.threads| && s.threads[t].pc.Idle? && s.threads[t].group.None? && !s.consumer.Locked? && !s.consumer.Bumped?
    case Exit(t) => t < |s.threads| && s.threads[t].pc.Idle? && s.threads[t].group.Some?
    case Step(t) => t < |s.threads| && !s.threads[t].pc.Idle? && ThreadStep(s, t).Some?
    case Consume => ConsumerStep(s).Some?
  }

  function Apply(s: State, e: Event): State
    requires Shape(s) && Enabled(s, e)
  {
    match e
    case Spawn => s.(threads := s.threads + [Thread(Idle, 0, 0, 0.0, None, 0, 0)])
    case NewInst(t, shard) =>
      s.(insts := s.insts + [Inst(shard, 0, 0.0, 0.0, 0.0)],
         threads := s.threads[t := s.threads[t].(pc := Create(Lock), inst := |s.insts|, shard := shard)])
    case Begin(t, inst, v) =>
      s.(threads := s.threads[t := s.threads[t].(pc := Load, inst := inst, shard := s.insts[inst].shard, v := v, begin := |s.complete|)])
    case Enter(t) => s.(threads := s.threads[t := s.threads[t].(group := Some(|s.groups|))], groups := s.groups + [s.cut])
    case Exit(t) => s.(threads := s.threads[t := s.threads[t].(group := None)])
    case Step(t) => ThreadStep(s, t).value
    case Consume => ConsumerStep(s).value
  }

  // ---------------------------------------------------------------- what the history says

  /** The sum of the additions made to i under cut number c. */
  function SumAt(log: seq<Write>, i: nat, c: nat): real {
    if log == [] then 0.0
    else
      var e := log[|log| - 1];
      SumAt(log[..|log| - 1], i, c) + if e.inst == i && e.cut == c then e.v else 0.0
  }

  /** The sum of the additions made to i under cut numbers below c. */
  function SumBelow(log: seq<Write>, i: nat, c: nat): real {
    if log == [] then 0.0
    else
      var e := log[|log| - 1];
      SumBelow(log[..|log| - 1], i, c) + if e.inst == i && e.cut < c then e.v else 0.0
  }

  lemma SumSplit(log: seq<Write>, i: nat, c: nat)
    ensures SumBelow(log, i, c + 1) == SumBelow(log, i, c) + SumAt(log, i, c)
  {
    if log != [] { SumSplit(log[..|log| - 1], i, c); }
  }

  lemma SumAppend(log: seq<Write>, e: Write, i: nat, c: nat)
    ensures SumAt(log + [e], i, c) == SumAt(log, i, c) + if e.inst == i && e.cut == c then e.v else 0.0
    ensures SumBelow(log + [e], i, c) == SumBelow(log, i, c) + if e.inst == i && e.cut < c then e.v else 0.0
  {
    assert (log + [e])[..|log|] == log;
  }

  lemma SumNone(log: seq<Write>, i: nat, c: nat)
    ensures (forall e <- log :: e.cut < c) ==> SumAt(log, i, c) == 0.0
    ensures (forall e <- log :: e.inst != i) ==> SumAt(log, i, c) == 0.0 && SumBelow(log, i, c) == 0.0
  {
    if log != [] {
      SumNone(log[..|log| - 1], i, c);
      assert log[|log| - 1] in log;
    }
  }

  // ---------------------------------------------------------------- the invariant

  /** The cut number a registered thread holds. */
  predicate Registered(w: Thread) { w.pc.Validate? || w.pc.Undo? || Validated(w) }

  predicate Validated(w: Thread) { w.pc.ReadSince? || w.pc.Cas? || w.pc.Enlist? || w.pc.Leave? }

  predicate HasCut(w: Thread) { w.pc.Register? || Registered(w) }

  function CutOf(w: Thread): nat
    requires HasCut(w)
  {
    match w.pc
    case Register(c) => c
    case Validate(c) => c
    case Undo(c) => c
    case ReadSince(c) => c
    case Cas(c, _) => c
    case Enlist(c, _) => c
    case Leave(c) => c
  }

  function One(w: Thread, shard: nat, c: nat): nat {
    if Registered(w) && w.shard == shard && CutOf(w) % 2 == c % 2 then 1 else 0
  }

  /** How many threads are registered on shard under a cut of c's parity. */
  function Count(ts: seq<Thread>, shard: nat, c: nat): nat {
    if ts == [] then 0 else Count(ts[..|ts| - 1], shard, c) + One(ts[|ts| - 1], shard, c)
  }

  lemma CountUpdate(ts: seq<Thread>, t: nat, w: Thread, shard: nat, c: nat)
    requires t < |ts|
    ensures Count(ts[t := w], shard, c) == Count(ts, shard, c) - One(ts[t], shard, c) + One(w, shard, c)
  {
    var n := |ts| - 1;
    if t < n {
      assert ts[t := w][..n] == ts[..n][t := w];
      CountUpdate(ts[..n], t, w, shard, c);
    } else {
      assert ts[t := w][..n] == ts[..n];
    }
  }

  lemma CountZero(ts: seq<Thread>, t: nat, shard: nat, c: nat)
    requires t < |ts| && Count(ts, shard, c) == 0
    ensures One(ts[t], shard, c) == 0
  {
    if t < |ts| - 1 {
      assert ts[..|ts| - 1][t] == ts[t];
      CountZero(ts[..|ts| - 1], t, shard, c);
    }
  }

  function MarkOf(p: Pc): Option<Mark> {
    match p
    case Enlist(_, m) => Some(m)
    case Create(m) => Some(m)
    case _ => None
  }

  ghost predicate Taking(c: Consumer) { c.Swapping? || c.Folding? || c.Checking? || c.Marking? || c.Handing? }

  /** The first of the taken instances not yet fully dealt with. */
  function Pending(c: Consumer): nat {
    match c
    case Folding(_, _, k) => k
    case Checking(_, _, k) => k
    case Marking(_, _, k, _) => k
    case Handing(_, _, k) => k + 1
    case _ => 0
  }

  ghost predicate NoDup(q: seq<nat>) { forall a, b :: 0 <= a < b < |q| ==> q[a] != q[b] }

  /** Whoever is inside mark(i) holds what it thinks it holds. */
  ghost predicate MarkOk(s: State, who: int, i: nat, m: Mark)
    requires Shape(s) && i < |s.insts|
  {
    match m
    case ReadShard(own) => own <= s.insts[i].epoch
    case Append => s.shards[s.insts[i].shard].mutex == Held(who, i)
    case _ => true
  }

  /** A validated thread is under the current cut, or under the one being closed
      on a shard Cut has not yet seen drained; one in an Atomically group is under
      the group's cut; and no write that had returned before it began is later. */
  ghost predicate ThreadOk(s: State, t: nat)
    requires Shape(s) && t < |s.threads|
  {
    var w := s.threads[t];
    && (MarkOf(w.pc).Some? ==> MarkOk(s, t, w.inst, MarkOf(w.pc).value))
    && (w.v >= 0.0 || w.pc.Idle? || w.pc.Create?)
    && w.begin <= |s.complete|
    && (HasCut(w) ==>
          && CutOf(w) <= s.cut
          && (forall k :: 0 <= k < w.begin ==> s.log[s.complete[k]].cut <= CutOf(w)))
    && (Validated(w) && CutOf(w) != s.cut ==>
          && CutOf(w) + 1 == s.cut
          && (s.consumer.Bumped? || (s.consumer.Waiting? && s.consumer.s <= w.shard)))
    && (w.group.Some? ==>
          && w.group.value < |s.groups| && s.groups[w.group.value] == s.cut
          && (HasCut(w) ==> CutOf(w) == s.cut)
          && !s.consumer.Locked?)
    && (w.pc.Enlist? || w.pc.Leave? ==> w.mine < |s.log| && s.log[w.mine].cut == CutOf(w))
  }

  /** An instance has its shard's epoch exactly when it waits in the dirty list,
      or whoever has the mutex is about to put it there. */
  ghost predicate Waits(s: State, i: nat)
    requires Shape(s) && i < |s.insts|
  {
    var sh := s.shards[s.insts[i].shard];
    && s.insts[i].epoch <= sh.epoch
    && (s.insts[i].epoch == sh.epoch <==> i in sh.dirty || (sh.mutex.Held? && sh.mutex.inst == i))
  }

  ghost predicate Clean(s: State, sh: nat)
    requires Shape(s) && sh < SHARDS
  {
    var d := s.shards[sh];
    && (forall k :: 0 <= k < |d.dirty| ==> d.dirty[k] < |s.insts| && s.insts[d.dirty[k]].shard == sh)
    && NoDup(d.dirty) && d.epoch >= 1
    && (d.mutex.Held? ==> d.mutex.inst !in d.dirty && d.mutex.inst < |s.insts| && s.insts[d.mutex.inst].shard == sh)
  }

  /** The epochs, the dirty lists and the mutex of each shard agree. */
  ghost predicate Listed(s: State)
    requires Shape(s)
  {
    && (forall i :: 0 <= i < |s.insts| ==> Waits(s, i))
    && (forall sh :: 0 <= sh < SHARDS ==> Clean(s, sh))
  }

  ghost predicate Counted(s: State)
    requires Shape(s)
  {
    forall sh, c: nat :: 0 <= sh < SHARDS ==> InFlight(s.shards[sh], c) == Count(s.threads, sh, c)
  }

  /** The sides and the value as of the cut hold exactly the additions made. */
  ghost predicate Accounted(s: State, i: nat)
    requires i < |s.insts|
  {
    var d := s.insts[i];
    && Since(d, s.cut) == SumAt(s.log, i, s.cut)
    && d.atCut + Since(d, s.cut + 1) == SumBelow(s.log, i, s.cut)
    && d.even >= 0.0 && d.odd >= 0.0
  }

  /** i is still to be dealt with by the Take in progress. */
  ghost predicate Remaining(s: State, i: nat) {
    exists k :: Pending(s.consumer) <= k < |s.taken| && s.taken[k] == i
  }

  ghost predicate InHand(s: State, i: nat)
    requires Shape(s)
  {
    (s.consumer.Checking? || s.consumer.Marking? || s.consumer.Handing?) && i == s.taken[s.consumer.k]
  }

  /** How far Take has got: the side of the closed cut is empty behind it, and what
      it emptied is with fn, or about to be. */
  ghost predicate Closing(s: State, i: nat)
    requires Shape(s) && i < |s.insts|
  {
    var closed := Since(s.insts[i], s.cut + 1);
    && (s.consumer.Resting? || s.consumer.Locked? ==>
          closed == 0.0 && (s.cut > 0 ==> i in s.handed || SumAt(s.log, i, s.cut - 1) == 0.0))
    && (Taking(s.consumer) && s.insts[i].shard < s.consumer.s ==> closed == 0.0)
    && (Taking(s.consumer) && s.insts[i].shard == s.consumer.s && !s.consumer.Swapping? ==> closed == 0.0 || Remaining(s, i))
    && (InHand(s, i) ==> closed == 0.0)
    && (s.consumer.Bumped? || s.consumer.Waiting? || Taking(s.consumer) ==>
          (Taking(s.consumer) && i in s.handed) || InHand(s, i) || closed == SumAt(s.log, i, s.consumer.c))
  }

  /** Somebody will still see to it that i's side c is enlisted, or it is. */
  ghost predicate Excused(s: State, i: nat, c: nat)
    requires Shape(s) && i < |s.insts|
  {
    || s.insts[i].epoch == s.shards[s.insts[i].shard].epoch
    || (exists t :: 0 <= t < |s.threads| && s.threads[t].pc.Enlist? && s.threads[t].inst == i && s.threads[t].pc.c % 2 == c % 2)
    || Remaining(s, i)
  }

  ghost predicate Enlisted(s: State)
    requires Shape(s)
  {
    forall i, c: nat :: 0 <= i < |s.insts| && Since(s.insts[i], c) > 0.0 ==> Excused(s, i, c)
  }

  ghost predicate EntryOk(s: State, e: Write)
    requires forall k :: 0 <= k < |s.complete| ==> s.complete[k] < |s.log|
  {
    && e.cut <= s.cut && e.inst < |s.insts| && e.v >= 0.0
    && (e.group.Some? ==> e.group.value < |s.groups| && e.cut == s.groups[e.group.value])
    && e.begin <= |s.complete|
    && (forall k :: 0 <= k < e.begin ==> s.log[s.complete[k]].cut <= e.cut)
  }

  ghost predicate ConsumerOk(s: State)
    requires Shape(s)
  {
    && (s.consumer.Resting? || s.consumer.Locked? || s.cut == s.consumer.c + 1)
    && (Taking(s.consumer) && !s.consumer.Swapping? ==>
          NoDup(s.taken) && forall k :: 0 <= k < |s.taken| ==> s.insts[s.taken[k]].shard == s.consumer.s)
  }

  ghost predicate Balanced(s: State)
    requires Shape(s)
  {
    forall i :: 0 <= i < |s.insts| ==> Accounted(s, i) && Closing(s, i)
  }

  /** The invariant, but for what the thread who, or the consumer, holds. */
  ghost predicate InvBut(s: State, who: int) {
    && Shape(s) && Counted(s) && Listed(s) && Enlisted(s) && ConsumerOk(s)
    && (s.consumer.Marking? && who != CONSUMER ==> MarkOk(s, CONSUMER, s.taken[s.consumer.k], s.consumer.mark))
    && (forall t :: 0 <= t < |s.threads| && t != who ==> ThreadOk(s, t))
    && Balanced(s)
    && (forall k :: 0 <= k < |s.log| ==> EntryOk(s, s.log[k]))
  }

  ghost predicate Inv(s: State) {
    && InvBut(s, CONSUMER)
    && (s.consumer.Marking? ==> MarkOk(s, CONSUMER, s.taken[s.consumer.k], s.consumer.mark))
  }

  lemma InitialInv()
    ensures Inv(Initial())
  {
  }

  // ---------------------------------------------------------------- frames

  /** The listing of s' is that of s, on the same instances or more of them. */
  ghost predicate SameListing(s: State, s': State)
    requires Shape(s) && Shape(s')
  {
    && |s'.insts| == |s.insts|
    && (forall i :: 0 <= i < |s.insts| ==> s'.insts[i].epoch == s.insts[i].epoch && s'.insts[i].shard == s.insts[i].shard)
    && (forall sh :: 0 <= sh < SHARDS ==>
          && s'.shards[sh].epoch == s.shards[sh].epoch && s'.shards[sh].dirty == s.shards[sh].dirty
          && s'.shards[sh].mutex == s.shards[sh].mutex)
  }

  lemma FrameListed(s: State, s': State)
    requires Shape(s) && Shape(s') && Listed(s) && SameListing(s, s')
    ensures Listed(s')
  {
    forall j | 0 <= j < |s'.insts| ensures Waits(s', j) { assert Waits(s, j); }
    forall h | 0 <= h < SHARDS ensures Clean(s', h) { assert Clean(s, h); }
  }

  /** Every thread enlisting something in s still is in s'. */
  ghost predicate SameEnlisting(s: State, s': State) {
    && |s.threads| <= |s'.threads|
    && (forall u :: 0 <= u < |s.threads| && s.threads[u].pc.Enlist? ==>
          && s'.threads[u].pc.Enlist? && s'.threads[u].pc.c == s.threads[u].pc.c && s'.threads[u].inst == s.threads[u].inst)
  }

  lemma FrameExcused(s: State, s': State, i: nat, c: nat)
    requires Shape(s) && Shape(s') && i < |s.insts| && i < |s'.insts| && Excused(s, i, c) && SameEnlisting(s, s')
    requires s.insts[i].epoch == s.shards[s.insts[i].shard].epoch ==> s'.insts[i].epoch == s'.shards[s'.insts[i].shard].epoch
    requires Remaining(s, i) ==> Remaining(s', i)
    ensures Excused(s', i, c)
  {
  }

  /** Nothing Take or the accounts look at has changed. */
  ghost predicate SameAccounts(s: State, s': State) {
    && s'.insts == s.insts && s'.log == s.log && s'.cut == s.cut
    && s'.consumer == s.consumer && s'.taken == s.taken && s'.handed == s.handed
  }

  lemma FrameAccounts(s: State, s': State)
    requires Shape(s) && Shape(s') && SameAccounts(s, s') && SameListing(s, s') && SameEnlisting(s, s')
    requires Balanced(s) && Enlisted(s) && Listed(s)
    ensures Balanced(s') && Enlisted(s') && Listed(s')
  {
    forall i | 0 <= i < |s'.insts| ensures Accounted(s', i) && Closing(s', i) {
      assert Accounted(s, i) && Closing(s, i);
      assert Remaining(s, i) ==> Remaining(s', i);
    }
    forall i, c: nat | 0 <= i < |s'.insts| && Since(s'.insts[i], c) > 0.0 ensures Excused(s', i, c) {
      assert Excused(s, i, c);
      assert Remaining(s, i) ==> Remaining(s', i);
    }
    FrameListed(s, s');
  }

  // ---------------------------------------------------------------- steps of mark

  /** What a step of mark changes: one epoch, one mutex, one dirty list. */
  ghost predicate OnlyListing(s: State, s': State, i: nat)
    requires Shape(s) && i < |s.insts|
  {
    var sh := s.insts[i].shard;
    && |s'.insts| == |s.insts| && |s'.shards| == |s.shards|
    && s' == s.(insts := s'.insts, shards := s'.shards)
    && s'.insts == s.insts[i := s.insts[i].(epoch := s'.insts[i].epoch)]
    && s'.shards == s.shards[sh := s.shards[sh].(dirty := s'.shards[sh].dirty, mutex := s'.shards[sh].mutex)]
  }

  lemma MarkListed(s: State, who: int, i: nat, m: Mark)
    requires Shape(s) && Listed(s) && i < |s.insts| && MarkOk(s, who, i, m) && MarkStep(s, who, i, m).Some?
    ensures var (s', m') := MarkStep(s, who, i, m).value;
      && OnlyListing(s, s', i) && Shape(s') && Listed(s')
  {
    var (s', m') := MarkStep(s, who, i, m).value;
    var sh := s.insts[i].shard;
    if m.Lock? && m' != None {
      assert Waits(s, i) && Clean(s, sh);
      forall j | 0 <= j < |s'.insts| ensures Waits(s', j) { assert Waits(s, j); }
      forall h | 0 <= h < SHARDS ensures Clean(s', h) { assert Clean(s, h); }
    } else if m.Append? {
      assert Waits(s, i) && Clean(s, sh);
      forall j | 0 <= j < |s'.insts| ensures Waits(s', j) { assert Waits(s, j); }
      forall h | 0 <= h < SHARDS ensures Clean(s', h) { assert Clean(s, h); }
    }
  }

  lemma MarkProgress(s: State, who: int, i: nat, m: Mark)
    requires Shape(s) && Listed(s) && i < |s.insts| && MarkOk(s, who, i, m) && MarkStep(s, who, i, m).Some?
    ensures var (s', m') := MarkStep(s, who, i, m).value;
      && OnlyListing(s, s', i) && Shape(s')
      && (m' == None ==> s'.insts[i].epoch == s'.shards[s'.insts[i].shard].epoch)
      && (m'.Some? ==> MarkOk(s', who, i, m'.value))
      && (forall w: int, j: nat, n: Mark :: w != who && j < |s.insts| && MarkOk(s, w, j, n) ==> MarkOk(s', w, j, n))
      && (forall j :: 0 <= j < |s.insts| && s.insts[j].epoch == s.shards[s.insts[j].shard].epoch ==>
            s'.insts[j].epoch == s'.shards[s'.insts[j].shard].epoch)
  {
    assert Waits(s, i);
    MarkListed(s, who, i, m);
  }

  // ---------------------------------------------------------------- steps of a thread

  /** s' is s after t moved on, registering or deregistering as its counter says. */
  ghost predicate Moved(s: State, s': State, t: nat)
    requires Shape(s) && t < |s.threads|
  {
    && |s'.threads| == |s.threads| && |s'.shards| == SHARDS
    && s' == s.(threads := s.threads[t := s'.threads[t]], shards := s'.shards)
    && s'.threads[t].inst == s.threads[t].inst && s'.threads[t].shard == s.threads[t].shard
    && (s'.threads[t].pc.Idle? || !s.threads[t].pc.Idle?)
    && (forall sh :: 0 <= sh < SHARDS ==>
          && s'.shards[sh].epoch == s.shards[sh].epoch && s'.shards[sh].dirty == s.shards[sh].dirty
          && s'.shards[sh].mutex == s.shards[sh].mutex)
    && (forall sh, c: nat :: 0 <= sh < SHARDS ==>
          InFlight(s'.shards[sh], c) == InFlight(s.shards[sh], c) - One(s.threads[t], sh, c) + One(s'.threads[t], sh, c))
  }

  lemma MovedEnlisted(s: State, s': State, t: nat)
    requires Shape(s) && t < |s.threads| && Moved(s, s', t) && Shape(s') && Enlisted(s)
    requires s.threads[t].pc.Enlist? ==>
      || (s'.threads[t].pc.Enlist? && s'.threads[t].pc.c == s.threads[t].pc.c)
      || s.insts[s.threads[t].inst].epoch == s.shards[s.threads[t].shard].epoch
    ensures Enlisted(s')
  {
    forall i, c: nat | 0 <= i < |s'.insts| && Since(s'.insts[i], c) > 0.0 ensures Excused(s', i, c) {
      assert Excused(s, i, c);
      if Remaining(s, i) {
        assert Remaining(s', i);
      } else if u :| 0 <= u < |s.threads| && s.threads[u].pc.Enlist? && s.threads[u].inst == i && s.threads[u].pc.c % 2 == c % 2 {
        assert u != t ==> s'.threads[u] == s.threads[u];
      }
    }
  }

  lemma MovedCounted(s: State, s': State, t: nat)
    requires Shape(s) && t < |s.threads| && Moved(s, s', t) && Shape(s') && Counted(s)
    ensures Counted(s')
  {
    forall sh, c: nat | 0 <= sh < SHARDS ensures InFlight(s'.shards[sh], c) == Count(s'.threads, sh, c) {
      CountUpdate(s.threads, t, s'.threads[t], sh, c);
    }
  }

  lemma MovedBalanced(s: State, s': State, t: nat)
    requires Shape(s) && t < |s.threads| && Moved(s, s', t) && Shape(s') && Balanced(s) && Listed(s)
    ensures Balanced(s') && Listed(s')
  {
    FrameListed(s, s');
    forall i | 0 <= i < |s'.insts| ensures Accounted(s', i) && Closing(s', i) { assert Accounted(s, i) && Closing(s, i); }
  }

  lemma MovedKeeps(s: State, s': State, t: nat)
    requires InvBut(s, t) && t < |s.threads| && Moved(s, s', t)
    requires Shape(s') && ThreadOk(s', t)
    requires s.threads[t].pc.Enlist? ==>
      || (s'.threads[t].pc.Enlist? && s'.threads[t].pc.c == s.threads[t].pc.c)
      || s.insts[s.threads[t].inst].epoch == s.shards[s.threads[t].shard].epoch
    ensures Inv(s')
  {
    MovedCounted(s, s', t);
    MovedBalanced(s, s', t);
    MovedEnlisted(s, s', t);
    forall u | 0 <= u < |s'.threads| ensures ThreadOk(s', u) { if u != t { assert ThreadOk(s, u); } }
    forall k | 0 <= k < |s'.log| ensures EntryOk(s', s'.log[k]) { assert EntryOk(s, s.log[k]); }
  }

  ghost predicate Plain(pc: Pc) { pc.Load? || pc.Register? || pc.Validate? || pc.Undo? || pc.ReadSince? }

  lemma PlainMoves(s: State, t: nat)
    requires Shape(s) && t < |s.threads| && Plain(s.threads[t].pc)
    ensures var s' := ThreadStep(s, t).value; Moved(s, s', t) && Shape(s')
  {
    var s' := ThreadStep(s, t).value;
    forall sh, c: nat | 0 <= sh < SHARDS
      ensures InFlight(s'.shards[sh], c) == InFlight(s.shards[sh], c) - One(s.threads[t], sh, c) + One(s'.threads[t], sh, c)
    {
    }
  }

  lemma PlainThread(s: State, t: nat)
    requires Shape(s) && t < |s.threads| && Plain(s.threads[t].pc) && ThreadOk(s, t)
    requires forall k :: 0 <= k < |s.complete| ==> s.log[s.complete[k]].cut <= s.cut
    ensures var s' := ThreadStep(s, t).value; Moved(s, s', t) && Shape(s') && ThreadOk(s', t)
  {
    PlainMoves(s, t);
  }

  lemma PlainKeeps(s: State, t: nat)
    requires Inv(s) && t < |s.threads| && Plain(s.threads[t].pc)
    ensures Inv(ThreadStep(s, t).value)
  {
    forall k | 0 <= k < |s.complete| ensures s.log[s.complete[k]].cut <= s.cut { assert EntryOk(s, s.log[s.complete[k]]); }
    assert ThreadOk(s, t);
    PlainThread(s, t);
    MovedKeeps(s, ThreadStep(s, t).value, t);
  }

  lemma OtherExcused(s: State, s': State, i: nat, j: nat, c: nat)
    requires Shape(s) && i < |s.insts| && OnlyListing(s, s', i) && Shape(s') && j < |s.insts| && Excused(s, j, c)
    requires s.insts[j].epoch == s.shards[s.insts[j].shard].epoch ==> s'.insts[j].epoch == s'.shards[s'.insts[j].shard].epoch
    ensures Excused(s', j, c)
  {
    if Remaining(s, j) {
      assert Remaining(s', j);
    }
  }

  /** A step of mark keeps everything but what its caller holds. */
  lemma MarkKeeps(s: State, who: int, i: nat, m: Mark)
    requires Inv(s) && i < |s.insts| && MarkOk(s, who, i, m) && MarkStep(s, who, i, m).Some?
    ensures InvBut(MarkStep(s, who, i, m).value.0, who)
  {
    var s' := MarkStep(s, who, i, m).value.0;
    MarkListed(s, who, i, m);
    MarkProgress(s, who, i, m);
    forall u | 0 <= u < |s'.threads| && u != who ensures ThreadOk(s', u) { assert ThreadOk(s, u); }
    forall j | 0 <= j < |s'.insts| ensures Accounted(s', j) && Closing(s', j) { assert Accounted(s, j) && Closing(s, j); }
    forall k | 0 <= k < |s'.log| ensures EntryOk(s', s'.log[k]) { assert EntryOk(s, s.log[k]); }
    forall j, c: nat | 0 <= j < |s'.insts| && Since(s'.insts[j], c) > 0.0 ensures Excused(s', j, c) {
      OtherExcused(s, s', i, j, c);
    }
  }

  /** t moves on without registering or deregistering. */
  lemma PcMoves(s: State, t: nat, pc: Pc)
    requires Shape(s) && t < |s.threads| && !s.threads[t].pc.Idle?
    requires var w := s.threads[t];
      var w' := w.(pc := pc);
      (Registered(w') <==> Registered(w)) && (Registered(w) ==> CutOf(w') == CutOf(w))
    ensures Moved(s, SetPc(s, t, pc), t) && Shape(SetPc(s, t, pc))
  {
  }

  lemma ThreadMarkIs(s: State, t: nat)
    requires Shape(s) && t < |s.threads| && (s.threads[t].pc.Enlist? || s.threads[t].pc.Create?) && ThreadStep(s, t).Some?
    ensures var w := s.threads[t]; var m := MarkOf(w.pc).value;
      && MarkStep(s, t, w.inst, m).Some?
      && var s' := ThreadStep(s, t).value;
         var next := MarkStep(s, t, w.inst, m).value.1;
         && t < |s'.threads| && s' == SetPc(MarkStep(s, t, w.inst, m).value.0, t, s'.threads[t].pc)
         && MarkOf(s'.threads[t].pc) == next
         && (w.pc.Enlist? ==> (s'.threads[t].pc.Enlist? || s'.threads[t].pc.Leave?) && s'.threads[t].pc.c == w.pc.c)
         && (w.pc.Create? ==> s'.threads[t].pc.Create? || s'.threads[t].pc.Idle?)
  {
  }

  lemma ThreadMarkKeeps(s: State, t: nat)
    requires Inv(s) && t < |s.threads| && (s.threads[t].pc.Enlist? || s.threads[t].pc.Create?) && ThreadStep(s, t).Some?
    ensures Inv(ThreadStep(s, t).value)
  {
    var w := s.threads[t];
    var m := MarkOf(w.pc).value;
    assert ThreadOk(s, t);
    ThreadMarkIs(s, t);
    MarkKeeps(s, t, w.inst, m);
    MarkProgress(s, t, w.inst, m);
    var s1 := MarkStep(s, t, w.inst, m).value.0;
    var s' := ThreadStep(s, t).value;
    PcMoves(s1, t, s'.threads[t].pc);
    assert ThreadOk(s', t) by { MarkedOk(s, s1, t, s'.threads[t].pc); }
    MovedKeeps(s1, s', t);
  }

  lemma MarkedOk(s: State, s1: State, t: nat, pc: Pc)
    requires Shape(s) && t < |s.threads| && ThreadOk(s, t) && (s.threads[t].pc.Enlist? || s.threads[t].pc.Create?)
    requires OnlyListing(s, s1, s.threads[t].inst) && Shape(s1)
    requires MarkOf(pc).Some? ==> MarkOk(s1, t, s.threads[t].inst, MarkOf(pc).value)
    requires s.threads[t].pc.Enlist? ==> (pc.Enlist? || pc.Leave?) && pc.c == s.threads[t].pc.c
    requires s.threads[t].pc.Create? ==> pc.Create? || pc.Idle?
    ensures var s' := SetPc(s1, t, pc); Shape(s') && ThreadOk(s', t)
  {
  }

  /** One more write has returned. */
  lemma CompleteKeeps(s: State, mine: nat)
    requires Inv(s) && mine < |s.log|
    ensures Inv(s.(complete := s.complete + [mine]))
  {
    var s' := s.(complete := s.complete + [mine]);
    FrameAccounts(s, s');
    forall u | 0 <= u < |s'.threads| ensures ThreadOk(s', u) { assert ThreadOk(s, u); }
    forall k | 0 <= k < |s'.log| ensures EntryOk(s', s'.log[k]) { assert EntryOk(s, s.log[k]); }
  }

  lemma LeaveMoves(s: State, t: nat)
    requires Shape(s) && t < |s.threads| && s.threads[t].pc.Leave?
    ensures var w := s.threads[t];
      var s1 := SetPc(AddTo(s, w.shard, w.pc.c, -1), t, Idle); Moved(s, s1, t) && Shape(s1)
  {
    var w := s.threads[t];
    var s1 := SetPc(AddTo(s, w.shard, w.pc.c, -1), t, Idle);
    forall sh, c: nat | 0 <= sh < SHARDS
      ensures InFlight(s1.shards[sh], c) == InFlight(s.shards[sh], c) - One(s.threads[t], sh, c) + One(s1.threads[t], sh, c)
    {
    }
  }

  lemma LeaveKeeps(s: State, t: nat)
    requires Inv(s) && t < |s.threads| && s.threads[t].pc.Leave?
    ensures Inv(ThreadStep(s, t).value)
  {
    var w := s.threads[t];
    var s1 := SetPc(AddTo(s, w.shard, w.pc.c, -1), t, Idle);
    assert ThreadOk(s, t);
    LeaveMoves(s, t);
    MovedKeeps(s, s1, t);
    CompleteKeeps(s1, w.mine);
  }

  lemma RetryKeeps(s: State, t: nat)
    requires Inv(s) && t < |s.threads| && s.threads[t].pc.Cas?
    requires Since(s.insts[s.threads[t].inst], s.threads[t].pc.c) != s.threads[t].pc.seen
    ensures Inv(ThreadStep(s, t).value)
  {
    assert ThreadOk(s, t);
    PcMoves(s, t, ReadSince(s.threads[t].pc.c));
    MovedKeeps(s, ThreadStep(s, t).value, t);
  }

  lemma AddAccounts(s: State, t: nat, i: nat)
    requires Shape(s) && t < |s.threads| && s.threads[t].pc.Cas? && i < |s.insts|
    requires Since(s.insts[s.threads[t].inst], s.threads[t].pc.c) == s.threads[t].pc.seen
    requires ThreadOk(s, t) && Accounted(s, i)
    ensures var s' := ThreadStep(s, t).value; Accounted(s', i)
  {
    var w := s.threads[t];
    SumAppend(s.log, Write(w.inst, w.pc.c, w.v, w.begin, w.group), i, s.cut);
  }

  lemma AddCloses(s: State, t: nat, i: nat)
    requires Shape(s) && t < |s.threads| && s.threads[t].pc.Cas? && i < |s.insts| && ConsumerOk(s)
    requires Since(s.insts[s.threads[t].inst], s.threads[t].pc.c) == s.threads[t].pc.seen
    requires ThreadOk(s, t) && Closing(s, i) && Shape(ThreadStep(s, t).value)
    ensures Closing(ThreadStep(s, t).value, i)
  {
    var w := s.threads[t];
    var s' := ThreadStep(s, t).value;
    if !s.consumer.Resting? && !s.consumer.Locked? {
      SumAppend(s.log, Write(w.inst, w.pc.c, w.v, w.begin, w.group), i, s.consumer.c);
    }
    assert Remaining(s, i) ==> Remaining(s', i);
    assert s'.insts[i].shard == s.insts[i].shard;
    if i == w.inst && w.pc.c == s.cut {
      assert Since(s'.insts[i], s.cut + 1) == Since(s.insts[i], s.cut + 1);
    }
  }

  lemma AddExcuses(s: State, t: nat, i: nat, c: nat)
    requires Inv(s) && t < |s.threads| && s.threads[t].pc.Cas? && i < |s.insts|
    requires Since(s.insts[s.threads[t].inst], s.threads[t].pc.c) == s.threads[t].pc.seen
    requires Since(ThreadStep(s, t).value.insts[i], c) > 0.0
    ensures Excused(ThreadStep(s, t).value, i, c)
  {
    var s' := ThreadStep(s, t).value;
    var w := s.threads[t];
    if i == w.inst && c % 2 == w.pc.c % 2 {
      assert s'.threads[t].pc.Enlist?;
    } else {
      assert Excused(s, i, c);
      assert Remaining(s, i) ==> Remaining(s', i);
      FrameExcused(s, s', i, c);
    }
  }

  lemma AddListed(s: State, t: nat)
    requires Shape(s) && Listed(s) && Counted(s) && t < |s.threads| && s.threads[t].pc.Cas?
    requires Since(s.insts[s.threads[t].inst], s.threads[t].pc.c) == s.threads[t].pc.seen
    ensures var s' := ThreadStep(s, t).value; Shape(s') && Listed(s') && Counted(s')
  {
    var s' := ThreadStep(s, t).value;
    forall sh, c: nat | 0 <= sh < SHARDS ensures InFlight(s'.shards[sh], c) == Count(s'.threads, sh, c) {
      CountUpdate(s.threads, t, s'.threads[t], sh, c);
    }
    FrameListed(s, s');
  }

  lemma AddThread(s: State, t: nat, u: nat)
    requires Shape(s) && t < |s.threads| && u < |s.threads| && ThreadOk(s, u) && s.threads[t].pc.Cas?
    requires Since(s.insts[s.threads[t].inst], s.threads[t].pc.c) == s.threads[t].pc.seen
    ensures var s' := ThreadStep(s, t).value; Shape(s') && ThreadOk(s', u)
  {
  }

  lemma AddKeeps(s: State, t: nat)
    requires Inv(s) && t < |s.threads| && s.threads[t].pc.Cas?
    requires Since(s.insts[s.threads[t].inst], s.threads[t].pc.c) == s.threads[t].pc.seen
    ensures Inv(ThreadStep(s, t).value)
  {
    var s' := ThreadStep(s, t).value;
    assert ThreadOk(s, t);
    AddListed(s, t);
    forall u | 0 <= u < |s'.threads| ensures ThreadOk(s', u) { assert ThreadOk(s, u); AddThread(s, t, u); }
    forall i | 0 <= i < |s'.insts| ensures Accounted(s', i) && Closing(s', i) {
      assert Accounted(s, i) && Closing(s, i);
      AddAccounts(s, t, i);
      AddCloses(s, t, i);
    }
    forall k | 0 <= k < |s'.log| ensures EntryOk(s', s'.log[k]) { if k < |s.log| { assert EntryOk(s, s.log[k]); } }
    forall i, c: nat | 0 <= i < |s'.insts| && Since(s'.insts[i], c) > 0.0 ensures Excused(s', i, c) { AddExcuses(s, t, i, c); }
  }

  lemma ThreadKeeps(s: State, t: nat)
    requires Inv(s) && t < |s.threads| && ThreadStep(s, t).Some?
    ensures Inv(ThreadStep(s, t).value)
  {
    var w := s.threads[t];
    if Plain(w.pc) {
      PlainKeeps(s, t);
    } else if w.pc.Cas? {
      if Since(s.insts[w.inst], w.pc.c) != w.pc.seen { RetryKeeps(s, t); } else { AddKeeps(s, t); }
    } else if w.pc.Leave? {
      LeaveKeeps(s, t);
    } else {
      ThreadMarkKeeps(s, t);
    }
  }

  // ---------------------------------------------------------------- what the environment does

  lemma NewInstListed(s: State, t: nat, shard: nat)
    requires Inv(s) && Enabled(s, NewInst(t, shard))
    ensures var s' := Apply(s, NewInst(t, shard)); Shape(s') && Listed(s') && Counted(s')
  {
    var s' := Apply(s, NewInst(t, shard));
    forall sh, c: nat | 0 <= sh < SHARDS ensures InFlight(s'.shards[sh], c) == Count(s'.threads, sh, c) {
      CountUpdate(s.threads, t, s'.threads[t], sh, c);
    }
    forall h | 0 <= h < SHARDS ensures Clean(s', h) { assert Clean(s, h); }
    assert Clean(s, shard);
    forall j | 0 <= j < |s'.insts| ensures Waits(s', j) { if j < |s.insts| { assert Waits(s, j); } }
  }

  /** A new instance starts with nothing written to it. */
  lemma NewInstBalanced(s: State, t: nat, shard: nat, i: nat)
    requires Inv(s) && Enabled(s, NewInst(t, shard)) && i <= |s.insts|
    ensures var s' := Apply(s, NewInst(t, shard)); Shape(s') && Accounted(s', i) && Closing(s', i)
  {
    var s' := Apply(s, NewInst(t, shard));
    if i < |s.insts| {
      assert Accounted(s, i) && Closing(s, i);
      assert Remaining(s, i) ==> Remaining(s', i);
    } else {
      forall e <- s.log ensures e.inst != i { var k :| 0 <= k < |s.log| && s.log[k] == e; assert EntryOk(s, s.log[k]); }
      SumNone(s.log, i, s.cut);
      SumNone(s.log, i, if s.cut > 0 then s.cut - 1 else 0);
    }
  }

  lemma NewInstKeeps(s: State, t: nat, shard: nat)
    requires Inv(s) && Enabled(s, NewInst(t, shard))
    ensures Inv(Apply(s, NewInst(t, shard)))
  {
    var s' := Apply(s, NewInst(t, shard));
    NewInstListed(s, t, shard);
    forall u | 0 <= u < |s'.threads| ensures ThreadOk(s', u) { assert ThreadOk(s, u); }
    forall k | 0 <= k < |s'.log| ensures EntryOk(s', s'.log[k]) { assert EntryOk(s, s.log[k]); }
    forall i | 0 <= i < |s'.insts| ensures Accounted(s', i) && Closing(s', i) { NewInstBalanced(s, t, shard, i); }
    forall i, c: nat | 0 <= i < |s'.insts| && Since(s'.insts[i], c) > 0.0 ensures Excused(s', i, c) {
      assert Excused(s, i, c);
      assert Remaining(s, i) ==> Remaining(s', i);
      FrameExcused(s, s', i, c);
    }
  }

  /** An event that only touches an idle thread's own fields. */
  lemma IdleKeeps(s: State, s': State, t: nat)
    requires Inv(s) && t < |s.threads| && s.threads[t].pc.Idle?
    requires |s'.threads| == |s.threads| && s' == s.(threads := s.threads[t := s'.threads[t]], groups := s'.groups)
    requires s.groups <= s'.groups && !Registered(s'.threads[t])
    requires Shape(s') && ThreadOk(s', t)
    ensures Inv(s')
  {
    forall sh, c: nat | 0 <= sh < SHARDS ensures InFlight(s'.shards[sh], c) == Count(s'.threads, sh, c) {
      CountUpdate(s.threads, t, s'.threads[t], sh, c);
    }
    FrameAccounts(s, s');
    forall u | 0 <= u < |s'.threads| ensures ThreadOk(s', u) { if u != t { assert ThreadOk(s, u); } }
    forall k | 0 <= k < |s'.log| ensures EntryOk(s', s'.log[k]) { assert EntryOk(s, s.log[k]); }
  }

  lemma SpawnKeeps(s: State)
    requires Inv(s)
    ensures Inv(Apply(s, Spawn))
  {
    var s' := Apply(s, Spawn);
    assert s'.threads[..|s.threads|] == s.threads;
    FrameAccounts(s, s');
    forall u | 0 <= u < |s'.threads| ensures ThreadOk(s', u) { if u < |s.threads| { assert ThreadOk(s, u); } }
    forall k | 0 <= k < |s'.log| ensures EntryOk(s', s'.log[k]) { assert EntryOk(s, s.log[k]); }
  }

  lemma EnvironmentKeeps(s: State, e: Event)
    requires Inv(s) && Enabled(s, e) && (e.Begin? || e.Enter? || e.Exit?)
    ensures Inv(Apply(s, e))
  {
    assert ThreadOk(s, e.t);
    IdleKeeps(s, Apply(s, e), e.t);
  }

  // ---------------------------------------------------------------- steps of the consumer

  /** A step that only moves the consumer on. */
  lemma ConsumerMoves(s: State, s': State)
    requires InvBut(s, CONSUMER) && s' == s.(consumer := s'.consumer, handed := s'.handed)
    requires Shape(s') && ConsumerOk(s') && !s.consumer.Locked? && !s'.consumer.Bumped?
    requires s'.consumer.Marking? ==> MarkOk(s', CONSUMER, s'.taken[s'.consumer.k], s'.consumer.mark)
    requires s'.consumer.Locked? ==> forall t :: 0 <= t < |s.threads| ==> s.threads[t].group.None?
    requires forall t :: 0 <= t < |s.threads| && Validated(s.threads[t]) && CutOf(s.threads[t]) != s.cut ==>
      s'.consumer.Waiting? && s'.consumer.s <= s.threads[t].shard
    requires forall i :: 0 <= i < |s.insts| ==> Closing(s', i)
    requires forall i, c: nat :: 0 <= i < |s.insts| && Remaining(s, i) && Since(s.insts[i], c) > 0.0 ==> Excused(s', i, c)
    ensures Inv(s')
  {
    FrameListed(s, s');
    forall u | 0 <= u < |s'.threads| ensures ThreadOk(s', u) { assert ThreadOk(s, u); }
    forall i | 0 <= i < |s'.insts| ensures Accounted(s', i) { assert Accounted(s, i); }
    forall k | 0 <= k < |s'.log| ensures EntryOk(s', s'.log[k]) { assert EntryOk(s, s.log[k]); }
    forall i, c: nat | 0 <= i < |s'.insts| && Since(s'.insts[i], c) > 0.0 ensures Excused(s', i, c) { assert Excused(s, i, c); }
  }

  lemma LockKeeps(s: State)
    requires Inv(s) && s.consumer.Resting? && ConsumerStep(s).Some?
    ensures Inv(ConsumerStep(s).value)
  {
    var s' := ConsumerStep(s).value;
    forall i | 0 <= i < |s.insts| ensures Closing(s', i) { assert Closing(s, i); }
    forall t | 0 <= t < |s.threads| && Validated(s.threads[t]) ensures CutOf(s.threads[t]) == s.cut { assert ThreadOk(s, t); }
    ConsumerMoves(s, s');
  }

  lemma UnlockKeeps(s: State)
    requires Inv(s) && s.consumer.Bumped?
    ensures Inv(ConsumerStep(s).value)
  {
    var s' := ConsumerStep(s).value;
    forall i | 0 <= i < |s.insts| ensures Closing(s', i) { assert Closing(s, i); }
    ConsumerMoves(s, s');
  }

  lemma WaitKeeps(s: State)
    requires Inv(s) && s.consumer.Waiting? && ConsumerStep(s).Some?
    ensures Inv(ConsumerStep(s).value)
  {
    var s' := ConsumerStep(s).value;
    forall i | 0 <= i < |s.insts| ensures Closing(s', i) { assert Closing(s, i); }
    forall t | 0 <= t < |s.threads| && Validated(s.threads[t]) && CutOf(s.threads[t]) != s.cut
      ensures s'.consumer.Waiting? && s'.consumer.s <= s.threads[t].shard
    {
      assert ThreadOk(s, t);
      CountZero(s.threads, t, s.consumer.s, s.consumer.c);
    }
    ConsumerMoves(s, s');
  }

  lemma BumpAccounts(s: State, i: nat)
    requires Inv(s) && s.consumer.Locked? && i < |s.insts|
    ensures var s' := ConsumerStep(s).value; Shape(s') && Accounted(s', i) && Closing(s', i)
  {
    assert Accounted(s, i) && Closing(s, i);
    SumSplit(s.log, i, s.cut);
    forall e <- s.log ensures e.cut < s.cut + 1 { var k :| 0 <= k < |s.log| && s.log[k] == e; assert EntryOk(s, s.log[k]); }
    SumNone(s.log, i, s.cut + 1);
  }

  lemma BumpKeeps(s: State)
    requires Inv(s) && s.consumer.Locked?
    ensures Inv(ConsumerStep(s).value)
  {
    var s' := ConsumerStep(s).value;
    FrameListed(s, s');
    forall u | 0 <= u < |s'.threads| ensures ThreadOk(s', u) { assert ThreadOk(s, u); }
    forall k | 0 <= k < |s'.log| ensures EntryOk(s', s'.log[k]) { assert EntryOk(s, s.log[k]); }
    forall i | 0 <= i < |s'.insts| ensures Accounted(s', i) && Closing(s', i) { BumpAccounts(s, i); }
    forall i, c: nat | 0 <= i < |s'.insts| && Since(s'.insts[i], c) > 0.0 ensures Excused(s', i, c) { assert Excused(s, i, c); }
  }

  lemma NextKeeps(s: State)
    requires Inv(s) && s.consumer.Folding? && s.consumer.k == |s.taken|
    ensures Inv(ConsumerStep(s).value)
  {
    var s' := ConsumerStep(s).value;
    FrameListed(s, s');
    forall u | 0 <= u < |s'.threads| ensures ThreadOk(s', u) { assert ThreadOk(s, u); }
    forall k | 0 <= k < |s'.log| ensures EntryOk(s', s'.log[k]) { assert EntryOk(s, s.log[k]); }
    forall i | 0 <= i < |s'.insts| ensures Accounted(s', i) && Closing(s', i) { assert Accounted(s, i) && Closing(s, i); }
    forall i, c: nat | 0 <= i < |s'.insts| && Since(s'.insts[i], c) > 0.0 ensures Excused(s', i, c) { assert Excused(s, i, c); }
  }

  lemma SwapListed(s: State)
    requires Inv(s) && s.consumer.Swapping? && ConsumerStep(s).Some?
    ensures var s' := ConsumerStep(s).value; Shape(s') && Listed(s') && ConsumerOk(s')
  {
    var s' := ConsumerStep(s).value;
    assert Clean(s, s.consumer.s);
    forall j | 0 <= j < |s'.insts| ensures Waits(s', j) { assert Waits(s, j); }
    forall h | 0 <= h < SHARDS ensures Clean(s', h) { assert Clean(s, h); }
  }

  /** With the mutex free, whatever has the shard's epoch has just been taken. */
  lemma SwapTakes(s: State, i: nat)
    requires Inv(s) && s.consumer.Swapping? && ConsumerStep(s).Some? && i < |s.insts|
    requires s.insts[i].shard == s.consumer.s && s.insts[i].epoch == s.shards[s.consumer.s].epoch
    ensures Remaining(ConsumerStep(s).value, i)
  {
    assert Waits(s, i);
    var k :| 0 <= k < |s.shards[s.consumer.s].dirty| && s.shards[s.consumer.s].dirty[k] == i;
    assert ConsumerStep(s).value.taken[k] == i;
  }

  /** Nobody is enlisting the closed side any more. */
  lemma SwapCloses(s: State, i: nat)
    requires Inv(s) && s.consumer.Swapping? && ConsumerStep(s).Some? && i < |s.insts|
    ensures var s' := ConsumerStep(s).value; Shape(s') && Accounted(s', i) && Closing(s', i)
  {
    var s' := ConsumerStep(s).value;
    assert Accounted(s, i) && Closing(s, i) && Clean(s, s.consumer.s);
    if s.insts[i].shard == s.consumer.s && Since(s.insts[i], s.cut + 1) > 0.0 {
      assert Excused(s, i, s.cut + 1);
      forall t | 0 <= t < |s.threads| && s.threads[t].pc.Enlist? ensures s.threads[t].pc.c % 2 != (s.cut + 1) % 2 { assert ThreadOk(s, t); }
      SwapTakes(s, i);
    }
  }

  lemma SwapExcuses(s: State, i: nat, c: nat)
    requires Inv(s) && s.consumer.Swapping? && ConsumerStep(s).Some? && i < |s.insts| && Excused(s, i, c)
    ensures var s' := ConsumerStep(s).value; Shape(s') && Excused(s', i, c)
  {
    assert Clean(s, s.consumer.s);
    if s.insts[i].shard == s.consumer.s && s.insts[i].epoch == s.shards[s.consumer.s].epoch { SwapTakes(s, i); }
  }

  lemma SwapKeeps(s: State)
    requires Inv(s) && s.consumer.Swapping? && ConsumerStep(s).Some?
    ensures Inv(ConsumerStep(s).value)
  {
    var s' := ConsumerStep(s).value;
    SwapListed(s);
    assert Counted(s');
    forall u | 0 <= u < |s'.threads| ensures ThreadOk(s', u) { assert ThreadOk(s, u) && Clean(s, s.consumer.s); }
    forall k | 0 <= k < |s'.log| ensures EntryOk(s', s'.log[k]) { assert EntryOk(s, s.log[k]); }
    forall i | 0 <= i < |s'.insts| ensures Accounted(s', i) && Closing(s', i) { SwapCloses(s, i); }
    forall i, c: nat | 0 <= i < |s'.insts| && Since(s'.insts[i], c) > 0.0 ensures Excused(s', i, c) { SwapExcuses(s, i, c); }
  }

  lemma FoldCloses(s: State, i: nat)
    requires Inv(s) && s.consumer.Folding? && s.consumer.k < |s.taken| && i < |s.insts|
    ensures var s' := ConsumerStep(s).value; Shape(s') && Accounted(s', i) && Closing(s', i)
  {
    var s' := ConsumerStep(s).value;
    assert Accounted(s, i) && Closing(s, i);
    assert Since(s'.insts[i], s.cut) == Since(s.insts[i], s.cut);
    assert Remaining(s, i) ==> Remaining(s', i);
    assert i == s.taken[s.consumer.k] <==> InHand(s', i);
  }

  lemma FoldKeeps(s: State)
    requires Inv(s) && s.consumer.Folding? && s.consumer.k < |s.taken|
    ensures Inv(ConsumerStep(s).value)
  {
    var s' := ConsumerStep(s).value;
    FrameListed(s, s');
    assert ConsumerOk(s');
    forall u | 0 <= u < |s'.threads| ensures ThreadOk(s', u) { assert ThreadOk(s, u); }
    forall k | 0 <= k < |s'.log| ensures EntryOk(s', s'.log[k]) { assert EntryOk(s, s.log[k]); }
    forall i | 0 <= i < |s'.insts| ensures Accounted(s', i) && Closing(s', i) { FoldCloses(s, i); }
    forall i, c: nat | 0 <= i < |s'.insts| && Since(s'.insts[i], c) > 0.0 ensures Excused(s', i, c) {
      assert Excused(s, i, c);
      assert Remaining(s, i) ==> Remaining(s', i);
      FrameExcused(s, s', i, c);
    }
  }

  lemma CheckKeeps(s: State)
    requires Inv(s) && s.consumer.Checking?
    ensures Inv(ConsumerStep(s).value)
  {
    var s' := ConsumerStep(s).value;
    var d := s.taken[s.consumer.k];
    forall i | 0 <= i < |s.insts| ensures Closing(s', i) {
      assert Closing(s, i);
      assert Remaining(s, i) && i != d ==> Remaining(s', i);
    }
    forall i, c: nat | 0 <= i < |s.insts| && Remaining(s, i) && Since(s.insts[i], c) > 0.0 ensures Excused(s', i, c) {
      assert Closing(s, i);
      assert i != d || s'.consumer.Marking?;
      assert Remaining(s', i);
    }
    forall t | 0 <= t < |s.threads| && Validated(s.threads[t]) ensures CutOf(s.threads[t]) == s.cut { assert ThreadOk(s, t); }
    ConsumerMoves(s, s');
  }

  lemma RemarkMoves(s: State, s': State)
    requires InvBut(s, CONSUMER) && s.consumer.Marking? && s' == s.(consumer := s'.consumer) && Shape(s')
    requires var d := s.taken[s.consumer.k];
      || (s'.consumer.Marking? && s'.consumer == s.consumer.(mark := s'.consumer.mark) && MarkOk(s', CONSUMER, d, s'.consumer.mark))
      || (s'.consumer == Handing(s.consumer.c, s.consumer.s, s.consumer.k) && s.insts[d].epoch == s.shards[s.insts[d].shard].epoch)
    ensures Inv(s')
  {
    var d := s.taken[s.consumer.k];
    forall i | 0 <= i < |s.insts| ensures Closing(s', i) {
      assert Closing(s, i);
      assert Remaining(s, i) && i != d ==> Remaining(s', i);
    }
    forall i, c: nat | 0 <= i < |s.insts| && Remaining(s, i) && Since(s.insts[i], c) > 0.0 ensures Excused(s', i, c) {
      assert i != d || s'.consumer.Marking? ==> Remaining(s', i);
    }
    forall t | 0 <= t < |s.threads| && Validated(s.threads[t]) ensures CutOf(s.threads[t]) == s.cut { assert ThreadOk(s, t); }
    ConsumerMoves(s, s');
  }

  lemma RemarkKeeps(s: State)
    requires Inv(s) && s.consumer.Marking? && ConsumerStep(s).Some?
    ensures Inv(ConsumerStep(s).value)
  {
    var d := s.taken[s.consumer.k];
    var m := s.consumer.mark;
    MarkKeeps(s, CONSUMER, d, m);
    MarkProgress(s, CONSUMER, d, m);
    RemarkMoves(MarkStep(s, CONSUMER, d, m).value.0, ConsumerStep(s).value);
  }

  lemma HandKeeps(s: State)
    requires Inv(s) && s.consumer.Handing?
    ensures Inv(ConsumerStep(s).value)
  {
    var s' := ConsumerStep(s).value;
    forall i | 0 <= i < |s.insts| ensures Closing(s', i) {
      assert Closing(s, i);
      assert Remaining(s, i) ==> Remaining(s', i);
    }
    forall i, c: nat | 0 <= i < |s.insts| && Remaining(s, i) && Since(s.insts[i], c) > 0.0 ensures Excused(s', i, c) {
      assert Remaining(s', i);
    }
    forall t | 0 <= t < |s.threads| && Validated(s.threads[t]) ensures CutOf(s.threads[t]) == s.cut { assert ThreadOk(s, t); }
    ConsumerMoves(s, s');
  }

  lemma ConsumerKeeps(s: State)
    requires Inv(s) && ConsumerStep(s).Some?
    ensures Inv(ConsumerStep(s).value)
  {
    match s.consumer
    case Resting => LockKeeps(s);
    case Locked => BumpKeeps(s);
    case Bumped(_) => UnlockKeeps(s);
    case Waiting(_, _) => WaitKeeps(s);
    case Swapping(_, _) => SwapKeeps(s);
    case Folding(_, _, k) => if k == |s.taken| { NextKeeps(s); } else { FoldKeeps(s); }
    case Checking(_, _, _) => CheckKeeps(s);
    case Marking(_, _, _, _) => RemarkKeeps(s);
    case Handing(_, _, _) => HandKeeps(s);
  }

  /** Every step of every thread, of the consumer and of the environment keeps the invariant. */
  lemma StepKeeps(s: State, e: Event)
    requires Inv(s) && Enabled(s, e)
    ensures Inv(Apply(s, e))
  {
    match e
    case Spawn => SpawnKeeps(s);
    case NewInst(t, shard) => NewInstKeeps(s, t, shard);
    case Begin(_, _, _) => EnvironmentKeeps(s, e);
    case Enter(_) => EnvironmentKeeps(s, e);
    case Exit(_) => EnvironmentKeeps(s, e);
    case Step(t) => ThreadKeeps(s, t);
    case Consume => ConsumerKeeps(s);
  }

  // ---------------------------------------------------------------- theorems about whole runs

  /** A run: states from the initial one on, each reached from the one before by
      an enabled event. */
  ghost predicate Run(run: seq<State>, events: seq<Event>) {
    && |run| == |events| + 1 && run[0] == Initial()
    && (forall n :: 0 <= n < |events| ==> Next(run[n], events[n], run[n + 1]))
  }

  ghost predicate Next(s: State, e: Event, s': State) { Shape(s) && Enabled(s, e) && s' == Apply(s, e) }

  lemma {:induction false} RunKeeps(run: seq<State>, events: seq<Event>, n: nat)
    requires Run(run, events) && n < |run|
    ensures Inv(run[n])
  {
    if n == 0 {
      InitialInv();
    } else {
      RunKeeps(run, events, n - 1);
      assert Next(run[n - 1], events[n - 1], run[n - 1 + 1]);
      StepKeeps(run[n - 1], events[n - 1]);
    }
  }
}
