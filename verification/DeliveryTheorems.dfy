module DeliveryTheorems {
  // What the exposition delivers, over every run of its steps, and exactly what the
  // hypotheses on a step are needed for.

  import opened Helpers
  import opened Acks
  import opened Delivery

  // ---------------------------------------------------------------- what every run delivers

  /** What is committed under a key: delivered by its instances, less what was moved between them. */
  function Committed(s: State, key: nat): real { SumBy(s.insts, key, Delivered) - SumBy(s.insts, key, Out) }

  /** What the scraper has processed of the held round under a key. */
  function HeldSum(s: State, key: nat): real {
    if s.held.Some? && s.held.value.processed then SaidOf(s.held.value.rows, key) else 0.0
  }

  lemma ExactlyOnceHere(s: State, key: nat)
    requires Inv(s)
    ensures SumOf(s.sums, key) == Committed(s, key) + HeldSum(s, key)
  {
    var base := seq(|s.insts|, i requires 0 <= i < |s.insts| => s.insts[i].(seen := Delivered(s.insts[i]) - s.insts[i].out));
    SumSame(base, s.insts, key, Delivered);
    SumSame(base, s.insts, key, Out);
    SumMinus(base, key, Seen, Delivered, Out);
    var rows := if s.held.Some? && s.held.value.processed then s.held.value.rows else [];
    forall i | 0 <= i < |s.insts| ensures Credit(base, rows)[i].seen == s.insts[i].seen { assert InstOk(s, i); }
    CreditSum(base, rows, key);
    SumSame(Credit(base, rows), s.insts, key, Seen);
  }

  /** Exactly once.  In every run, what the scraper has added up for a key is what
      is committed under that key, and the held round's part if it processed it. */
  lemma ExactlyOnce(run: seq<State>, events: seq<Event>, n: nat, key: nat)
    requires Run(run, events) && n < |run|
    ensures SumOf(run[n].sums, key) == Committed(run[n], key) + HeldSum(run[n], key)
  {
    RunKeeps(run, events, n);
    ExactlyOnceHere(run[n], key);
  }

  lemma ConservationHere(s: State, key: nat)
    requires Inv(s)
    ensures SumBy(s.insts, key, Made) == Committed(s, key) + SumBy(s.insts, key, Undelivered)
  {
    forall d <- s.insts ensures Made(d) == Total(d) - Moved(d) { var i :| 0 <= i < |s.insts| && s.insts[i] == d; assert InstOk(s, i); }
    SumMinus(s.insts, key, Made, Total, Moved);
    SumMinus(s.insts, key, Undelivered, Total, Delivered);
  }

  /** Conservation across deletion.  What the scraper has added up for a key and what is
      still undelivered, in its live instance and in deleted ones, is all that clients
      wrote under it, and what the scraper has processed ahead of the commit. */
  lemma Conservation(run: seq<State>, events: seq<Event>, n: nat, key: nat)
    requires Run(run, events) && n < |run|
    ensures SumOf(run[n].sums, key) + SumBy(run[n].insts, key, Undelivered) == SumBy(run[n].insts, key, Made) + HeldSum(run[n], key)
  {
    RunKeeps(run, events, n);
    ExactlyOnceHere(run[n], key);
    ConservationHere(run[n], key);
  }

  /** Nothing is forgotten.  What is undelivered of an instance that is not listed, between
      scrapes, is the sum of the writes in progress, on top of what the held round carries
      for it if it carries it; unless that round is one that can only be rolled back, which
      lists it. */
  lemma NothingForgotten(run: seq<State>, events: seq<Event>, n: nat, i: nat)
    requires Run(run, events) && n < |run| && run[n].phase.Resting? && i < |run[n].insts|
    requires !run[n].insts[i].dirty && !Spoiled(run[n], i)
    ensures var d := run[n].insts[i];
      Undelivered(d) == InProgress(d) + if i in Values(run[n]) then Values(run[n])[i] - Delivered(d) else 0.0
  {
    RunKeeps(run, events, n);
    assert InstOk(run[n], i);
  }

  /** So once nothing is listed and no round is held, the scraper has every write but
      those in progress. */
  lemma EverythingArrives(run: seq<State>, events: seq<Event>, n: nat, key: nat)
    requires Run(run, events) && n < |run| && run[n].phase.Resting? && run[n].held.None?
    requires forall d <- run[n].insts :: !d.dirty
    ensures SumOf(run[n].sums, key) + SumBy(run[n].insts, key, InProgress) == SumBy(run[n].insts, key, Made)
  {
    var s := run[n];
    RunKeeps(run, events, n);
    ExactlyOnceHere(s, key);
    ConservationHere(s, key);
    forall i | 0 <= i < |s.insts| ensures Undelivered(s.insts[i]) == InProgress(s.insts[i]) { NothingForgotten(run, events, n, i); }
    SumSame(s.insts, s.insts, key, Undelivered);
    SumAlike(s.insts, key, Undelivered, InProgress);
  }

  lemma SumAlike(insts: seq<Inst>, key: nat, f: Inst -> real, g: Inst -> real)
    requires forall i :: 0 <= i < |insts| ==> f(insts[i]) == g(insts[i])
    ensures SumBy(insts, key, f) == SumBy(insts, key, g)
  {
    if insts != [] { SumAlike(insts[..|insts| - 1], key, f, g); }
  }

  /** A round is complete.  The response to anything but a peek carries every counter
      written before its cut and not yet delivered, at its value there; but for those pick
      found deleted at its second look. */
  lemma RoundIsComplete(run: seq<State>, events: seq<Event>, n: nat, i: nat)
    requires Run(run, events) && n < |run| && run[n].phase.Sending? && !run[n].phase.ack.Peek? && i < |run[n].insts|
    requires i !in run[n].skipped
    ensures var s := run[n];
      && (i in s.phase.pending <==> s.insts[i].atCut > Delivered(s.insts[i]))
      && (i in s.phase.pending ==> s.phase.pending[i] == s.insts[i].atCut)
      && s.insts[i].closed == 0.0
      && Said(s.phase.rows, i) == s.insts[i].atCut - Delivered(s.insts[i])
  {
    RunKeeps(run, events, n);
    assert InstOk(run[n], i);
    assert PicksOk(run[n]) && PhaseOk(run[n]);
  }

  /** What is undelivered of an instance that idle cleanup deletes is exactly the sum of
      the writes in progress, which are settled when they enlist it. */
  lemma DropsAreDelivered(run: seq<State>, events: seq<Event>, n: nat, i: nat)
    requires Run(run, events) && n < |run| && Enabled(run[n], Drop(i)) && i < |run[n].insts|
    requires !run[n].insts[i].dead && Apply(run[n], Drop(i)).insts[i].dead
    ensures Undelivered(run[n].insts[i]) == InProgress(run[n].insts[i])
  {
    RunKeeps(run, events, n);
    assert InstOk(run[n], i);
    assert NumbersOk(run[n]);
  }

  // ---------------------------------------------------------------- what becomes of a round

  /** A scraper that acknowledges the last round it processed never has a round
      committed that it did not process, nor one rolled back that it did. */
  lemma HonestAcknowledgement(s: State)
    requires Inv(s) && s.held.Some?
    ensures Commits(s.session, s.held.value.round, Last(s.session, s.last)) <==> s.held.value.processed
  {
  }

  /** The scraper has exactly what is committed, for every key. */
  ghost predicate Exact(s: State) { forall key: nat :: SumOf(s.sums, key) == Committed(s, key) }

  /** What a round says of a key is what its commit adds to the values delivered. */
  lemma CommitAdds(insts: seq<Inst>, values: map<nat, real>, rows: seq<Row>, key: nat)
    requires forall r <- rows :: r.inst < |insts| && r.key == insts[r.inst].key
    requires forall i :: 0 <= i < |insts| ==> Said(rows, i) == if i in values then values[i] - Delivered(insts[i]) else 0.0
    ensures SumBy(Commit(insts, values), key, Delivered) == SumBy(insts, key, Delivered) + SaidOf(rows, key)
  {
    var base := seq(|insts|, i requires 0 <= i < |insts| => insts[i].(seen := Delivered(insts[i])));
    CreditSum(base, rows, key);
    SumSame(base, insts, key, Delivered);
    SumAlike(base, key, Seen, Delivered);
    var after := seq(|insts|, i requires 0 <= i < |insts| => Commit(insts, values)[i].(seen := Delivered(Commit(insts, values)[i])));
    SumSame(Credit(base, rows), after, key, Seen);
    SumAlike(after, key, Seen, Delivered);
    SumSame(after, Commit(insts, values), key, Delivered);
  }

  lemma SumAtLeast(insts: seq<Inst>, key: nat, f: Inst -> real, i: nat)
    requires i < |insts| && insts[i].key == key && forall k :: 0 <= k < |insts| ==> f(insts[k]) >= 0.0
    ensures SumBy(insts, key, f) >= f(insts[i])
  {
    var n := |insts| - 1;
    if i < n { SumAtLeast(insts[..n], key, f, i); } else { SumNonNegative(insts[..n], key, f); }
  }

  lemma SumNonNegative(insts: seq<Inst>, key: nat, f: Inst -> real)
    requires forall k :: 0 <= k < |insts| ==> f(insts[k]) >= 0.0
    ensures SumBy(insts, key, f) >= 0.0
  {
    if insts != [] { SumNonNegative(insts[..|insts| - 1], key, f); }
  }

  /** A round brings something for the key of everything it carries. */
  lemma RoundBrings(s: State, i: nat)
    requires Inv(s) && s.held.Some? && s.held.value.spoiled == {} && i in s.held.value.values
    ensures i < |s.insts| && SaidOf(s.held.value.rows, s.insts[i].key) > 0.0
  {
    var rows := s.held.value.rows;
    var base := seq(|s.insts|, k requires 0 <= k < |s.insts| => s.insts[k].(seen := 0.0));
    CreditSum(base, rows, s.insts[i].key);
    SumAlike(base, s.insts[i].key, Seen, Nothing);
    SumNothing(base, s.insts[i].key);
    forall k | 0 <= k < |base| ensures Credit(base, rows)[k].seen >= 0.0 { assert InstOk(s, k); }
    assert InstOk(s, i);
    SumAtLeast(Credit(base, rows), s.insts[i].key, Seen, i);
  }

  function Nothing(d: Inst): real { 0.0 }

  lemma SumNothing(insts: seq<Inst>, key: nat)
    ensures SumBy(insts, key, Nothing) == 0.0
  {
    if insts != [] { SumNothing(insts[..|insts| - 1], key); }
  }

  /** Settling leaves the scraper with exactly what is committed if and only if it commits
      what was processed and rolls back what was not, or the round brought nothing. */
  lemma SettleIff(s: State, a: Ack)
    requires Inv(s) && s.phase.Resting? && s.held.Some? && s.held.value.spoiled == {} && !a.Peek?
    ensures Exact(Settle(s, a)) <==>
      (Commits(s.session, s.held.value.round, a) <==> s.held.value.processed) || s.held.value.values == map[]
  {
    var t, h := Settle(s, a), s.held.value;
    forall key: nat
      ensures SumOf(t.sums, key) - Committed(t, key) ==
        (if h.processed then SaidOf(h.rows, key) else 0.0) - if Commits(s.session, h.round, a) then SaidOf(h.rows, key) else 0.0
    {
      SettleAdds(s, a, key);
    }
    if h.values == map[] {
      forall key: nat ensures SaidOf(h.rows, key) == 0.0 { EmptyRound(s, key); }
    } else {
      var i := SomeKey(h.values);
      RoundBrings(s, i);
    }
  }

  lemma SomeKey(values: map<nat, real>) returns (i: nat)
    requires values != map[]
    ensures i in values
  {
    i :| i in values;
  }

  lemma SettleAdds(s: State, a: Ack, key: nat)
    requires Inv(s) && s.held.Some? && s.held.value.spoiled == {} && !a.Peek?
    ensures var t, h := Settle(s, a), s.held.value;
      SumOf(t.sums, key) - Committed(t, key) ==
        (if h.processed then SaidOf(h.rows, key) else 0.0) - if Commits(s.session, h.round, a) then SaidOf(h.rows, key) else 0.0
  {
    var t, h := Settle(s, a), s.held.value;
    ExactlyOnceHere(s, key);
    SumSame(s.insts, t.insts, key, Out);
    if Commits(s.session, h.round, a) { CommitAdds(s.insts, h.values, h.rows, key); } else { SumSame(s.insts, t.insts, key, Delivered); }
  }

  lemma EmptyRound(s: State, key: nat)
    requires Inv(s) && s.held.Some? && s.held.value.spoiled == {} && s.held.value.values == map[]
    ensures SaidOf(s.held.value.rows, key) == 0.0
  {
    CommitAdds(s.insts, map[], s.held.value.rows, key);
    SumSame(s.insts, Commit(s.insts, map[]), key, Delivered);
  }

  // ---------------------------------------------------------------- the peek that merges

  /** The held round after a merge of i into j, the scraper processing the round then or
      not, and its settlement. */
  function AfterMerge(s: State, i: nat, j: nat, receive: bool): State
    requires s.phase.Picking? && i < |s.insts| && j < |s.insts| && i != j && s.held.Some?
  {
    var u := Merge(s, i, j);
    if receive && !u.held.value.processed then
      Process(u, u.held.value.rows).(held := Some(u.held.value.(processed := true)), last := u.held.value.round)
    else u
  }

  /** The merge moves as much in the values delivered as out. */
  lemma MergeMoves(s: State, i: nat, j: nat, key: nat)
    requires s.phase.Picking? && i < |s.insts| && j < |s.insts| && i != j && s.insts[i].key == s.insts[j].key
    requires s.insts[i].atCut > Delivered(s.insts[i])
    ensures var u := Merge(s, i, j); var left := if key == s.insts[i].key then s.insts[i].atCut - Delivered(s.insts[i]) else 0.0;
      && SumBy(u.insts, key, Delivered) == SumBy(s.insts, key, Delivered) + left
      && SumBy(u.insts, key, Out) == SumBy(s.insts, key, Out) + left
  {
    var u := Merge(s, i, j);
    var mid := s.insts[i := u.insts[i]];
    SumUpdate(s.insts, i, u.insts[i], key, Delivered);
    SumUpdate(s.insts, i, u.insts[i], key, Out);
    assert u.insts == mid[j := u.insts[j]];
    SumUpdate(mid, j, u.insts[j], key, Delivered);
    SumUpdate(mid, j, u.insts[j], key, Out);
  }

  /** The commit of a round makes the same of the values delivered, merged or not. */
  lemma CommitSame(s: State, i: nat, j: nat, receive: bool, values: map<nat, real>, key: nat)
    requires s.phase.Picking? && i < |s.insts| && j < |s.insts| && i != j && s.held.Some? && i in values
    ensures SumBy(Commit(AfterMerge(s, i, j, receive).insts, values), key, Delivered) == SumBy(Commit(s.insts, values), key, Delivered)
  {
    var a, b := Commit(AfterMerge(s, i, j, receive).insts, values), Commit(s.insts, values);
    SumSame(a, b, key, Delivered);
  }

  /** What comes of the sums of a merge, the scraper then processing the round or not. */
  lemma MergedSums(s: State, i: nat, j: nat, receive: bool, key: nat)
    requires s.phase.Picking? && i < |s.insts| && j < |s.insts| && i != j && s.held.Some?
    requires s.insts[i].key == s.insts[j].key && MovedBy(s, i) > 0.0
    ensures var w := AfterMerge(s, i, j, receive); var left := if key == s.insts[i].key then MovedBy(s, i) else 0.0;
      && SumBy(w.insts, key, Delivered) == SumBy(s.insts, key, Delivered) + left
      && SumBy(w.insts, key, Out) == SumBy(s.insts, key, Out) + left
      && SumOf(w.sums, key) == SumOf(s.sums, key) + if w.held.value.processed && !s.held.value.processed then SaidOf(s.held.value.rows, key) else 0.0
  {
    var w, u := AfterMerge(s, i, j, receive), Merge(s, i, j);
    MergeMoves(s, i, j, key);
    SumSame(u.insts, w.insts, key, Delivered);
    SumSame(u.insts, w.insts, key, Out);
    AddUpSum(u.sums, s.held.value.rows, key);
  }

  /** A commit of the round makes the same of the values delivered, merged or not. */
  lemma MergedCommit(s: State, i: nat, j: nat, receive: bool, key: nat)
    requires HeldOk(s) && s.phase.Picking? && i < |s.insts| && j < |s.insts| && i != j
    requires s.held.Some? && s.held.value.spoiled == {} && i in s.held.value.values
    ensures SumBy(Commit(AfterMerge(s, i, j, receive).insts, s.held.value.values), key, Delivered)
         == SumBy(s.insts, key, Delivered) + SaidOf(s.held.value.rows, key)
  {
    CommitAdds(s.insts, s.held.value.values, s.held.value.rows, key);
    CommitSame(s, i, j, receive, s.held.value.values, key);
  }

  /** What settling the held round then leaves. */
  lemma MergedSettles(s: State, i: nat, j: nat, receive: bool, a: Ack, key: nat)
    requires s.phase.Picking? && i < |s.insts| && j < |s.insts| && i != j && s.held.Some? && !a.Peek?
    ensures var w := AfterMerge(s, i, j, receive); var t := Settle(w, a);
      && t.sums == w.sums && SumBy(t.insts, key, Out) == SumBy(w.insts, key, Out)
      && SumBy(t.insts, key, Delivered) ==
           SumBy(if Commits(w.session, w.held.value.round, a) then Commit(w.insts, s.held.value.values) else w.insts, key, Delivered)
  {
    var w := AfterMerge(s, i, j, receive);
    var t := Settle(w, a);
    assert w.held.value.values == s.held.value.values;
    SumSame(w.insts, t.insts, key, Out);
    if !Commits(w.session, w.held.value.round, a) { SumSame(w.insts, t.insts, key, Delivered); }
  }

  /** The round carries an instance below its value as of the cut. */
  lemma CarriedMoves(s: State, i: nat)
    requires Inv(s) && s.held.Some? && s.held.value.spoiled == {} && i in s.held.value.values
    ensures i < |s.insts| && MovedBy(s, i) >= s.held.value.values[i] - Delivered(s.insts[i]) > 0.0
  {
    assert InstOk(s, i);
  }

  /** What a peek costs that merges an instance i the held round carries.  If the scraper
      processes that round, before or after, its commit leaves it with more than is
      committed for the key: by what was moved, of which it has processed the part the
      round carried, and the rest is undelivered in both instances.  If it does not, and
      the round is rolled back, it has exactly what is committed. */
  lemma MergeOvercounts(s: State, i: nat, j: nat, receive: bool, a: Ack, key: nat)
    requires Inv(s) && s.phase.Picking? && i == s.phase.inst < |s.insts| && j < |s.insts| && s.held.Some? && s.held.value.spoiled == {}
    requires s.insts[i].dead && Live(s, j, s.insts[i].key) && i in s.held.value.values && !a.Peek?
    requires var w := AfterMerge(s, i, j, receive); Commits(w.session, w.held.value.round, a) <==> w.held.value.processed
    ensures var w := AfterMerge(s, i, j, receive); var t := Settle(w, a);
      SumOf(t.sums, key) == Committed(t, key) + if w.held.value.processed && key == s.insts[i].key then MovedBy(s, i) else 0.0
  {
    ExactlyOnceHere(s, key);
    CarriedMoves(s, i);
    MergedSums(s, i, j, receive, key);
    MergedCommit(s, i, j, receive, key);
    MergedSettles(s, i, j, receive, a, key);
  }

  /** What the merge moves of i. */
  function MovedBy(s: State, i: nat): real
    requires i < |s.insts|
  {
    s.insts[i].atCut - Delivered(s.insts[i])
  }

  /** Of that, the scraper has processed what the round carried, and the rest is undelivered
      in i as well after the commit. */
  lemma MovedTwice(s: State, i: nat, j: nat, receive: bool, a: Ack)
    requires Inv(s) && s.phase.Picking? && i == s.phase.inst < |s.insts| && j < |s.insts| && s.held.Some? && s.held.value.spoiled == {}
    requires s.insts[i].dead && Live(s, j, s.insts[i].key) && i in s.held.value.values && !a.Peek?
    requires var w := AfterMerge(s, i, j, receive); w.held.value.processed && Commits(w.session, w.held.value.round, a)
    ensures var d, v := s.insts[i], s.held.value.values[i];
      && v - Delivered(d) > 0.0 && MovedBy(s, i) == (v - Delivered(d)) + (d.atCut - v)
      && Undelivered(Settle(AfterMerge(s, i, j, receive), a).insts[i]) == d.open + d.closed + (d.atCut - v)
  {
    assert InstOk(s, i);
    var w := AfterMerge(s, i, j, receive);
    assert w.insts[i].atCut == s.insts[i].atCut && w.insts[i].open == s.insts[i].open && w.insts[i].closed == s.insts[i].closed;
  }

  /** So a peek may merge a deleted instance exactly if no held round carries it that the
      scraper processes, before or after. */
  lemma MergeIff(s: State, i: nat, j: nat, receive: bool, a: Ack)
    requires Inv(s) && s.phase.Picking? && i == s.phase.inst < |s.insts| && j < |s.insts| && s.held.Some? && s.held.value.spoiled == {}
    requires s.insts[i].dead && Live(s, j, s.insts[i].key) && !a.Peek?
    requires var w := AfterMerge(s, i, j, receive); Commits(w.session, w.held.value.round, a) <==> w.held.value.processed
    ensures var w := AfterMerge(s, i, j, receive);
      Exact(Settle(w, a)) <==> !(w.held.value.processed && i in s.held.value.values)
  {
    if i in s.held.value.values {
      CarriedIff(s, i, j, receive, a);
    } else {
      NotCarried(s, i, j, receive, a);
    }
  }

  lemma CarriedIff(s: State, i: nat, j: nat, receive: bool, a: Ack)
    requires Inv(s) && s.phase.Picking? && i == s.phase.inst < |s.insts| && j < |s.insts| && s.held.Some? && s.held.value.spoiled == {}
    requires s.insts[i].dead && Live(s, j, s.insts[i].key) && i in s.held.value.values && !a.Peek?
    requires var w := AfterMerge(s, i, j, receive); Commits(w.session, w.held.value.round, a) <==> w.held.value.processed
    ensures var w := AfterMerge(s, i, j, receive); Exact(Settle(w, a)) <==> !w.held.value.processed
  {
    var w := AfterMerge(s, i, j, receive);
    var t := Settle(w, a);
    forall key: nat
      ensures SumOf(t.sums, key) == Committed(t, key) + if w.held.value.processed && key == s.insts[i].key then MovedBy(s, i) else 0.0
    {
      MergeOvercounts(s, i, j, receive, a, key);
    }
    CarriedMoves(s, i);
    var key := s.insts[i].key;
    assert w.held.value.processed ==> SumOf(t.sums, key) != Committed(t, key);
  }

  lemma NotCarried(s: State, i: nat, j: nat, receive: bool, a: Ack)
    requires Inv(s) && s.phase.Picking? && i == s.phase.inst < |s.insts| && j < |s.insts| && s.held.Some? && s.held.value.spoiled == {}
    requires s.insts[i].dead && Live(s, j, s.insts[i].key) && i !in s.held.value.values && !a.Peek?
    requires var w := AfterMerge(s, i, j, receive); Commits(w.session, w.held.value.round, a) <==> w.held.value.processed
    ensures Exact(Settle(AfterMerge(s, i, j, receive), a))
  {
    MergeKeeps(s, i, j);
    var u, w := Merge(s, i, j), AfterMerge(s, i, j, receive);
    assert u.held == s.held;
    if receive && !u.held.value.processed {
      ReceiveKeeps(u);
      assert w == Apply(u, Receive);
    }
    forall key: nat ensures SumOf(Settle(w, a).sums, key) == Committed(Settle(w, a), key) { SettleAdds(w, a, key); }
  }

  // ---------------------------------------------------------------- the instance pick skips

  /** Nobody is going to report i, though it has something undelivered beyond the writes in
      progress: it is deleted, and neither listed nor in this scrape nor carried. */
  ghost predicate Forgotten(s: State, i: nat) {
    && i < |s.insts| && s.insts[i].dead && !s.insts[i].dirty && Undelivered(s.insts[i]) > InProgress(s.insts[i])
    && i !in Todo(s.phase) && i !in s.taken && (s.phase.Picking? || s.phase.Entering? ==> s.phase.inst != i)
    && (s.held.Some? ==> i !in s.held.value.values) && (s.phase.Sending? ==> i !in s.phase.pending)
  }

  /** It stays so, whatever happens, until a later write enlists it. */
  lemma ForgottenStays(s: State, e: Event, i: nat)
    requires Enabled(s, e) && Forgotten(s, i) && !(e.Enlist? && e.inst == i)
    ensures Forgotten(Apply(s, e), i)
  {
    match e {
      case Add(_, _, _) => if e.inst == i { PileAppend(s.insts[i].busy, e.v); PileAppend(s.insts[i].late, e.v); }
      case Request(a, final, idle) => ForgottenSettles(s, a, i);
      case Finish(delivered) => ForgottenFinishes(s, delivered, i);
      case Check => ForgottenChecks(s, i);
      case _ => ForgottenElse(s, e, i);
    }
  }

  lemma ForgottenSettles(s: State, a: Ack, i: nat)
    requires Forgotten(s, i) && s.phase.Resting?
    ensures Forgotten(Settle(s, a), i)
  {
  }

  lemma ForgottenFinishes(s: State, delivered: bool, i: nat)
    requires Forgotten(s, i) && Enabled(s, Finish(delivered))
    ensures Forgotten(Apply(s, Finish(delivered)), i)
  {
    assert i !in Taken(s);
  }

  lemma ForgottenChecks(s: State, i: nat)
    requires Forgotten(s, i) && Enabled(s, Check)
    ensures Forgotten(Apply(s, Check), i)
  {
  }

  lemma ForgottenElse(s: State, e: Event, i: nat)
    requires Enabled(s, e) && Forgotten(s, i) && !(e.Enlist? && e.inst == i)
    requires !e.Add? && !e.Request? && !e.Finish? && !e.Check?
    ensures Forgotten(Apply(s, e), i)
  {
  }

  /** Pick may skip an instance that was deleted between its two looks exactly if that does
      no harm; otherwise the instance is forgotten, once a held round that carries some of
      it is committed. */
  lemma EnterIff(s: State, a: Ack)
    requires Inv(s) && Enabled(s, Enter)
    ensures Inv(Apply(s, Enter)) <==> Harmless(s)
    ensures var t := Apply(s, Enter);
      !Harmless(s) && (s.held.Some? && s.phase.inst in s.held.value.values ==> !a.Peek? && Commits(t.session, t.held.value.round, a)) ==>
        Forgotten(if s.held.Some? && s.phase.inst in s.held.value.values then Settle(t, a) else t, s.phase.inst)
    ensures Harmless(s) ==> !Forgotten(Apply(s, Enter), s.phase.inst)
  {
    var i := s.phase.inst;
    assert InstOk(s, i);
    if Harmless(s) { EnterKeeps(s); } else { assert !InstOk(Apply(s, Enter), i); }
  }
}
