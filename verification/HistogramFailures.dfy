/** The two ways an exemplar above all bounds breaks the delivery of a classic histogram, as
    concrete sound runs of the exposer from its start, with one bound.

    In the first a child is deleted and replaced while an observation above its bound, with
    an exemplar, is in progress.  Its slice then has a bucket more than there are bounds, so
    AddTrackedHistogram refuses it, but its entry takes it as delivered.

    In the second such an observation comes after another one was delivered.  The line above
    all bounds, which the encoder made up from the count before, is written out now, and
    nothing was delivered of it by name.

    Each function below is a state on the way, and the lemma beside it says that the
    steps named in its body lead there. */
module HistogramFailures {
  import opened Helpers
  import opened Acks
  import opened HistogramDelivery

  /** Some sound run of the exposer ends in s. */
  ghost predicate Reached(session: string, s: State) {
    exists run, events :: Run(run, events) && run[0] == Initial(session, 1) && run[|run| - 1] == s
  }

  lemma Begins(session: string)
    ensures Reached(session, Initial(session, 1))
  {
    assert Run([Initial(session, 1)], []);
  }

  lemma Extend(session: string, s: State, e: Event, s': State)
    requires Reached(session, s) && Next(s, e, s')
    ensures Reached(session, s')
  {
    var run, events :| Run(run, events) && run[0] == Initial(session, 1) && run[|run| - 1] == s;
    assert Run(run + [s'], events + [e]);
  }

  // ---------------------------------------------------------------- refused, and lost

  /** A child with one observation above all bounds, and its exemplar. */
  function Observed(session: string): State {
    State(session, 1, [Inst(0, false, true, [Obs(1, 5.0)], {0}, true, None, [Obs(1, 5.0)], [], [], [])], Resting, 0, None, [], [])
  }

  lemma ReachesObserved(session: string)
    ensures Reached(session, Observed(session))
  {
    Begins(session);
    var s := Initial(session, 1);
    var s1 := s.(insts := [Inst(0, false, true, [], {}, false, None, [], [], [], [])]);
    Extend(session, s, Lookup(0), s1);
    var s2 := s1.(insts := [Inst(0, false, true, [Obs(1, 5.0)], {0}, false, None, [Obs(1, 5.0)], [], [], [])]);
    assert [] + [Obs(1, 5.0)] == [Obs(1, 5.0)] && {} + {0} == {0};
    Extend(session, s1, Observe(0, Obs(1, 5.0)), s2);
    var s3 := s2.(insts := [Inst(0, false, true, [Obs(1, 5.0)], {0}, true, None, [Obs(1, 5.0)], [], [], [])]);
    Extend(session, s2, Exemplify(0, 0), s3);
  }

  /** It is deleted and another one created, before the observation enlists it. */
  function Replaced(session: string): State {
    State(session, 1, [Inst(0, true, true, [Obs(1, 5.0)], {}, true, None, [Obs(1, 5.0)], [], [], []), Inst(0, false, true, [], {}, false, None, [], [], [], [])], Resting, 0, None, [], [])
  }

  lemma ReachesReplaced(session: string)
    ensures Reached(session, Replaced(session))
  {
    ReachesObserved(session);
    var s := Observed(session);
    var s1 := s.(insts := [Inst(0, true, true, [Obs(1, 5.0)], {0}, true, None, [Obs(1, 5.0)], [], [], [])]);
    Extend(session, s, Delete(0), s1);
    var s2 := s1.(insts := [Inst(0, true, true, [Obs(1, 5.0)], {0}, true, None, [Obs(1, 5.0)], [], [], []), Inst(0, false, true, [], {}, false, None, [], [], [], [])]);
    assert forall k: nat :: !Live(s1, k, 0);
    Extend(session, s1, Lookup(0), s2);
    var s3 := s2.(insts := [Inst(0, true, true, [Obs(1, 5.0)], {}, true, None, [Obs(1, 5.0)], [], [], []), Inst(0, false, true, [], {}, false, None, [], [], [], [])]);
    assert {0} - {0} == {};
    Extend(session, s2, Enlist(0, 0), s3);
  }

  /** A scrape hands out the deleted one. */
  function Handed(session: string): State {
    State(session, 1, [Inst(0, true, false, [Obs(1, 5.0)], {}, true, None, [Obs(1, 5.0)], [], [], []), Inst(0, false, false, [], {}, false, None, [], [], [], [])], Picking(Silent, {1}, 0), 1, None, [], [])
  }

  lemma ReachesHanded(session: string)
    ensures Reached(session, Handed(session))
  {
    ReachesReplaced(session);
    var s := Replaced(session);
    var s1 := s.(phase := Asked(Silent), round := 1);
    Extend(session, s, Request(Silent, false), s1);
    var s2 := s1.(insts := [Inst(0, true, false, [Obs(1, 5.0)], {}, true, None, [Obs(1, 5.0)], [], [], []), Inst(0, false, false, [], {}, false, None, [], [], [], [])], phase := Taking(Silent, {0, 1}));
    assert Listed(s1.insts) == {0, 1};
    Extend(session, s1, Take, s2);
    var s3 := s2.(phase := Picking(Silent, {1}, 0));
    assert {0, 1} - {0} == {1};
    Extend(session, s2, Hand(0), s3);
  }

  /** AddTrackedHistogram refuses its two buckets for one bound, and its entry takes them. */
  function Refused(session: string): State {
    State(session, 1, [Inst(0, true, false, [Obs(1, 5.0)], {}, true, Some(Entry(Slice(1, 5.0, [0, 1]), 0)), [Obs(1, 5.0)], [], [], [Obs(1, 5.0)]), Inst(0, false, false, [], {}, false, None, [], [], [], [])], Taking(Silent, {1}), 1, None, [], [])
  }

  lemma ReachesRefused(session: string)
    ensures Reached(session, Refused(session))
  {
    ReachesHanded(session);
    var s := Handed(session);
    var s1 := s.(insts := [Inst(0, true, false, [Obs(1, 5.0)], {}, true, Some(Entry(Slice(1, 5.0, [0, 1]), 0)), [Obs(1, 5.0)], [], [], [Obs(1, 5.0)]), Inst(0, false, false, [], {}, false, None, [], [], [], [])], phase := Taking(Silent, {1}));
    assert [Obs(1, 5.0)][..0] == [] && [Obs(1, 5.0)][0..] == [Obs(1, 5.0)] && [] + [Obs(1, 5.0)] == [Obs(1, 5.0)];
    assert Read(s.insts[0], 1) == Slice(1, 5.0, [0, 1]);
    assert Live(s, 1, 0) && forall j: nat :: Live(s, j, 0) ==> j == 1;
    assert Apply(s, Check) == Merge(s, 0, 1);
    Extend(session, s, Check, s1);
  }

  /** An observation above all bounds, with an exemplar, in a child deleted and replaced: it
      is nowhere, neither delivered nor to be delivered. */
  lemma RefusalLosesObservations(session: string) returns (s: State)
    ensures Reached(session, s)
    ensures SaidOf(s.processed, 0, Count) == 0.0 && Total(s.insts, 0, Undelivered, Count) == 0.0 && Total(s.insts, 0, Made, Count) == 1.0
  {
    ReachesRefused(session);
    s := Refused(session);
    assert s.insts[..1][..0] == [];
  }

  // ---------------------------------------------------------------- said again above all bounds

  /** A child with one observation within its bound. */
  function Within(session: string): State {
    State(session, 1, [Inst(0, false, true, [Obs(0, 1.0)], {}, false, None, [Obs(0, 1.0)], [], [], [])], Resting, 0, None, [], [])
  }

  lemma ReachesWithin(session: string)
    ensures Reached(session, Within(session))
  {
    Begins(session);
    var s := Initial(session, 1);
    var s1 := s.(insts := [Inst(0, false, true, [], {}, false, None, [], [], [], [])]);
    Extend(session, s, Lookup(0), s1);
    var s2 := s1.(insts := [Inst(0, false, true, [Obs(0, 1.0)], {0}, false, None, [Obs(0, 1.0)], [], [], [])]);
    assert [] + [Obs(0, 1.0)] == [Obs(0, 1.0)] && {} + {0} == {0};
    Extend(session, s1, Observe(0, Obs(0, 1.0)), s2);
    var s3 := s2.(insts := [Inst(0, false, true, [Obs(0, 1.0)], {}, false, None, [Obs(0, 1.0)], [], [], [])]);
    assert {0} - {0} == {};
    Extend(session, s2, Enlist(0, 0), s3);
  }

  /** A scrape picks it. */
  function Picked(session: string): State {
    State(session, 1, [Inst(0, false, false, [Obs(0, 1.0)], {}, false, Some(Entry(NOTHING, 1)), [Obs(0, 1.0)], [], [], [])], Taking(Silent, {}), 1, None, [0], [])
  }

  lemma ReachesPicked(session: string)
    ensures Reached(session, Picked(session))
  {
    ReachesWithin(session);
    var s := Within(session);
    var s1 := s.(phase := Asked(Silent), round := 1);
    Extend(session, s, Request(Silent, false), s1);
    var s2 := s1.(insts := [Inst(0, false, false, [Obs(0, 1.0)], {}, false, None, [Obs(0, 1.0)], [], [], [])], phase := Taking(Silent, {0}));
    assert Listed(s1.insts) == {0};
    Extend(session, s1, Take, s2);
    var s3 := s2.(phase := Picking(Silent, {}, 0));
    assert {0} - {0} == {};
    Extend(session, s2, Hand(0), s3);
    var s4 := s3.(phase := Entering(Silent, {}, 0));
    Extend(session, s3, Check, s4);
    var s5 := s4.(insts := [Inst(0, false, false, [Obs(0, 1.0)], {}, false, Some(Entry(NOTHING, 1)), [Obs(0, 1.0)], [], [], [])], phase := Taking(Silent, {}), taken := [0]);
    Extend(session, s4, Enter, s5);
  }

  /** And delivers it. */
  function DeliveredOnce(session: string): State {
    State(session, 1, [Inst(0, false, false, [Obs(0, 1.0)], {}, false, Some(Entry(Slice(1, 1.0, [1]), 1)), [Obs(0, 1.0)], [], [], [])], Resting, 1, None, [], [Row(0, 0, 1, 1.0, [1])])
  }

  lemma ReachesDeliveredOnce(session: string)
    ensures Reached(session, DeliveredOnce(session))
  {
    ReachesPicked(session);
    var s := Picked(session);
    var s1 := s.(phase := Writing(Silent, [0], map[], []));
    Extend(session, s, Begin, s1);
    var s2 := s1.(phase := Writing(Silent, [], map[0 := Slice(1, 1.0, [1])], [Row(0, 0, 1, 1.0, [1])]));
    assert [Obs(0, 1.0)][..0] == [];
    assert Read(s1.insts[0], 1) == Slice(1, 1.0, [1]);
    assert RowOf(0, s1.insts[0], Slice(1, 1.0, [1])) == Row(0, 0, 1, 1.0, [1]);
    assert [0][1..] == [] && [] + [Row(0, 0, 1, 1.0, [1])] == [Row(0, 0, 1, 1.0, [1])];
    Extend(session, s1, Write, s2);
    var s3 := s2.(insts := [Inst(0, false, false, [Obs(0, 1.0)], {}, false, Some(Entry(Slice(1, 1.0, [1]), 1)), [Obs(0, 1.0)], [], [], [])], phase := Resting, taken := [], processed := [Row(0, 0, 1, 1.0, [1])]);
    Extend(session, s2, Finish(true), s3);
  }

  /** Then one is observed above the bound, with an exemplar. */
  function Above(session: string): State {
    State(session, 1, [Inst(0, false, true, [Obs(0, 1.0), Obs(1, 5.0)], {}, true, Some(Entry(Slice(1, 1.0, [1]), 1)), [Obs(0, 1.0), Obs(1, 5.0)], [], [], [])], Resting, 1, None, [], [Row(0, 0, 1, 1.0, [1])])
  }

  lemma ReachesAbove(session: string)
    ensures Reached(session, Above(session))
  {
    ReachesDeliveredOnce(session);
    var s := DeliveredOnce(session);
    var s1 := s.(insts := [Inst(0, false, false, [Obs(0, 1.0), Obs(1, 5.0)], {1}, false, Some(Entry(Slice(1, 1.0, [1]), 1)), [Obs(0, 1.0), Obs(1, 5.0)], [], [], [])]);
    assert [Obs(0, 1.0)] + [Obs(1, 5.0)] == [Obs(0, 1.0), Obs(1, 5.0)] && {} + {1} == {1};
    Extend(session, s, Observe(0, Obs(1, 5.0)), s1);
    var s2 := s1.(insts := [Inst(0, false, false, [Obs(0, 1.0), Obs(1, 5.0)], {1}, true, Some(Entry(Slice(1, 1.0, [1]), 1)), [Obs(0, 1.0), Obs(1, 5.0)], [], [], [])]);
    Extend(session, s1, Exemplify(0, 1), s2);
    var s3 := s2.(insts := [Inst(0, false, true, [Obs(0, 1.0), Obs(1, 5.0)], {}, true, Some(Entry(Slice(1, 1.0, [1]), 1)), [Obs(0, 1.0), Obs(1, 5.0)], [], [], [])]);
    assert {1} - {1} == {};
    Extend(session, s2, Enlist(0, 1), s3);
  }

  /** The next scrape picks it. */
  function PickedAgain(session: string): State {
    State(session, 1, [Inst(0, false, false, [Obs(0, 1.0), Obs(1, 5.0)], {}, true, Some(Entry(Slice(1, 1.0, [1]), 2)), [Obs(0, 1.0), Obs(1, 5.0)], [], [], [])], Taking(Silent, {}), 2, None, [0], [Row(0, 0, 1, 1.0, [1])])
  }

  lemma ReachesPickedAgain(session: string)
    ensures Reached(session, PickedAgain(session))
  {
    ReachesAbove(session);
    var s := Above(session);
    var s1 := s.(phase := Asked(Silent), round := 2);
    Extend(session, s, Request(Silent, false), s1);
    var s2 := s1.(insts := [Inst(0, false, false, [Obs(0, 1.0), Obs(1, 5.0)], {}, true, Some(Entry(Slice(1, 1.0, [1]), 1)), [Obs(0, 1.0), Obs(1, 5.0)], [], [], [])], phase := Taking(Silent, {0}));
    assert Listed(s1.insts) == {0};
    Extend(session, s1, Take, s2);
    var s3 := s2.(phase := Picking(Silent, {}, 0));
    assert {0} - {0} == {};
    Extend(session, s2, Hand(0), s3);
    var s4 := s3.(phase := Entering(Silent, {}, 0));
    Extend(session, s3, Check, s4);
    var s5 := s4.(insts := [Inst(0, false, false, [Obs(0, 1.0), Obs(1, 5.0)], {}, true, Some(Entry(Slice(1, 1.0, [1]), 2)), [Obs(0, 1.0), Obs(1, 5.0)], [], [], [])], phase := Taking(Silent, {}), taken := [0]);
    Extend(session, s4, Enter, s5);
  }

  /** Its row counts one, and says two above all bounds. */
  function SaidAgain(session: string): State {
    State(session, 1, [Inst(0, false, false, [Obs(0, 1.0), Obs(1, 5.0)], {}, true, Some(Entry(Slice(2, 6.0, [1, 2]), 2)), [Obs(0, 1.0), Obs(1, 5.0)], [], [], [])], Resting, 2, None, [], [Row(0, 0, 1, 1.0, [1]), Row(0, 0, 1, 5.0, [0, 2])])
  }

  lemma ReachesSaidAgain(session: string)
    ensures Reached(session, SaidAgain(session))
  {
    ReachesPickedAgain(session);
    var s := PickedAgain(session);
    var s1 := s.(phase := Writing(Silent, [0], map[], []));
    Extend(session, s, Begin, s1);
    var s2 := s1.(phase := Writing(Silent, [], map[0 := Slice(2, 6.0, [1, 2])], [Row(0, 0, 1, 5.0, [0, 2])]));
    assert [Obs(0, 1.0), Obs(1, 5.0)][..1] == [Obs(0, 1.0)] && [Obs(0, 1.0)][..0] == [];
    assert Read(s1.insts[0], 1) == Slice(2, 6.0, [1, 2]);
    assert RowOf(0, s1.insts[0], Slice(2, 6.0, [1, 2])) == Row(0, 0, 1, 5.0, [0, 2]);
    assert [0][1..] == [] && [] + [Row(0, 0, 1, 5.0, [0, 2])] == [Row(0, 0, 1, 5.0, [0, 2])];
    Extend(session, s1, Write, s2);
    var s3 := s2.(insts := [Inst(0, false, false, [Obs(0, 1.0), Obs(1, 5.0)], {}, true, Some(Entry(Slice(2, 6.0, [1, 2]), 2)), [Obs(0, 1.0), Obs(1, 5.0)], [], [], [])], phase := Resting, taken := [], processed := [Row(0, 0, 1, 1.0, [1]), Row(0, 0, 1, 5.0, [0, 2])]);
    assert [Row(0, 0, 1, 1.0, [1])] + [Row(0, 0, 1, 5.0, [0, 2])] == [Row(0, 0, 1, 1.0, [1]), Row(0, 0, 1, 5.0, [0, 2])];
    Extend(session, s2, Finish(true), s3);
  }

  /** A first observation above all bounds with an exemplar: of two observations the scraper
      has counted two, and three at or below infinity. */
  lemma AboveSaysMore(session: string) returns (s: State)
    ensures Reached(session, s)
    ensures Total(s.insts, 0, Made, Count) == 2.0 && SaidOf(s.processed, 0, Count) == 2.0 && SaidOf(s.processed, 0, Below(1)) == 3.0
  {
    ReachesSaidAgain(session);
    s := SaidAgain(session);
    assert [Row(0, 0, 1, 1.0, [1]), Row(0, 0, 1, 5.0, [0, 2])][..1] == [Row(0, 0, 1, 1.0, [1])] && [Row(0, 0, 1, 1.0, [1])][..0] == [];
  }
}
