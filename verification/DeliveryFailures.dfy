/** What goes wrong where the soundness conditions of Delivery do not hold, as
    concrete runs of the exposer from its start.

    In the first run a child is deleted between the two looks pick takes at it: it
    is not deleted yet when pick asks, and has no entry any more when pick looks that
    up.  Its write is not reported, and it is not enlisted again.

    In the second a round is held for acknowledgement when its child is deleted and
    replaced by a new one; a write to the deleted child makes a peek move all the old
    child had not delivered into the new one, including what the held round carries.
    The scraper processes both.

    Each function below is a state on the way, and the lemma beside it says that the
    steps named in its body lead there. */
module DeliveryFailures {
  import opened Helpers
  import opened Acks
  import opened Delivery

  ghost predicate Possible(s: State, e: Event, s': State) { Enabled(s, e) && Apply(s, e) == s' }

  ghost predicate Happens(run: seq<State>, events: seq<Event>) {
    |run| == |events| + 1 && forall n :: 0 <= n < |events| ==> Possible(run[n], events[n], run[n + 1])
  }

  /** Some run of the exposer, sound or not, ends in s. */
  ghost predicate Reached(session: string, s: State) {
    exists run, events :: Happens(run, events) && run[0] == Initial(session) && run[|run| - 1] == s
  }

  lemma Start(session: string)
    ensures Reached(session, State(session, [], Resting, 0, None, [], {}, map[], 0, {}))
  {
    assert Happens([Initial(session)], []);
  }

  lemma Extend(session: string, s: State, e: Event, s': State)
    requires Reached(session, s) && Possible(s, e, s')
    ensures Reached(session, s')
  {
    var run, events :| Happens(run, events) && run[0] == Initial(session) && run[|run| - 1] == s;
    assert Happens(run + [s'], events + [e]);
  }

  /** What the second pass makes of a single instance picked. */
  lemma OnePicked(insts: seq<Inst>, i: nat)
    requires i < |insts| && Changed(insts[i])
    ensures Rows(insts, [i]) == [Row(i, insts[i].key, insts[i].atCut - Delivered(insts[i]))]
    ensures Pending(insts, [i]) == map[i := insts[i].atCut]
  {
    assert [i][..0] == [] && Rows(insts, []) == [];
    assert forall k: nat :: k in [i] <==> k == i;
  }

  // ---------------------------------------------------------------- the race with a deletion

  /** A child with one write. */
  function Written(session: string): State {
    State(session, [Inst(0, false, true, 5.0, 0.0, [], [], 0.0, None, 5.0, 0.0, 0.0, 0.0)], Resting, 0, None, [], {}, map[], 0, {})
  }

  lemma ReachesWritten(session: string)
    ensures Reached(session, Written(session))
  {
    Start(session);
    var s := Initial(session);
    var s1 := s.(insts := [Inst(0, false, true, 0.0, 0.0, [], [], 0.0, None, 0.0, 0.0, 0.0, 0.0)]);
    Extend(session, s, Lookup(0), s1);
    var s2 := s1.(insts := [s1.insts[0].(open := 5.0, busy := [5.0], made := 5.0)]);
    assert Added(s1.insts[0], 5.0, false) == s2.insts[0];
    Extend(session, s1, Add(0, 5.0, false), s2);
    var s3 := s2.(insts := [s2.insts[0].(busy := [])]);
    assert Without([5.0], 0) == [];
    Extend(session, s2, Enlist(0, 0, false), s3);
  }

  /** A scrape starts. */
  function Requested(session: string): State {
    State(session, [Inst(0, false, true, 5.0, 0.0, [], [], 0.0, None, 5.0, 0.0, 0.0, 0.0)], Cutting(Silent), 1, None, [], {}, map[], 0, {})
  }

  lemma ReachesRequested(session: string)
    ensures Reached(session, Requested(session))
  {
    ReachesWritten(session);
    var s := Written(session);
    var s1 := s.(phase := Cutting(Silent), round := 1);
    Extend(session, s, Request(Silent, false, {}), s1);
  }

  /** Take has folded it and hands it to pick. */
  function Handed(session: string): State {
    State(session, [Inst(0, false, false, 0.0, 0.0, [], [], 5.0, None, 5.0, 0.0, 0.0, 0.0)], Picking(Silent, {}, 0), 1, None, [], {}, map[], 0, {})
  }

  lemma ReachesHanded(session: string)
    ensures Reached(session, Handed(session))
  {
    ReachesRequested(session);
    var s := Requested(session);
    var s1 := s.(insts := [s.insts[0].(open := 0.0, closed := 5.0)], phase := Swapping(Silent));
    Extend(session, s, Cut, s1);
    var s2 := s1.(insts := [s1.insts[0].(dirty := false)], phase := Taking(Silent, {0}));
    assert Listed(s1.insts) == {0};
    Extend(session, s1, Swap, s2);
    var s3 := s2.(insts := [s2.insts[0].(closed := 0.0, atCut := 5.0)], phase := Picking(Silent, {}, 0));
    assert {0} - {0} == {};
    Extend(session, s2, Hand(0), s3);
  }

  /** pick has asked whether it is deleted; then it is, and pick finds no entry for it. */
  function Deleted(session: string): State {
    State(session, [Inst(0, true, false, 0.0, 0.0, [], [], 5.0, None, 5.0, 0.0, 0.0, 0.0)], Taking(Silent, {}), 1, None, [], {}, map[], 0, {0})
  }

  lemma ReachesDeleted(session: string)
    ensures Reached(session, Deleted(session))
  {
    ReachesHanded(session);
    var s := Handed(session);
    var s1 := s.(phase := Entering(Silent, {}, 0));
    Extend(session, s, Check, s1);
    var s2 := s1.(insts := [s1.insts[0].(dead := true)]);
    Extend(session, s1, Delete(0), s2);
    var s3 := s2.(phase := Taking(Silent, {}), skipped := {0});
    Extend(session, s2, Enter, s3);
  }

  /** The scrape ends with nothing reported. */
  function Lost(session: string): State {
    State(session, [Inst(0, true, false, 0.0, 0.0, [], [], 5.0, None, 5.0, 0.0, 0.0, 0.0)], Resting, 1, None, [], {}, map[], 1, {0})
  }

  lemma ReachesLost(session: string)
    ensures Reached(session, Lost(session))
  {
    ReachesDeleted(session);
    var s := Deleted(session);
    var s1 := s.(phase := Sending(Silent, map[], []));
    Extend(session, s, SecondPass, s1);
    var s2 := s1.(phase := Dropping, last := 1);
    Extend(session, s1, Finish(true), s2);
    var s3 := s2.(phase := Resting);
    Extend(session, s2, Done, s3);
  }

  /** A child deleted between the two looks pick takes at it: its write, made before
      the deletion, is neither reported nor listed nor held. */
  lemma DeletionRaceLosesWrites(session: string) returns (s: State)
    ensures Reached(session, s)
    ensures s.phase.Resting? && s.held.None? && forall d <- s.insts :: !d.dirty
    ensures SumOf(s.sums, 0) == 0.0 && SumBy(s.insts, 0, Made) == 5.0
  {
    ReachesLost(session);
    s := Lost(session);
  }

  // ---------------------------------------------------------------- the peek that merges

  /** A scraper that acknowledges asks for it. */
  function RoundStarted(session: string): State {
    State(session, [Inst(0, false, true, 5.0, 0.0, [], [], 0.0, None, 5.0, 0.0, 0.0, 0.0)], Cutting(New), 1, None, [], {}, map[], 0, {})
  }

  lemma ReachesRoundStarted(session: string)
    ensures Reached(session, RoundStarted(session))
  {
    ReachesWritten(session);
    var s := Written(session);
    var s1 := s.(phase := Cutting(New), round := 1);
    Extend(session, s, Request(New, false, {}), s1);
  }

  /** The child is handed to pick. */
  function RoundHanded(session: string): State {
    State(session, [Inst(0, false, false, 0.0, 0.0, [], [], 5.0, None, 5.0, 0.0, 0.0, 0.0)], Picking(New, {}, 0), 1, None, [], {}, map[], 0, {})
  }

  lemma ReachesRoundHanded(session: string)
    ensures Reached(session, RoundHanded(session))
  {
    ReachesRoundStarted(session);
    var s := RoundStarted(session);
    var s1 := s.(insts := [s.insts[0].(open := 0.0, closed := 5.0)], phase := Swapping(New));
    Extend(session, s, Cut, s1);
    var s2 := s1.(insts := [s1.insts[0].(dirty := false)], phase := Taking(New, {0}));
    assert Listed(s1.insts) == {0};
    Extend(session, s1, Swap, s2);
    var s3 := s2.(insts := [s2.insts[0].(closed := 0.0, atCut := 5.0)], phase := Picking(New, {}, 0));
    assert {0} - {0} == {};
    Extend(session, s2, Hand(0), s3);
  }

  /** Its increment is on the wire. */
  function RoundSent(session: string): State {
    State(session, [Inst(0, false, false, 0.0, 0.0, [], [], 5.0, Some(Entry(0.0, 1, 1)), 5.0, 0.0, 0.0, 0.0)], Sending(New, map[0 := 5.0], [Row(0, 0, 5.0)]), 1, None, [0], {}, map[], 0, {})
  }

  lemma ReachesRoundSent(session: string)
    ensures Reached(session, RoundSent(session))
  {
    ReachesRoundHanded(session);
    var s := RoundHanded(session);
    var s1 := s.(phase := Entering(New, {}, 0));
    Extend(session, s, Check, s1);
    var s2 := s1.(insts := [s1.insts[0].(entry := Some(Entry(0.0, 1, 1)))], phase := Taking(New, {}), taken := [0]);
    Extend(session, s1, Enter, s2);
    var s3 := s2.(phase := Sending(New, map[0 := 5.0], [Row(0, 0, 5.0)]));
    OnePicked(s2.insts, 0);
    Extend(session, s2, SecondPass, s3);
  }

  /** The round is held, and the scraper has processed it. */
  function RoundHeld(session: string): State {
    State(session, [Inst(0, false, false, 0.0, 0.0, [], [], 5.0, Some(Entry(0.0, 1, 1)), 5.0, 0.0, 0.0, 5.0)], Resting, 1, Some(Held(1, map[0 := 5.0], [Row(0, 0, 5.0)], true, {})), [], {}, map[0 := 5.0], 1, {})
  }

  lemma ReachesRoundHeld(session: string)
    ensures Reached(session, RoundHeld(session))
  {
    ReachesRoundSent(session);
    var s := RoundSent(session);
    var s1 := s.(phase := Dropping, held := Some(Held(1, map[0 := 5.0], [Row(0, 0, 5.0)], false, {})), taken := []);
    Extend(session, s, Finish(true), s1);
    var s2 := s1.(phase := Resting);
    Extend(session, s1, Done, s2);
    var s3 := s2.(insts := [s2.insts[0].(seen := 5.0)], held := Some(Held(1, map[0 := 5.0], [Row(0, 0, 5.0)], true, {})), sums := map[0 := 5.0], last := 1);
    Extend(session, s2, Receive, s3);
  }

  /** The child is deleted, a new one created, and the old one written to. */
  function Replaced(session: string): State {
    State(session, [Inst(0, true, true, 2.0, 0.0, [], [], 5.0, Some(Entry(0.0, 1, 1)), 7.0, 0.0, 0.0, 5.0), Inst(0, false, true, 0.0, 0.0, [], [], 0.0, None, 0.0, 0.0, 0.0, 0.0)], Resting, 1, Some(Held(1, map[0 := 5.0], [Row(0, 0, 5.0)], true, {})), [], {}, map[0 := 5.0], 1, {})
  }

  lemma ReachesReplaced(session: string)
    ensures Reached(session, Replaced(session))
  {
    ReachesRoundHeld(session);
    var s := RoundHeld(session);
    var s1 := s.(insts := [s.insts[0].(dead := true)]);
    Extend(session, s, Delete(0), s1);
    var s2 := s1.(insts := [s1.insts[0], Inst(0, false, true, 0.0, 0.0, [], [], 0.0, None, 0.0, 0.0, 0.0, 0.0)]);
    Extend(session, s1, Lookup(0), s2);
    var s3 := s2.(insts := [s2.insts[0].(open := 2.0, busy := [2.0], made := 7.0), s2.insts[1]]);
    assert Added(s2.insts[0], 2.0, false) == s3.insts[0];
    Extend(session, s2, Add(0, 2.0, false), s3);
    var s4 := s3.(insts := [s3.insts[0].(dirty := true, busy := []), s3.insts[1]]);
    assert Without([2.0], 0) == [];
    Extend(session, s3, Enlist(0, 0, false), s4);
  }

  /** A peek takes both. */
  function PeekTakes(session: string): State {
    State(session, [Inst(0, true, false, 0.0, 2.0, [], [], 5.0, Some(Entry(0.0, 1, 1)), 7.0, 0.0, 0.0, 5.0), Inst(0, false, false, 0.0, 0.0, [], [], 0.0, None, 0.0, 0.0, 0.0, 0.0)], Taking(Peek, {0, 1}), 2, Some(Held(1, map[0 := 5.0], [Row(0, 0, 5.0)], true, {})), [], {}, map[0 := 5.0], 1, {})
  }

  lemma ReachesPeekTakes(session: string)
    ensures Reached(session, PeekTakes(session))
  {
    ReachesReplaced(session);
    var s := Replaced(session);
    var s1 := s.(phase := Cutting(Peek), round := 2);
    Extend(session, s, Request(Peek, false, {}), s1);
    var s2 := s1.(insts := [s1.insts[0].(open := 0.0, closed := 2.0), s1.insts[1]], phase := Swapping(Peek));
    Extend(session, s1, Cut, s2);
    var s3 := s2.(insts := [s2.insts[0].(dirty := false), s2.insts[1].(dirty := false)], phase := Taking(Peek, {0, 1}));
    assert Listed(s2.insts) == {0, 1};
    Extend(session, s2, Swap, s3);
  }

  /** The old one goes into the new one, with all it has not delivered: with what the held round carries. */
  function PeekMerged(session: string): State {
    State(session, [Inst(0, true, false, 0.0, 0.0, [], [], 7.0, Some(Entry(7.0, 1, 1)), 7.0, 0.0, 7.0, 5.0), Inst(0, false, true, 0.0, 0.0, [], [], 7.0, None, 0.0, 7.0, 0.0, 0.0)], Picking(Peek, {1}, 1), 2, Some(Held(1, map[0 := 5.0], [Row(0, 0, 5.0)], true, {0})), [], {}, map[0 := 5.0], 1, {})
  }

  lemma ReachesPeekMerged(session: string)
    ensures Reached(session, PeekMerged(session))
  {
    ReachesPeekTakes(session);
    var s := PeekTakes(session);
    var s1 := s.(insts := [s.insts[0].(closed := 0.0, atCut := 7.0), s.insts[1]], phase := Picking(Peek, {1}, 0));
    assert {0, 1} - {0} == {1};
    Extend(session, s, Hand(0), s1);
    var s2 := s1.(insts := [s1.insts[0].(entry := Some(Entry(7.0, 1, 1)), out := 7.0), s1.insts[1].(dirty := true, atCut := 7.0, moved := 7.0)], phase := Picking(Peek, {1}, 1),
      held := Some(s1.held.value.(spoiled := {0})));
    assert {} + {0} == {0};
    assert Live(s1, 1, 0) && forall j: nat :: Live(s1, j, 0) ==> j == 1;
    Extend(session, s1, Check, s2);
  }

  /** The new one is picked. */
  function PeekPicked(session: string): State {
    State(session, [Inst(0, true, false, 0.0, 0.0, [], [], 7.0, Some(Entry(7.0, 1, 1)), 7.0, 0.0, 7.0, 5.0), Inst(0, false, true, 0.0, 0.0, [], [], 7.0, Some(Entry(0.0, 2, 2)), 0.0, 7.0, 0.0, 0.0)], Picking(Peek, {}, 1), 2, Some(Held(1, map[0 := 5.0], [Row(0, 0, 5.0)], true, {0})), [1], {}, map[0 := 5.0], 1, {})
  }

  lemma ReachesPeekPicked(session: string)
    ensures Reached(session, PeekPicked(session))
  {
    ReachesPeekMerged(session);
    var s := PeekMerged(session);
    var s1 := s.(phase := Entering(Peek, {1}, 1));
    Extend(session, s, Check, s1);
    var s2 := s1.(insts := [s1.insts[0], s1.insts[1].(entry := Some(Entry(0.0, 2, 2)))], phase := Taking(Peek, {1}), taken := [1]);
    Extend(session, s1, Enter, s2);
    var s3 := s2.(phase := Picking(Peek, {}, 1));
    assert {1} - {1} == {};
    Extend(session, s2, Hand(1), s3);
  }

  /** It is on the wire. */
  function PeekSent(session: string): State {
    State(session, [Inst(0, true, false, 0.0, 0.0, [], [], 7.0, Some(Entry(7.0, 1, 1)), 7.0, 0.0, 7.0, 5.0), Inst(0, false, true, 0.0, 0.0, [], [], 7.0, Some(Entry(0.0, 2, 2)), 0.0, 7.0, 0.0, 0.0)], Sending(Peek, map[1 := 7.0], [Row(1, 0, 7.0)]), 2, Some(Held(1, map[0 := 5.0], [Row(0, 0, 5.0)], true, {0})), [1], {}, map[0 := 5.0], 1, {})
  }

  lemma ReachesPeekSent(session: string)
    ensures Reached(session, PeekSent(session))
  {
    ReachesPeekPicked(session);
    var s := PeekPicked(session);
    var s1 := s.(phase := Entering(Peek, {}, 1));
    Extend(session, s, Check, s1);
    var s2 := s1.(phase := Taking(Peek, {}));
    Extend(session, s1, Enter, s2);
    var s3 := s2.(phase := Sending(Peek, map[1 := 7.0], [Row(1, 0, 7.0)]));
    OnePicked(s2.insts, 1);
    Extend(session, s2, SecondPass, s3);
  }

  /** Nothing is held of a peek. */
  function PeekDone(session: string): State {
    State(session, [Inst(0, true, false, 0.0, 0.0, [], [], 7.0, Some(Entry(7.0, 1, 1)), 7.0, 0.0, 7.0, 5.0), Inst(0, false, true, 0.0, 0.0, [], [], 7.0, Some(Entry(0.0, 2, 2)), 0.0, 7.0, 0.0, 0.0)], Resting, 2, Some(Held(1, map[0 := 5.0], [Row(0, 0, 5.0)], true, {0})), [], {}, map[0 := 5.0], 1, {})
  }

  lemma ReachesPeekDone(session: string)
    ensures Reached(session, PeekDone(session))
  {
    ReachesPeekSent(session);
    var s := PeekSent(session);
    var s1 := s.(phase := Dropping, taken := []);
    Extend(session, s, Finish(true), s1);
    var s2 := s1.(phase := Resting);
    Extend(session, s1, Done, s2);
  }

  /** The held round is acknowledged, and committed to the old child. */
  function Acknowledged(session: string): State {
    State(session, [Inst(0, true, false, 0.0, 0.0, [], [], 7.0, Some(Entry(5.0, 1, 1)), 7.0, 0.0, 7.0, 5.0), Inst(0, false, false, 0.0, 0.0, [], [], 7.0, Some(Entry(0.0, 2, 2)), 0.0, 7.0, 0.0, 0.0)], Taking(Last(session, 1), {1}), 3, None, [], {}, map[0 := 5.0], 1, {})
  }

  lemma ReachesAcknowledged(session: string)
    ensures Reached(session, Acknowledged(session))
  {
    ReachesPeekDone(session);
    var s := PeekDone(session);
    var s1 := s.(insts := [s.insts[0].(entry := Some(Entry(5.0, 1, 1))), s.insts[1]], phase := Cutting(Last(session, 1)), round := 3, held := None);
    Extend(session, s, Request(Last(session, 1), false, {}), s1);
    var s2 := s1.(phase := Swapping(Last(session, 1)));
    Extend(session, s1, Cut, s2);
    var s3 := s2.(insts := [s2.insts[0], s2.insts[1].(dirty := false)], phase := Taking(Last(session, 1), {1}));
    assert Listed(s2.insts) == {1};
    Extend(session, s2, Swap, s3);
  }

  /** The next round picks the new one. */
  function NextHanded(session: string): State {
    State(session, [Inst(0, true, false, 0.0, 0.0, [], [], 7.0, Some(Entry(5.0, 1, 1)), 7.0, 0.0, 7.0, 5.0), Inst(0, false, false, 0.0, 0.0, [], [], 7.0, Some(Entry(0.0, 2, 2)), 0.0, 7.0, 0.0, 0.0)], Entering(Last(session, 1), {}, 1), 3, None, [], {}, map[0 := 5.0], 1, {})
  }

  lemma ReachesNextHanded(session: string)
    ensures Reached(session, NextHanded(session))
  {
    ReachesAcknowledged(session);
    var s := Acknowledged(session);
    var s1 := s.(phase := Picking(Last(session, 1), {}, 1));
    assert {1} - {1} == {};
    Extend(session, s, Hand(1), s1);
    var s2 := s1.(phase := Entering(Last(session, 1), {}, 1));
    Extend(session, s1, Check, s2);
  }

  /** It reports all of it. */
  function NextSent(session: string): State {
    State(session, [Inst(0, true, false, 0.0, 0.0, [], [], 7.0, Some(Entry(5.0, 1, 1)), 7.0, 0.0, 7.0, 5.0), Inst(0, false, false, 0.0, 0.0, [], [], 7.0, Some(Entry(0.0, 3, 3)), 0.0, 7.0, 0.0, 0.0)], Sending(Last(session, 1), map[1 := 7.0], [Row(1, 0, 7.0)]), 3, None, [1], {}, map[0 := 5.0], 1, {})
  }

  lemma ReachesNextSent(session: string)
    ensures Reached(session, NextSent(session))
  {
    ReachesNextHanded(session);
    var s := NextHanded(session);
    var s1 := s.(insts := [s.insts[0], s.insts[1].(entry := Some(Entry(0.0, 2, 3)))], phase := Taking(Last(session, 1), {}), taken := [1]);
    Extend(session, s, Enter, s1);
    var s2 := s1.(insts := [s1.insts[0], s1.insts[1].(entry := Some(Entry(0.0, 3, 3)))], phase := Sending(Last(session, 1), map[1 := 7.0], [Row(1, 0, 7.0)]));
    OnePicked(s1.insts, 1);
    Extend(session, s1, SecondPass, s2);
  }

  /** The scraper has processed the first write twice. */
  function CountedTwice(session: string): State {
    State(session, [Inst(0, true, false, 0.0, 0.0, [], [], 7.0, Some(Entry(5.0, 1, 1)), 7.0, 0.0, 7.0, 5.0), Inst(0, false, false, 0.0, 0.0, [], [], 7.0, Some(Entry(0.0, 3, 3)), 0.0, 7.0, 0.0, 7.0)], Resting, 3, Some(Held(3, map[1 := 7.0], [Row(1, 0, 7.0)], true, {})), [], {}, map[0 := 12.0], 3, {})
  }

  lemma ReachesCountedTwice(session: string)
    ensures Reached(session, CountedTwice(session))
  {
    ReachesNextSent(session);
    var s := NextSent(session);
    var s1 := s.(phase := Dropping, held := Some(Held(3, map[1 := 7.0], [Row(1, 0, 7.0)], false, {})), taken := []);
    Extend(session, s, Finish(true), s1);
    var s2 := s1.(phase := Resting);
    Extend(session, s1, Done, s2);
    var s3 := s2.(insts := [s2.insts[0], s2.insts[1].(seen := 7.0)], held := Some(Held(3, map[1 := 7.0], [Row(1, 0, 7.0)], true, {})), sums := map[0 := 12.0], last := 3);
    Extend(session, s2, Receive, s3);
  }

  /** A peek that merges a deleted instance the held round carries: what the round
      already delivered is moved to the newer instance and delivered again. */
  lemma PeekDoubleCounts(session: string) returns (s: State)
    ensures Reached(session, s)
    ensures SumOf(s.sums, 0) == 12.0 && SumBy(s.insts, 0, Made) == 7.0
  {
    ReachesCountedTwice(session);
    s := CountedTwice(session);
  }
}
