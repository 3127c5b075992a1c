module HistogramTheorems {
  // What delta exposition delivers of classic histograms, over every run of its steps, and
  // the two ways an exemplar above all bounds breaks it, with their exact conditions.

  import opened Helpers
  import opened Acks
  import opened HistogramDelivery

  // ---------------------------------------------------------------- from instances to keys

  /** History: what the rows say of the instances of a key. */
  function SaidTotal(insts: seq<Inst>, rows: seq<Row>, key: nat, c: Part): real {
    if insts == [] then 0.0
    else
      var n := |insts| - 1;
      SaidTotal(insts[..n], rows, key, c) + if insts[n].key == key then Said(rows, n, c) else 0.0
  }

  lemma SaidTotalLast(insts: seq<Inst>, rows: seq<Row>, key: nat, c: Part)
    requires rows != []
    ensures var r := rows[|rows| - 1];
      SaidTotal(insts, rows, key, c) == SaidTotal(insts, rows[..|rows| - 1], key, c)
        + if r.inst < |insts| && insts[r.inst].key == key then Line(r, c) else 0.0
  {
    if insts != [] { SaidTotalLast(insts[..|insts| - 1], rows, key, c); }
  }

  lemma SaidByInst(insts: seq<Inst>, rows: seq<Row>, key: nat, c: Part)
    requires forall r <- rows :: r.inst < |insts| && r.key == insts[r.inst].key
    ensures SaidOf(rows, key, c) == SaidTotal(insts, rows, key, c)
  {
    if rows == [] {
      SaidNothing(insts, key, c);
    } else {
      assert rows[|rows| - 1] in rows;
      SaidByInst(insts, rows[..|rows| - 1], key, c);
      SaidTotalLast(insts, rows, key, c);
    }
  }

  lemma SaidNothing(insts: seq<Inst>, key: nat, c: Part)
    ensures SaidTotal(insts, [], key, c) == 0.0
  {
    if insts != [] { SaidNothing(insts[..|insts| - 1], key, c); }
  }

  lemma SaidAddsUp(insts: seq<Inst>, processed: seq<Row>, held: seq<Row>, key: nat, c: Part)
    requires forall i :: 0 <= i < |insts| ==>
      Said(processed, i, c) == Amount(insts[i], Delivered, c) - Amount(insts[i], Out, c) - Amount(insts[i], Lost, c) + Said(held, i, c)
    ensures SaidTotal(insts, processed, key, c) ==
      Total(insts, key, Delivered, c) - Total(insts, key, Out, c) - Total(insts, key, Lost, c) + SaidTotal(insts, held, key, c)
  {
    if insts != [] { SaidAddsUp(insts[..|insts| - 1], processed, held, key, c); }
  }

  // ---------------------------------------------------------------- what every run delivers

  lemma ExactlyOnceHere(s: State, key: nat, c: Part)
    requires Inv(s) && Finite(c, s.bounds)
    ensures SaidOf(s.processed, key, c) ==
      Total(s.insts, key, Delivered, c) - Total(s.insts, key, Out, c) - Total(s.insts, key, Lost, c) + SaidOf(HeldRows(s), key, c)
  {
    forall i | 0 <= i < |s.insts|
      ensures Said(s.processed, i, c) ==
        Amount(s.insts[i], Delivered, c) - Amount(s.insts[i], Out, c) - Amount(s.insts[i], Lost, c) + Said(HeldRows(s), i, c)
    {
      assert SaidOk(s, i);
    }
    SaidAddsUp(s.insts, s.processed, HeldRows(s), key, c);
    SaidByInst(s.insts, s.processed, key, c);
    SaidByInst(s.insts, HeldRows(s), key, c);
  }

  /** Exactly once.  In every run, for the count, the sum and every bucket of a finite bound
      of a label set: what the scraper has added up is what was delivered of its instances,
      less what settleDeleted took another way, and the held round's part if it processed it. */
  lemma ExactlyOnce(run: seq<State>, events: seq<Event>, n: nat, key: nat, c: Part)
    requires Run(run, events) && n < |run| && Finite(c, run[n].bounds)
    ensures var s := run[n];
      SaidOf(s.processed, key, c) ==
        Total(s.insts, key, Delivered, c) - Total(s.insts, key, Out, c) - Total(s.insts, key, Lost, c) + SaidOf(HeldRows(s), key, c)
  {
    RunKeeps(run, events, n);
    ExactlyOnceHere(run[n], key, c);
  }

  lemma WholeHere(insts: seq<Inst>, key: nat, c: Part, bounds: nat)
    requires Finite(c, bounds) && forall i :: 0 <= i < |insts| ==> LogOk(insts[i], bounds)
    ensures Total(insts, key, Made, c) + Total(insts, key, Moved, c) == Total(insts, key, Delivered, c) + Total(insts, key, Undelivered, c)
  {
    if insts != [] {
      var n := |insts| - 1;
      WholeHere(insts[..n], key, c, bounds);
      WholeInst(insts[n], c, bounds);
    }
  }

  lemma WholeInst(d: Inst, c: Part, bounds: nat)
    requires Finite(c, bounds) && LogOk(d, bounds)
    ensures Tally(d.made, c) + Tally(d.moved, c) == PartOf(Given(d), c) + Tally(Left(d), c)
  {
    assert d.log == d.log[..Given(d).count] + Left(d);
    TallyAppend(d.log[..Given(d).count], Left(d), c);
    ReadsPart(Given(d), d, bounds, c);
  }

  lemma ConservationHere(s: State, key: nat, c: Part)
    requires Inv(s) && Finite(c, s.bounds)
    ensures SaidOf(s.processed, key, c) + Total(s.insts, key, Undelivered, c) + Total(s.insts, key, Lost, c)
         == Total(s.insts, key, Made, c) + SaidOf(HeldRows(s), key, c)
  {
    ExactlyOnceHere(s, key, c);
    WholeHere(s.insts, key, c, s.bounds);
  }

  /** Conservation.  What the scraper has added up for a label set, what is not delivered of
      its instances and what AddTrackedHistogram refused is all that clients observed under
      it, and what the scraper has processed ahead of the commit: in number, in sum, and at
      or below every bound. */
  lemma Conservation(run: seq<State>, events: seq<Event>, n: nat, key: nat, c: Part)
    requires Run(run, events) && n < |run| && Finite(c, run[n].bounds)
    ensures var s := run[n];
      SaidOf(s.processed, key, c) + Total(s.insts, key, Undelivered, c) + Total(s.insts, key, Lost, c)
        == Total(s.insts, key, Made, c) + SaidOf(HeldRows(s), key, c)
  {
    RunKeeps(run, events, n);
    ConservationHere(run[n], key, c);
  }

  /** Nothing is forgotten.  Every observation of an instance that is not listed, between
      scrapes, is delivered, carried by the held round, or still in progress; unless that
      round can only be rolled back, which lists the instance. */
  lemma NothingForgotten(run: seq<State>, events: seq<Event>, n: nat, i: nat, k: nat)
    requires Run(run, events) && n < |run| && run[n].phase.Resting? && i < |run[n].insts|
    requires !run[n].insts[i].dirty && !Spoiled(run[n], i) && k < |run[n].insts[i].log|
    ensures var s := run[n];
      k < Given(s.insts[i]).count || (i in Values(s) && k < Values(s)[i].count) || k in s.insts[i].busy
  {
    RunKeeps(run, events, n);
    assert Due(run[n], i);
  }

  /** So once nothing is listed, held or in progress, the scraper has every observation but
      those refused. */
  lemma EverythingArrives(run: seq<State>, events: seq<Event>, n: nat, key: nat, c: Part)
    requires Run(run, events) && n < |run| && run[n].phase.Resting? && run[n].held.None? && Finite(c, run[n].bounds)
    requires forall d <- run[n].insts :: !d.dirty && d.busy == {}
    ensures SaidOf(run[n].processed, key, c) + Total(run[n].insts, key, Lost, c) == Total(run[n].insts, key, Made, c)
  {
    var s := run[n];
    RunKeeps(run, events, n);
    ConservationHere(s, key, c);
    forall i | 0 <= i < |s.insts| ensures Left(s.insts[i]) == [] {
      assert LogOk(s.insts[i], s.bounds);
      var k := Given(s.insts[i]).count;
      if k < |s.insts[i].log| { NothingForgotten(run, events, n, i, k); }
    }
    NothingLeft(s.insts, key, c);
  }

  lemma NothingLeft(insts: seq<Inst>, key: nat, c: Part)
    requires forall i :: 0 <= i < |insts| ==> Left(insts[i]) == []
    ensures Total(insts, key, Undelivered, c) == 0.0
  {
    if insts != [] { NothingLeft(insts[..|insts| - 1], key, c); }
  }

  /** A round is complete.  When everything picked is written, the response to anything but
      a peek says of every instance not listed since the Take all that was observed in it and
      not delivered, but for what is in progress. */
  lemma RoundIsComplete(run: seq<State>, events: seq<Event>, n: nat, i: nat, c: Part)
    requires Run(run, events) && n < |run| && run[n].phase.Writing? && run[n].phase.left == [] && !run[n].phase.ack.Peek?
    requires i < |run[n].insts| && !run[n].insts[i].dirty && Finite(c, run[n].bounds)
    ensures var s := run[n]; var d := s.insts[i];
      && Given(d).count <= Top(s, i) <= |d.log|
      && Said(s.phase.rows, i, c) == Tally(d.log[Given(d).count..Top(s, i)], c)
      && (forall k :: Top(s, i) <= k < |d.log| ==> k in d.busy)
  {
    var s := run[n];
    RunKeeps(run, events, n);
    var d := s.insts[i];
    assert Due(s, i) && LogOk(d, s.bounds);
    if i in s.phase.pending {
      var g, w := Given(d), s.phase.pending[i];
      ReadsPart(g, d, s.bounds, c);
      ReadsPart(w, d, s.bounds, c);
      assert d.log[..w.count] == d.log[..g.count] + d.log[g.count..w.count];
      TallyAppend(d.log[..g.count], d.log[g.count..w.count], c);
    }
  }

  // ---------------------------------------------------------------- what settleDeleted moves

  /** What AddTrackedHistogram is handed is the observations not delivered, as cumulative
      counts: their number, their sum, and for each bound how many are at or below it, which
      does not decrease with the bound. */
  lemma TrackedIsLeft(d: Inst, bounds: nat, b: nat)
    requires LogOk(d, bounds) && b < bounds
    ensures var cum := Less(Read(d, bounds), Given(d));
      && cum[b] == AtMost(Left(d), b) && (b + 1 < bounds ==> cum[b] <= cum[b + 1])
      && Read(d, bounds).count - Given(d).count == |Left(d)| && Read(d, bounds).sum - Given(d).sum == SumOf(Left(d))
  {
    RowPart(0, d, bounds, Below(b));
    RowPart(0, d, bounds, Sum);
    if b + 1 < bounds {
      RowPart(0, d, bounds, Below(b + 1));
      AtMostGrows(Left(d), b);
    }
  }

  lemma AtMostGrows(log: seq<Obs>, b: nat)
    ensures AtMost(log, b) <= AtMost(log, b + 1)
  {
    if log != [] { AtMostGrows(log[..|log| - 1], b); }
  }

  /** It takes them exactly if there are some and the deleted instance has no exemplar above
      all bounds. */
  lemma AcceptsIff(d: Inst, bounds: nat)
    requires LogOk(d, bounds)
    ensures Accepts(d, bounds) <==> Left(d) != [] && !d.exemplar
  {
  }

  /** Settling a deleted instance loses nothing if and only if it has nothing undelivered or
      no such exemplar; otherwise it loses everything undelivered, in every line. */
  lemma SettledIff(s: State, i: nat, j: nat, c: Part)
    requires Inv(s) && s.phase.Picking? && i == s.phase.inst < |s.insts| && j < |s.insts|
    requires s.insts[i].dead && Live(s, j, s.insts[i].key)
    ensures var t, d := Merge(s, i, j), s.insts[i];
      && Total(t.insts, d.key, Lost, c) == Total(s.insts, d.key, Lost, c) + (if d.exemplar then Tally(Left(d), c) else 0.0)
      && (Total(t.insts, d.key, Lost, Count) == Total(s.insts, d.key, Lost, Count) <==> Left(d) == [] || !d.exemplar)
  {
    assert LogOk(s.insts[i], s.bounds);
    AcceptsIff(s.insts[i], s.bounds);
    LostByMerge(s, i, j, c);
    LostByMerge(s, i, j, Count);
  }

  lemma LostByMerge(s: State, i: nat, j: nat, c: Part)
    requires s.phase.Picking? && i < |s.insts| && j < |s.insts| && i != j && s.insts[i].key == s.insts[j].key
    requires Accepts(s.insts[i], s.bounds) <==> Left(s.insts[i]) != [] && !s.insts[i].exemplar
    ensures Total(Merge(s, i, j).insts, s.insts[i].key, Lost, c)
         == Total(s.insts, s.insts[i].key, Lost, c) + (if s.insts[i].exemplar then Tally(Left(s.insts[i]), c) else 0.0)
  {
    var t, key := Merge(s, i, j), s.insts[i].key;
    var mid := s.insts[i := t.insts[i]];
    assert t.insts == mid[j := t.insts[j]];
    TotalUpdate(s.insts, i, t.insts[i], key, Lost, c);
    TotalUpdate(mid, j, t.insts[j], key, Lost, c);
    TallyAppend(s.insts[i].lost, Left(s.insts[i]), c);
  }

  // ---------------------------------------------------------------- the line above all bounds

  /** The line above all bounds says what the row counts, unless it is written out for the
      first time, for an exemplar, after something was delivered: then it says all of that
      again. */
  lemma AboveIff(i: nat, d: Inst, bounds: nat)
    requires LogOk(d, bounds)
    ensures var r := RowOf(i, d, Read(d, bounds));
      Line(r, Below(bounds)) == Line(r, Count) <==> !d.exemplar || |Given(d).upTo| == bounds + 1 || Given(d).count == 0
  {
    RowAbove(i, d, bounds);
  }

  ghost predicate Repeats(r: Row, bounds: nat) { Line(r, Below(bounds)) != Line(r, Count) }

  lemma AboveAtLeast(rows: seq<Row>, key: nat, bounds: nat)
    requires forall r <- rows :: Line(r, Below(bounds)) >= Line(r, Count)
    ensures SaidOf(rows, key, Below(bounds)) >= SaidOf(rows, key, Count)
    ensures SaidOf(rows, key, Below(bounds)) == SaidOf(rows, key, Count) <==> forall r <- rows :: r.key == key ==> !Repeats(r, bounds)
  {
    if rows != [] {
      var n := |rows| - 1;
      AboveAtLeast(rows[..n], key, bounds);
      assert rows[n] in rows;
      assert forall r :: r in rows <==> r in rows[..n] || r == rows[n];
    }
  }

  /** In every run the scraper's bucket above all bounds is never below its count, and it is
      the count if and only if it has processed no row that says something again there. */
  lemma AboveIsCount(run: seq<State>, events: seq<Event>, n: nat, key: nat)
    requires Run(run, events) && n < |run|
    ensures var s := run[n]; var above, count := SaidOf(s.processed, key, Below(s.bounds)), SaidOf(s.processed, key, Count);
      above >= count && (above == count <==> forall r <- s.processed :: r.key == key ==> !Repeats(r, s.bounds))
  {
    RunKeeps(run, events, n);
    AboveAtLeast(run[n].processed, key, run[n].bounds);
  }

  // ---------------------------------------------------------------- without such an exemplar

  ghost predicate RowsTraced(s: State, rows: seq<Row>) {
    forall r <- rows :: r.inst < |s.insts| && (Repeats(r, s.bounds) ==> s.insts[r.inst].exemplar)
  }

  /** Whatever is lost or said again comes of an exemplar above all bounds. */
  ghost predicate Traced(s: State) {
    && (forall i :: 0 <= i < |s.insts| && s.insts[i].lost != [] ==> s.insts[i].exemplar)
    && RowsTraced(s, s.processed) && (s.held.Some? ==> RowsTraced(s, s.held.value.rows))
    && (s.phase.Writing? ==> RowsTraced(s, s.phase.rows))
  }

  lemma TracedSettles(s: State, a: Ack)
    requires Traced(s)
    ensures Traced(Settle(s, a)) && Settle(s, a).phase == s.phase
  {
  }

  lemma TracedMerges(s: State, i: nat, j: nat)
    requires Traced(s) && s.phase.Picking? && i < |s.insts| && j < |s.insts| && i != j && LogOk(s.insts[i], s.bounds)
    ensures Traced(Merge(s, i, j))
  {
    AcceptsIff(s.insts[i], s.bounds);
  }

  lemma TracedWrites(s: State)
    requires Traced(s) && Inv(s) && Enabled(s, Write)
    ensures Traced(Apply(s, Write))
  {
    var i := s.phase.left[0];
    assert LogOk(s.insts[i], s.bounds);
    AboveIff(i, s.insts[i], s.bounds);
  }

  lemma TracedChecks(s: State)
    requires Traced(s) && Inv(s) && Enabled(s, Check)
    ensures Traced(Apply(s, Check))
  {
    var i := s.phase.inst;
    if Merging(s) {
      var j :| Live(s, j, s.insts[i].key) && Apply(s, Check) == Merge(s, i, j);
      assert LogOk(s.insts[i], s.bounds) && Live(s, j, s.insts[i].key);
      TracedMerges(s, i, j);
    }
  }

  lemma TracedFinishes(s: State, delivered: bool)
    requires Traced(s) && Enabled(s, Finish(delivered))
    ensures Traced(Apply(s, Finish(delivered)))
  {
  }

  /** The same rows, or some of them, and nothing new lost. */
  lemma TracedOn(s: State, s': State)
    requires Traced(s) && |s.insts| <= |s'.insts| && s'.bounds == s.bounds && (forall r <- s'.processed :: r in s.processed || r in HeldAll(s))
    requires forall r <- HeldAll(s') :: r in HeldAll(s)
    requires s'.phase.Writing? ==> s'.phase.rows == if s.phase.Writing? then s.phase.rows else []
    requires forall i :: 0 <= i < |s.insts| ==> s'.insts[i].lost == s.insts[i].lost && (s.insts[i].exemplar ==> s'.insts[i].exemplar)
    requires forall i :: |s.insts| <= i < |s'.insts| ==> s'.insts[i].lost == []
    ensures Traced(s')
  {
    assert RowsTraced(s, HeldAll(s));
    assert RowsTraced(s', s'.processed);
    assert RowsTraced(s', HeldAll(s'));
  }

  function HeldAll(s: State): seq<Row> { if s.held.Some? then s.held.value.rows else [] }

  lemma TracedElse(s: State, e: Event)
    requires Traced(s) && Enabled(s, e) && !e.Request? && !e.Check? && !e.Write? && !e.Finish?
    ensures Traced(Apply(s, e))
  {
    TracedOn(s, Apply(s, e));
  }

  lemma TracedKept(s: State, e: Event)
    requires Traced(s) && Inv(s) && Enabled(s, e)
    ensures Traced(Apply(s, e))
  {
    match e {
      case Request(a, final) => TracedSettles(s, a);
      case Check => TracedChecks(s);
      case Write => TracedWrites(s);
      case Finish(delivered) => TracedFinishes(s, delivered);
      case _ => TracedElse(s, e);
    }
  }

  lemma {:induction false} RunTraced(run: seq<State>, events: seq<Event>, n: nat)
    requires Run(run, events) && n < |run|
    ensures Traced(run[n])
  {
    if n > 0 {
      RunTraced(run, events, n - 1);
      RunKeeps(run, events, n - 1);
      assert Next(run[n - 1], events[n - 1], run[n - 1 + 1]);
      TracedKept(run[n - 1], events[n - 1]);
    }
  }

  lemma NothingLost(insts: seq<Inst>, key: nat, c: Part)
    requires forall d <- insts :: d.key == key ==> d.lost == []
    ensures Total(insts, key, Lost, c) == 0.0
  {
    if insts != [] {
      assert insts[|insts| - 1] in insts;
      NothingLost(insts[..|insts| - 1], key, c);
    }
  }

  /** So for a label set no instance of which has an exemplar above all bounds nothing is
      lost, in any line, and that bucket is the count. */
  lemma WithoutExemplar(run: seq<State>, events: seq<Event>, n: nat, key: nat, c: Part)
    requires Run(run, events) && n < |run| && Finite(c, run[n].bounds)
    requires forall d <- run[n].insts :: d.key == key ==> !d.exemplar
    ensures var s := run[n];
      && SaidOf(s.processed, key, c) + Total(s.insts, key, Undelivered, c) == Total(s.insts, key, Made, c) + SaidOf(HeldRows(s), key, c)
      && SaidOf(s.processed, key, Below(s.bounds)) == SaidOf(s.processed, key, Count)
  {
    var s := run[n];
    RunTraced(run, events, n);
    RunKeeps(run, events, n);
    ConservationHere(s, key, c);
    NothingLost(s.insts, key, c);
    AboveIsCount(run, events, n, key);
  }
}
