module CutTheorems {
  // What the cut protocol guarantees, over every run of its steps.

  import opened Helpers
  import opened CutProtocol

  /** Consistent cut.  Whenever Take has returned, in any interleaving, every
      counter's value as of the cut is the sum of exactly the writes made under
      earlier cut numbers, nothing is left on the closed side, nobody is still
      adding to it, and every counter written under the closed cut was handed out. */
  lemma ConsistentCut(run: seq<State>, events: seq<Event>, n: nat)
    requires Run(run, events) && n < |run| && run[n].consumer.Resting?
    ensures var s := run[n];
      && (forall i :: 0 <= i < |s.insts| ==>
            && s.insts[i].atCut == SumBelow(s.log, i, s.cut)
            && Since(s.insts[i], s.cut + 1) == 0.0
            && (s.cut > 0 && SumAt(s.log, i, s.cut - 1) > 0.0 ==> i in s.handed))
      && (forall t :: 0 <= t < |s.threads| && Validated(s.threads[t]) ==> CutOf(s.threads[t]) == s.cut)
  {
    var s := run[n];
    RunKeeps(run, events, n);
    forall i | 0 <= i < |s.insts|
      ensures s.insts[i].atCut == SumBelow(s.log, i, s.cut) && Since(s.insts[i], s.cut + 1) == 0.0
      ensures s.cut > 0 && SumAt(s.log, i, s.cut - 1) > 0.0 ==> i in s.handed
    {
      assert Accounted(s, i) && Closing(s, i);
    }
    forall t | 0 <= t < |s.threads| && Validated(s.threads[t]) ensures CutOf(s.threads[t]) == s.cut { assert ThreadOk(s, t); }
  }

  /** Causal closure.  A write that had returned before another began is in every
      cut the other one is in. */
  lemma CausallyClosed(run: seq<State>, events: seq<Event>, n: nat, first: nat, second: nat, cut: nat)
    requires Run(run, events) && n < |run| && second < |run[n].log|
    requires first < run[n].log[second].begin           // the first-th write to return did so before second began
    requires run[n].log[second].cut < cut
    ensures first < |run[n].complete| && run[n].complete[first] < |run[n].log|
    ensures run[n].log[run[n].complete[first]].cut < cut
  {
    RunKeeps(run, events, n);
    assert EntryOk(run[n], run[n].log[second]);
  }

  /** All the writes of one Atomically call fall on the same side of every cut. */
  lemma GroupsAreAtomic(run: seq<State>, events: seq<Event>, n: nat, a: nat, b: nat, cut: nat)
    requires Run(run, events) && n < |run| && a < |run[n].log| && b < |run[n].log|
    requires run[n].log[a].group.Some? && run[n].log[a].group == run[n].log[b].group
    ensures run[n].log[a].cut < cut <==> run[n].log[b].cut < cut
  {
    RunKeeps(run, events, n);
    assert EntryOk(run[n], run[n].log[a]) && EntryOk(run[n], run[n].log[b]);
  }
}
