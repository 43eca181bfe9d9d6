/** When a reader gives up: the exact reasons at the top of its retry loop, read off the run. */
module ConnectorReaders {
  import opened ConnectorState
  import opened ConnectorBasics
  import opened ConnectorRegistry
  import opened ConnectorCoverage

  /** Reader `r` has been at the top of its loop before step `i`. */
  ghost predicate LoopedBefore(steps: seq<Step>, i: nat, r: nat)
    requires i <= |steps|
  {
    exists j :: 0 <= j < i && steps[j].Loop? && steps[j].r == r
  }

  ghost predicate TriedRight(states: seq<State>, steps: seq<Step>, i: nat, r: nat)
    requires i <= |steps| && i < |states|
  {
    var s := states[i];
    && (r >= |s.readers| || s.readers[r].Pending() ==> !LoopedBefore(steps, i, r))
    && (r < |s.readers| && s.readers[r].pc.Running? ==> (s.readers[r].pc.tried <==> LoopedBefore(steps, i, r)))
  }

  lemma LoopedMore(steps: seq<Step>, i: nat, r: nat)
    requires i < |steps|
    ensures LoopedBefore(steps, i + 1, r) <==> LoopedBefore(steps, i, r) || (steps[i].Loop? && steps[i].r == r)
  {
  }

  /** What a step does to one reader. */
  lemma ReaderStep(s: State, step: Step, r: nat)
    requires InRange(s) && Enabled(s, step)
    ensures |s.readers| <= |Apply(s, step).readers|
    ensures |s.readers| <= r < |Apply(s, step).readers| ==> Apply(s, step).readers[r].pc.Spawned?
    ensures r < |s.readers| && !(step.OfReader() && step.r == r) ==> Apply(s, step).readers[r] == s.readers[r]
    ensures step == Start(r) ==> Apply(s, step).readers[r].pc.Added? || Apply(s, step).readers[r].pc.Rejected?
    ensures step == Count(r) ==> s.readers[r].pc.Added? && Apply(s, step).readers[r].pc == Running(false)
    ensures step == Leave(r) ==> Apply(s, step).readers[r].pc.Exited?
    ensures step.Loop? && step.r == r ==>
      Apply(s, step).readers[r].pc.Leaving? || Apply(s, step).readers[r].pc == Running(true)
  {
  }

  lemma {:induction false} TriedAlways(states: seq<State>, steps: seq<Step>, i: nat, r: nat)
    requires IsRun(states, steps) && i < |states|
    ensures TriedRight(states, steps, i, r)
  {
    hide Apply, InRange;
    if i > 0 {
      TriedAlways(states, steps, i - 1, r);
      assert Next(states[i - 1], steps[i - 1], states[i]);
      ReaderStep(states[i - 1], steps[i - 1], r);
      LoopedMore(steps, i - 1, r);
    }
  }

  /**
    At the top of its loop a reader leaves exactly when it saw its consumer's context done or, not the first time
    round, its doppler marked for disconnection; otherwise it subscribes again.
   */
  lemma LeavesExact(states: seq<State>, steps: seq<Step>, i: nat)
    requires IsRun(states, steps) && i < |steps| && steps[i].Loop?
    ensures InRange(states[i]) && steps[i].r < |states[i].readers| == |states[i + 1].readers|
    ensures
      var r := steps[i].r;
      && (states[i + 1].readers[r].pc.Leaving? <==>
            steps[i].sawDead || (LoopedBefore(steps, i, r) && states[i].info[states[i].readers[r].client].disconnect))
      && (!states[i + 1].readers[r].pc.Leaving? ==> states[i + 1].readers[r].pc.Running?)
  {
    TriedAlways(states, steps, i, steps[i].r);
    assert Next(states[i], steps[i], states[i + 1]);
  }

  /** On prompt runs the mark means that the latest event does not advertise the doppler. */
  lemma LeavesWithdrawn(states: seq<State>, steps: seq<Step>, i: nat)
    requires IsRun(states, steps) && Prompt(states, steps) && EventsDistinct(steps) && i < |steps| && steps[i].Loop?
    ensures InRange(states[i]) && steps[i].r < |states[i].readers| == |states[i + 1].readers|
    ensures
      var s, r := states[i], steps[i].r;
      states[i + 1].readers[r].pc.Leaving? <==>
        steps[i].sawDead || (LoopedBefore(steps, i, r) && s.info[s.readers[r].client].uri !in s.latest)
  {
    hide Apply, Prompt;
    LeavesExact(states, steps, i);
    PromptSafe(states, steps, i);
    RunExact(states, steps, i);
    assert Next(states[i], steps[i], states[i + 1]);
    var s, r := states[i], steps[i].r;
    assert Inv(s) && s.readers[r].Unfinished();
    assert s.readers[r].client in s.clients;
  }
}
