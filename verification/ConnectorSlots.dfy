/**
  Who is refused: a subscriber passes over a slot only if a live consumer holds it when it looks, or if the slot
  changes hands between its look and its compare-and-swap.
 */
module ConnectorSlots {
  import opened Wrappers
  import opened ConnectorState
  import opened ConnectorBasics

  /** Slot `j` holds a consumer whose context is not done. */
  ghost predicate HeldLive(s: State, j: nat) {
    && j < |s.slots| && s.slots[j].Some? && s.slots[j].value < |s.consumers|
    && !s.consumers[s.slots[j].value].dead
  }

  /** At step `m` consumer `c` looks at slot `j`. */
  ghost predicate LooksAt(s: State, step: Step, c: nat, j: nat) {
    step == Load(c) && c < |s.consumers| && s.consumers[c].pc == Scanning(j) && j < |s.slots|
  }

  /** At step `n` consumer `c` tries to take slot `j`. */
  ghost predicate TriesFor(s: State, step: Step, c: nat, j: nat) {
    step == Cas(c) && c < |s.consumers| && s.consumers[c].pc.Loaded? && s.consumers[c].pc.slot == j && j < |s.slots|
  }

  ghost predicate SawLive(states: seq<State>, steps: seq<Step>, m: nat, c: nat, j: nat)
    requires m < |steps| <= |states|
  {
    LooksAt(states[m], steps[m], c, j) && HeldLive(states[m], j)
  }

  ghost predicate LostRace(states: seq<State>, steps: seq<Step>, m: nat, n: nat, c: nat, j: nat)
    requires m < n < |steps| <= |states|
  {
    && LooksAt(states[m], steps[m], c, j) && TriesFor(states[n], steps[n], c, j)
    && j < |states[n].slots| && states[m].slots[j] != states[n].slots[j]
  }

  /** Before state `i`, consumer `c` had one of the two reasons to pass over slot `j`. */
  ghost predicate Passed(states: seq<State>, steps: seq<Step>, i: nat, c: nat, j: nat)
    requires i <= |steps| <= |states|
  {
    || (exists m: nat :: m < i && SawLive(states, steps, m, c, j))
    || (exists m: nat, n: nat :: m < n < i && LostRace(states, steps, m, n, c, j))
  }

  ghost predicate PassedBelow(states: seq<State>, steps: seq<Step>, i: nat, c: nat, k: nat)
    requires i <= |steps| <= |states|
  {
    forall j: nat :: j < k ==> Passed(states, steps, i, c, j)
  }

  /** What consumer `c` saw in the slot it is about to try for. */
  ghost predicate Looked(states: seq<State>, steps: seq<Step>, i: nat, c: nat, j: nat, seen: Option<nat>)
    requires i <= |steps| <= |states|
  {
    exists m: nat :: m < i && LooksAt(states[m], steps[m], c, j) && states[m].slots[j] == seen
  }

  /** The progress of consumer `c` is explained slot by slot. */
  ghost predicate Explained(states: seq<State>, steps: seq<Step>, i: nat, c: nat)
    requires i <= |steps| && i < |states| && |steps| <= |states|
  {
    var s := states[i];
    c < |s.consumers| ==>
      match s.consumers[c].pc
      case Scanning(k) => PassedBelow(states, steps, i, c, k)
      case Loaded(k, seen) => PassedBelow(states, steps, i, c, k) && Looked(states, steps, i, c, k, seen)
      case Refused => PassedBelow(states, steps, i, c, |s.slots|)
      case Claimed => true
      case Finished => true
  }

  lemma PassedStays(states: seq<State>, steps: seq<Step>, i: nat, c: nat, k: nat)
    requires i + 1 <= |steps| <= |states| && PassedBelow(states, steps, i, c, k)
    ensures PassedBelow(states, steps, i + 1, c, k)
  {
    hide SawLive, LostRace;
    var next := i + 1;
    forall j: nat | j < k ensures Passed(states, steps, next, c, j) {
      assert Passed(states, steps, i, c, j);
    }
  }

  lemma PassedOne(states: seq<State>, steps: seq<Step>, i: nat, c: nat, k: nat)
    requires i <= |steps| <= |states| && PassedBelow(states, steps, i, c, k) && Passed(states, steps, i, c, k)
    ensures PassedBelow(states, steps, i, c, k + 1)
  {
    hide Passed;
  }

  /** What a step can do to a scan: nothing, look, try, or give up at the end. */
  lemma ScanStep(s: State, step: Step, c: nat)
    requires InRange(s) && Enabled(s, step) && c < |Apply(s, step).consumers|
    ensures |Apply(s, step).slots| == |s.slots|
    ensures c >= |s.consumers| ==> Apply(s, step).consumers[c].pc == Scanning(0)
    ensures c < |s.consumers| && step != Load(c) && step != Cas(c) && step != Refuse(c) && step != Connect(c) ==>
      Apply(s, step).consumers[c].pc == s.consumers[c].pc
  {
  }

  lemma LookStep(s: State, c: nat)
    requires InRange(s) && Enabled(s, Load(c))
    ensures
      var k := s.consumers[c].pc.slot;
      && LooksAt(s, Load(c), c, k)
      && Apply(s, Load(c)).consumers[c].pc == if HeldLive(s, k) then Scanning(k + 1) else Loaded(k, s.slots[k])
  {
  }

  lemma TryStep(s: State, c: nat)
    requires InRange(s) && Enabled(s, Cas(c))
    ensures
      var k, seen := s.consumers[c].pc.slot, s.consumers[c].pc.seen;
      && TriesFor(s, Cas(c), c, k)
      && Apply(s, Cas(c)).consumers[c].pc == (if s.slots[k] == seen then Claimed else Scanning(k + 1))
      && (s.slots[k] == seen ==> Apply(s, Cas(c)).slots[k] == Some(c))
  {
  }

  lemma ExplainedByLook(states: seq<State>, steps: seq<Step>, i: nat, c: nat)
    requires i < |steps| < |states| && Next(states[i], Load(c), states[i + 1]) && steps[i] == Load(c)
    requires Explained(states, steps, i, c)
    ensures Explained(states, steps, i + 1, c)
  {
    hide Passed, PassedBelow, InRange, Apply, HeldLive;
    var s, k := states[i], states[i].consumers[c].pc.slot;
    LookStep(s, c);
    PassedStays(states, steps, i, c, k);
    if HeldLive(s, k) {
      assert SawLive(states, steps, i, c, k);
      assert Passed(states, steps, i + 1, c, k) by { BecauseLive(states, steps, i + 1, i, c, k); }
      PassedOne(states, steps, i + 1, c, k);
    }
  }

  lemma BecauseLive(states: seq<State>, steps: seq<Step>, i: nat, m: nat, c: nat, j: nat)
    requires m < i <= |steps| <= |states| && SawLive(states, steps, m, c, j)
    ensures Passed(states, steps, i, c, j)
  {
  }

  lemma BecauseLost(states: seq<State>, steps: seq<Step>, i: nat, m: nat, n: nat, c: nat, j: nat)
    requires m < n < i <= |steps| <= |states| && LostRace(states, steps, m, n, c, j)
    ensures Passed(states, steps, i, c, j)
  {
  }

  lemma ExplainedByTry(states: seq<State>, steps: seq<Step>, i: nat, c: nat)
    requires i < |steps| < |states| && Next(states[i], Cas(c), states[i + 1]) && steps[i] == Cas(c)
    requires Explained(states, steps, i, c)
    ensures Explained(states, steps, i + 1, c)
  {
    hide Passed, PassedBelow, InRange, Apply;
    var s := states[i];
    var k, seen := s.consumers[c].pc.slot, s.consumers[c].pc.seen;
    TryStep(s, c);
    if s.slots[k] != seen {
      PassedStays(states, steps, i, c, k);
      var m: nat :| m < i && LooksAt(states[m], steps[m], c, k) && states[m].slots[k] == seen;
      assert LostRace(states, steps, m, i, c, k);
      BecauseLost(states, steps, i + 1, m, i, c, k);
      PassedOne(states, steps, i + 1, c, k);
    }
  }

  lemma ExplainedElsewhere(states: seq<State>, steps: seq<Step>, i: nat, c: nat)
    requires i < |steps| < |states| && Next(states[i], steps[i], states[i + 1])
    requires steps[i] != Load(c) && steps[i] != Cas(c) && Explained(states, steps, i, c)
    ensures Explained(states, steps, i + 1, c)
  {
    hide Passed, PassedBelow, InRange, LooksAt;
    var s, t := states[i], states[i + 1];
    if c < |t.consumers| {
      ScanStep(s, steps[i], c);
      if c >= |s.consumers| {
        assert PassedBelow(states, steps, i + 1, c, 0) by { NothingPassed(states, steps, i + 1, c); }
      } else {
        match s.consumers[c].pc
        case Scanning(k) => PassedStays(states, steps, i, c, k);
        case Loaded(k, _) => PassedStays(states, steps, i, c, k);
        case Refused => PassedStays(states, steps, i, c, |s.slots|);
        case Claimed =>
        case Finished =>
      }
    }
  }

  lemma NothingPassed(states: seq<State>, steps: seq<Step>, i: nat, c: nat)
    requires i <= |steps| <= |states|
    ensures PassedBelow(states, steps, i, c, 0)
  {
  }

  lemma {:induction false} AlwaysExplained(states: seq<State>, steps: seq<Step>, i: nat, c: nat)
    requires IsRun(states, steps) && i < |states|
    ensures Explained(states, steps, i, c)
  {
    hide Explained;
    if i == 0 {
      assert Explained(states, steps, 0, c) by { ExplainedAtStart(states, steps, c); }
    } else {
      AlwaysExplained(states, steps, i - 1, c);
      assert Next(states[i - 1], steps[i - 1], states[i]);
      if steps[i - 1] == Load(c) {
        ExplainedByLook(states, steps, i - 1, c);
      } else if steps[i - 1] == Cas(c) {
        ExplainedByTry(states, steps, i - 1, c);
      } else {
        ExplainedElsewhere(states, steps, i - 1, c);
      }
    }
  }

  lemma ExplainedAtStart(states: seq<State>, steps: seq<Step>, c: nat)
    requires IsRun(states, steps)
    ensures Explained(states, steps, 0, c)
  {
    var n: nat :| states[0] == Init(n);
  }

  /**
    On every schedule, a refused subscriber had a reason at every slot: a live consumer held it when it looked, or the
    slot changed hands between its look and its compare-and-swap.
   */
  lemma RefusedExplained(states: seq<State>, steps: seq<Step>, i: nat, c: nat, j: nat)
    requires IsRun(states, steps) && i < |states| && c < |states[i].consumers| && states[i].consumers[c].pc.Refused?
    requires j < |states[i].slots|
    ensures
      || (exists m: nat :: m < i && SawLive(states, steps, m, c, j))
      || (exists m: nat, n: nat :: m < n < i && LostRace(states, steps, m, n, c, j))
  {
    hide SawLive, LostRace, Next;
    AlwaysExplained(states, steps, i, c);
    assert Passed(states, steps, i, c, j);
  }

  /** Once its scan is over, a subscriber that is not refused holds a slot. */
  ghost predicate ScanOver(s: State, c: nat) {
    c < |s.consumers| && !s.consumers[c].pc.Scanning? && !s.consumers[c].pc.Loaded?
  }

  /** Slot `j` stays as it is and is empty or held by a dead consumer, from step `a` to step `b`. */
  ghost predicate StaysFree(states: seq<State>, j: nat, a: nat, b: nat)
    requires a <= b < |states|
  {
    j < |states[a].slots|
    && forall m :: a <= m <= b ==> j < |states[m].slots| && !HeldLive(states[m], j) && states[m].slots[j] == states[a].slots[j]
  }

  lemma {:induction false} NotYetThere(states: seq<State>, steps: seq<Step>, c: nat, a: nat, m: nat)
    requires IsRun(states, steps) && m <= a < |states| && |states[a].consumers| <= c
    ensures |states[m].consumers| <= c
    decreases a - m
  {
    if m < a {
      NotYetThere(states, steps, c, a, m + 1);
      assert Next(states[m], steps[m], states[m + 1]);
      ConsumersGrow(states[m], steps[m]);
    }
  }

  lemma ConsumersGrow(s: State, step: Step)
    requires InRange(s) && Enabled(s, step)
    ensures |s.consumers| <= |Apply(s, step).consumers|
  {
  }

  /**
    A subscriber during whose scan some slot stays free and untouched by others gets a slot: the one held by a dead
    consumer is as good as an empty one.
   */
  lemma FreeSlotFound(states: seq<State>, steps: seq<Step>, a: nat, i: nat, c: nat, j: nat)
    requires IsRun(states, steps) && a <= i < |states| && |states[a].consumers| <= c && ScanOver(states[i], c)
    requires j < |states[i].slots| && StaysFree(states, j, a, i)
    ensures states[i].consumers[c].pc.Claimed? || states[i].consumers[c].pc.Finished?
  {
    hide HeldLive, Next;
    if states[i].consumers[c].pc.Refused? {
      RefusedExplained(states, steps, i, c, j);
      if m: nat :| m < i && SawLive(states, steps, m, c, j) {
        if m < a { NotYetThere(states, steps, c, a, m); }
      } else {
        var m: nat, n: nat :| m < n < i && LostRace(states, steps, m, n, c, j);
        if m < a { NotYetThere(states, steps, c, a, m); }
      }
    }
  }
}
