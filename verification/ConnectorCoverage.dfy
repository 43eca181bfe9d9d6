/**
  Subscription coverage, the step-exact registry theorem, and what both mean for whole runs.
 */
module ConnectorCoverage {
  import opened Wrappers
  import opened ConnectorState
  import opened ConnectorBasics
  import opened ConnectorRegistry

  // ----- Coverage is kept -----

  /** A covered pair stays covered: a reader is only turned away when another one holds its URI. */
  lemma CoveredKept(s: State, step: Step, c: nat, k: nat)
    requires Registry(s) && Enabled(s, step) && Covered(s, c, k)
    ensures Covered(Apply(s, step), c, k)
  {
    var t := Apply(s, step);
    var r :| 0 <= r < |s.readers| && s.readers[r].consumer == c && s.readers[r].client == k && !s.readers[r].pc.Rejected?;
    if step == Start(r) && t.readers[r].pc.Rejected? {
      var q := Rival(s, r);
      assert t.readers[q] == s.readers[q];
    } else {
      ReaderStays(s, step, r);
    }
  }

  lemma ReaderStays(s: State, step: Step, r: nat)
    requires InRange(s) && Enabled(s, step) && r < |s.readers| && !s.readers[r].pc.Rejected?
    requires !(step == Start(r) && Apply(s, step).readers[r].pc.Rejected?)
    ensures var t := Apply(s, step);
      && r < |t.readers| && t.readers[r].consumer == s.readers[r].consumer && t.readers[r].client == s.readers[r].client
      && !t.readers[r].pc.Rejected?
  {
  }

  /** The reader that makes `Start(r)` give up serves the very same client. */
  lemma Rival(s: State, r: nat) returns (q: nat)
    requires Registry(s) && Enabled(s, Start(r)) && UriOf(s, r) in s.consumers[s.readers[r].consumer].dopplers
    ensures q < |s.readers| && q != r && s.readers[q].Holds()
    ensures s.readers[q].consumer == s.readers[r].consumer && s.readers[q].client == s.readers[r].client
  {
    var c := s.readers[r].consumer;
    assert HeldBy(s, c, UriOf(s, r));
    q :| 0 <= q < |s.readers| && s.readers[q].Holds() && s.readers[q].consumer == c && UriOf(s, q) == UriOf(s, r);
    assert s.readers[r].Unfinished() && s.readers[q].Unfinished();
  }

  /** Steps that neither finish a subscription nor touch the scan. */
  lemma CoverageQuiet(s: State, step: Step)
    requires Inv(s) && Enabled(s, step) && InRange(Apply(s, step))
    requires !step.Connect? && !step.FinderAdd? && !step.FinderScan? && !step.FinderScanned?
    ensures Coverage(Apply(s, step))
  {
    var t := Apply(s, step);
    QuietScope(s, step);
    forall c, k | Subscribed(t, c) && k in t.clients && !BeingScanned(t, k) ensures Covered(t, c, k) {
      CoveredKept(s, step, c, k);
    }
    if t.finder.Scanner? {
      forall i, c | 0 <= i < t.finder.slot && t.slots[i] == Some(c) && Subscribed(t, c) ensures Covered(t, c, t.finder.client) {
        CoveredKept(s, step, c, t.finder.client);
      }
    }
  }

  lemma QuietScope(s: State, step: Step)
    requires InRange(s) && Enabled(s, step)
    requires !step.Connect? && !step.FinderAdd? && !step.FinderScan? && !step.FinderScanned?
    ensures var t := Apply(s, step);
      && (forall c :: Subscribed(t, c) ==> Subscribed(s, c))
      && (forall k :: k in t.clients ==> k in s.clients)
      && (t.finder.Scanner? <==> s.finder.Scanner?)
      && (t.finder.Scanner? ==> t.finder == s.finder)
      && |t.slots| == |s.slots|
      && (forall i, c :: 0 <= i < |t.slots| && t.slots[i] == Some(c) && Subscribed(t, c) ==> s.slots[i] == Some(c))
  {
  }

  lemma CoverageConnect(s: State, c: nat)
    requires Inv(s) && Enabled(s, Connect(c)) && InRange(Apply(s, Connect(c)))
    ensures Coverage(Apply(s, Connect(c)))
  {
    var t := Apply(s, Connect(c));
    forall d, k | Subscribed(t, d) && k in t.clients && !BeingScanned(t, k) ensures Covered(t, d, k) {
      if d == c {
        var i :| 0 <= i < |s.clients| && s.clients[i] == k;
        assert t.readers[|s.readers| + i] == Reader(c, k, Spawned);
      } else {
        assert Subscribed(s, d);
        CoveredKept(s, Connect(c), d, k);
      }
    }
  }

  lemma CoverageScan(s: State, step: Step)
    requires Inv(s) && Enabled(s, step) && InRange(Apply(s, step))
    requires step.FinderAdd? || step.FinderScan? || step.FinderScanned?
    ensures Coverage(Apply(s, step))
  {
    var t := Apply(s, step);
    assert t.consumers == s.consumers && t.slots == s.slots;
    forall c: nat, k | Subscribed(t, c) && k in t.clients && !BeingScanned(t, k) ensures Covered(t, c, k) {
      assert Subscribed(s, c);
      if step.FinderScanned? && BeingScanned(s, k) {
        assert InSlot(s, c);
        var i :| 0 <= i < |s.slots| && s.slots[i] == Some(c);
        assert Covered(s, c, k);
      }
      CoveredKept(s, step, c, k);
    }
    if t.finder.Scanner? {
      forall i, c | 0 <= i < t.finder.slot && t.slots[i] == Some(c) && Subscribed(t, c) ensures Covered(t, c, t.finder.client) {
        assert step.FinderScan? && Subscribed(s, c);
        if i < s.finder.slot {
          CoveredKept(s, step, c, s.finder.client);
        } else {
          assert t.readers[|s.readers|] == Reader(c, s.finder.client, Spawned);
        }
      }
    }
  }

  lemma CoverageStep(s: State, step: Step)
    requires Inv(s) && Enabled(s, step) && InRange(Apply(s, step))
    ensures Coverage(Apply(s, step))
  {
    if step.Connect? {
      CoverageConnect(s, step.c);
    } else if step.FinderAdd? || step.FinderScan? || step.FinderScanned? {
      CoverageScan(s, step);
    } else {
      CoverageQuiet(s, step);
    }
  }

  // ----- The exact theorem -----

  lemma UnsafeBeginBreaks(s: State, uris: seq<string>)
    requires Inv(s) && Enabled(s, FinderBegin(uris)) && InRange(Apply(s, FinderBegin(uris)))
    requires EventSplit(Apply(s, FinderBegin(uris)))
    ensures Distinct(uris)
  {
    var t := Apply(s, FinderBegin(uris));
    NamesDistinct(s);
    DeltaAddExact(s.clients, UrisOf(s), uris);
    forall u | u in t.finder.Todo() ensures u !in UrisOf(s) {
      ServesNamed(s, u);
    }
  }

  lemma UnsafeCloseBreaks(s: State, step: Step)
    requires Inv(s) && Enabled(s, step) && InRange(Apply(s, step)) && !Safe(s, step) && !step.FinderBegin?
    ensures !ReadersListed(Apply(s, step))
  {
    var t := Apply(s, step);
    var k := if step.Leave? then s.readers[step.r].client else s.finder.Dead()[0];
    var r :| 0 <= r < |s.readers| && s.readers[r].client == k && s.readers[r].Pending();
    assert t.readers[r] == s.readers[r];
    assert k !in t.clients;
  }

  /** A step keeps the registry invariant exactly when it is safe. */
  lemma StepExact(s: State, step: Step)
    requires Inv(s) && Enabled(s, step)
    ensures InRange(Apply(s, step))
    ensures Inv(Apply(s, step)) <==> Safe(s, step)
  {
    BasicStep(s, step);
    if Safe(s, step) {
      RegistryStep(s, step);
      CoverageStep(s, step);
    } else if step.FinderBegin? {
      if EventSplit(Apply(s, step)) { UnsafeBeginBreaks(s, step.uris); }
    } else {
      UnsafeCloseBreaks(s, step);
    }
  }

  // ----- Whole runs -----

  ghost predicate SafeStep(s: State, step: Step) {
    InRange(s) && Enabled(s, step) && Safe(s, step)
  }

  ghost predicate SafeUpTo(states: seq<State>, steps: seq<Step>, n: nat)
    requires IsRun(states, steps) && n <= |steps|
  {
    forall i :: 0 <= i < n ==> SafeStep(states[i], steps[i])
  }

  /** A run keeps the invariant up to a state exactly when all steps up to it were safe. */
  lemma {:induction false} RunExact(states: seq<State>, steps: seq<Step>, n: nat)
    requires IsRun(states, steps) && n <= |steps|
    ensures (forall i :: 0 <= i <= n ==> Inv(states[i])) <==> SafeUpTo(states, steps, n)
    decreases n
  {
    if n == 0 {
      BasicAlways(states, steps, 0);
    } else {
      RunExact(states, steps, n - 1);
      assert Next(states[n - 1], steps[n - 1], states[n]);
      if SafeUpTo(states, steps, n - 1) {
        StepExact(states[n - 1], steps[n - 1]);
      }
      assert SafeUpTo(states, steps, n) <==> SafeUpTo(states, steps, n - 1) && SafeStep(states[n - 1], steps[n - 1]);
    }
  }

  /** The scheduling assumption under which the code was written: a spawned reader counts itself
      before the write lock is next taken. */
  ghost predicate Prompt(states: seq<State>, steps: seq<Step>)
    requires IsRun(states, steps)
  {
    forall i :: 0 <= i < |steps| && (steps[i].FinderBegin? || steps[i].Leave?) ==>
      forall r :: 0 <= r < |states[i].readers| ==> !states[i].readers[r].Pending()
  }

  ghost predicate EventsDistinct(steps: seq<Step>) {
    forall i :: 0 <= i < |steps| && steps[i].FinderBegin? ==> Distinct(steps[i].uris)
  }

  /** Mid-event, readers that still have to count themselves are not on clients about to be disabled. */
  ghost predicate PendingFresh(s: State) {
    && (forall r :: 0 <= r < |s.readers| && s.readers[r].Pending() ==> s.readers[r].client !in s.finder.Dead())
    && (s.finder.Scanner? ==> s.finder.client !in s.finder.Dead())
  }

  lemma PendingFreshStep(s: State, step: Step)
    requires InRange(s) && Enabled(s, step) && PendingFresh(s)
    requires step.FinderBegin? ==> forall r :: 0 <= r < |s.readers| ==> !s.readers[r].Pending()
    ensures PendingFresh(Apply(s, step))
  {
    var t := Apply(s, step);
    if !step.FinderBegin? {
      assert forall k :: k in t.finder.Dead() ==> k in s.finder.Dead();
    }
  }

  lemma {:induction false} PromptSafe(states: seq<State>, steps: seq<Step>, n: nat)
    requires IsRun(states, steps) && Prompt(states, steps) && EventsDistinct(steps) && n <= |steps|
    ensures SafeUpTo(states, steps, n) && PendingFresh(states[n])
    decreases n
  {
    hide Apply, Basic, UrisUnique, PoolMatches, FlagsRight, ReadersListed, Coverage;
    if n > 0 {
      PromptSafe(states, steps, n - 1);
      RunExact(states, steps, n - 1);
      assert Next(states[n - 1], steps[n - 1], states[n]);
      PendingFreshStep(states[n - 1], steps[n - 1]);
    }
  }

  /** The registry theorem for prompt schedules, spelled out for states with no event in progress. */
  lemma RegistryTheorem(states: seq<State>, steps: seq<Step>, i: nat)
    requires IsRun(states, steps) && Prompt(states, steps) && EventsDistinct(steps)
    requires i < |states| && states[i].finder.Idle?
    ensures var s := states[i];
      && InRange(s)
      && Distinct(UrisOf(s))
      && s.pool == (set u | u in UrisOf(s))
      && (forall k :: 0 <= k < |s.info| ==> s.info[k].refCount == |CountedOn(s, k)|)
      && (forall k :: k in s.clients ==> (s.info[k].disconnect <==> s.info[k].uri !in s.latest))
      && (forall u :: u in UrisOf(s) <==> u in s.latest || InUse(s, u))
  {
    var s := states[i];
    PromptSafe(states, steps, i);
    RunExact(states, steps, i);
    NamesDistinct(s);
    forall u ensures u in UrisOf(s) <==> Serves(s, u) { ServesNamed(s, u); }
    forall u ensures Serves(s, u) <==> u in s.latest || InUse(s, u) { ListIsAdvertisedOrUsed(s, u); }
  }

  /** Some client object of this URI still has readers. */
  ghost predicate InUse(s: State, u: string) {
    exists k :: 0 <= k < |s.info| && s.info[k].uri == u && s.info[k].refCount > 0
  }

  lemma ListIsAdvertisedOrUsed(s: State, u: string)
    requires Inv(s) && s.finder.Idle?
    ensures Serves(s, u) <==> u in s.latest || InUse(s, u)
  {
    if InUse(s, u) {
      var k :| 0 <= k < |s.info| && s.info[k].uri == u && s.info[k].refCount > 0;
      var r :| r in CountedOn(s, k);
      assert s.readers[r].Unfinished();
    }
  }

  /** However Subscribe and finder events interleave, a live subscribed consumer has had a reader on every client. */
  lemma CoverageTheorem(states: seq<State>, steps: seq<Step>, i: nat, c: nat, k: nat)
    requires IsRun(states, steps) && Prompt(states, steps) && EventsDistinct(steps)
    requires i < |states| && states[i].finder.Idle? && Subscribed(states[i], c) && k in states[i].clients
    ensures Covered(states[i], c, k)
  {
    PromptSafe(states, steps, i);
    RunExact(states, steps, i);
  }

  /** On every schedule: two readers holding a URI for one consumer are the same reader. */
  lemma OneReaderPerPair(states: seq<State>, steps: seq<Step>, i: nat, q: nat, r: nat)
    requires IsRun(states, steps) && i < |states| && q < |states[i].readers| && r < |states[i].readers|
    requires SameConsumerHolds(states[i], q, r)
    ensures InRange(states[i])
    ensures UriOf(states[i], q) == UriOf(states[i], r) ==> q == r
  {
    BasicAlways(states, steps, i);
    assert q < r ==> UriOf(states[i], q) != UriOf(states[i], r);
    assert r < q ==> SameConsumerHolds(states[i], r, q);
  }

  /** On every schedule: a slot that changes hands held nobody, or a dead consumer. */
  lemma SlotNeverStolen(states: seq<State>, steps: seq<Step>, i: nat, j: nat)
    requires IsRun(states, steps) && i < |steps| && j < |states[i].slots| && j < |states[i + 1].slots|
    requires states[i + 1].slots[j] != states[i].slots[j]
    ensures InRange(states[i]) && SlotFree(states[i], j)
  {
    BasicAlways(states, steps, i);
    assert Next(states[i], steps[i], states[i + 1]);
    if steps[i].Cas? {
      SlotsClaimed(states[i], steps[i].c);
    }
  }
}
