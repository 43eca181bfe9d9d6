/**
  Streams: every live subscribed consumer has a working reader on every advertised doppler, up to a state, exactly
  when every event up to it that brings back a doppler still finds its readers at work.
 */
module ConnectorStreams {
  import opened Wrappers
  import opened ConnectorState
  import opened ConnectorBasics
  import opened ConnectorRegistry
  import opened ConnectorCoverage

  ghost predicate AtWork(s: State, r: nat, c: nat, k: nat) {
    && r < |s.readers| && s.readers[r].consumer == c && s.readers[r].client == k
    && s.readers[r].Unfinished() && !s.readers[r].pc.Leaving?
  }

  ghost predicate Reading(s: State, c: nat, k: nat) {
    exists r: nat :: AtWork(s, r, c, k)
  }

  /** A reader gives up on a live consumer only because its doppler was withdrawn. */
  ghost predicate LeaversExcused(s: State)
    requires InRange(s)
  {
    forall r :: 0 <= r < |s.readers| && s.readers[r].pc.Leaving? && !s.consumers[s.readers[r].consumer].dead ==>
      s.info[s.readers[r].client].disconnect
  }

  ghost predicate StreamsUp(s: State) {
    && InRange(s)
    && LeaversExcused(s)
    && (forall c, k :: Subscribed(s, c) && k in s.clients && !s.info[k].disconnect && !BeingScanned(s, k) ==> Reading(s, c, k))
    && (s.finder.Scanner? ==>
          forall i, c :: 0 <= i < s.finder.slot && s.slots[i] == Some(c) && Subscribed(s, c) ==>
            Reading(s, c, s.finder.client) || s.info[s.finder.client].disconnect)
  }

  /** What an event must find so that no stream is lost: readers at work on every client it brings back, none leaving. */
  ghost predicate Continued(s: State, uris: seq<string>) {
    && InRange(s)
    && (forall c, k ::
          Subscribed(s, c) && k in s.clients && s.info[k].disconnect && s.info[k].uri in uris ==> Reading(s, c, k))
    && (forall r ::
          0 <= r < |s.readers| && s.readers[r].pc.Leaving? && !s.consumers[s.readers[r].consumer].dead ==>
          s.info[s.readers[r].client].uri !in uris)
  }

  /** Flags are only ever cleared by the start of an event. */
  lemma FlagStays(s: State, step: Step, k: nat)
    requires InRange(s) && Enabled(s, step) && k < |s.info| && s.info[k].disconnect && !step.FinderBegin?
    ensures k < |Apply(s, step).info| && Apply(s, step).info[k].disconnect
  {
  }

  lemma ExcusesKept(s: State, step: Step)
    requires InRange(s) && Enabled(s, step) && InRange(Apply(s, step)) && LeaversExcused(s) && !step.FinderBegin?
    ensures LeaversExcused(Apply(s, step))
  {
    hide Apply;
    var t := Apply(s, step);
    forall r | 0 <= r < |t.readers| && t.readers[r].pc.Leaving? && !t.consumers[t.readers[r].consumer].dead
      ensures t.info[t.readers[r].client].disconnect
    {
      LeaverBefore(s, step, r);
      FlagStays(s, step, s.readers[r].client);
    }
  }

  lemma LeaverBefore(s: State, step: Step, r: nat)
    requires InRange(s) && Enabled(s, step) && InRange(Apply(s, step)) && LeaversExcused(s)
    requires var t := Apply(s, step); r < |t.readers| && t.readers[r].pc.Leaving? && !t.consumers[t.readers[r].consumer].dead
    ensures r < |s.readers| && Apply(s, step).readers[r].client == s.readers[r].client
    ensures s.info[s.readers[r].client].disconnect
  {
    if step.Loop? && step.r == r {
      assert LoopPc(s, r, step.sawDead).Leaving?;
    }
  }

  lemma HasRange(s: State)
    requires Inv(s)
    ensures InRange(s)
  {
  }

  /** Unless its doppler is withdrawn or its consumer dies, somebody keeps reading. */
  lemma ReadingKept(s: State, step: Step, c: nat, k: nat)
    requires Inv(s) && LeaversExcused(s) && Enabled(s, step) && InRange(Apply(s, step)) && Reading(s, c, k) && k < |s.info|
    requires c < |s.consumers| && !Apply(s, step).consumers[c].dead && !s.info[k].disconnect
    ensures Reading(Apply(s, step), c, k)
  {
    hide Basic, UrisUnique, PoolMatches, EventSplit, FlagsRight, ReadersListed, Coverage;
    HasRange(s);
    var r: nat :| AtWork(s, r, c, k);
    if step == Start(r) && Apply(s, step).readers[r].pc.Rejected? {
      RivalWorks(s, r, c, k);
    } else {
      WorkGoesOn(s, step, r, c, k);
    }
  }

  lemma RivalWorks(s: State, r: nat, c: nat, k: nat)
    requires Inv(s) && LeaversExcused(s) && Enabled(s, Start(r)) && AtWork(s, r, c, k) && k < |s.info|
    requires Apply(s, Start(r)).readers[r].pc.Rejected?
    requires c < |s.consumers| && !s.consumers[c].dead && !s.info[k].disconnect
    ensures Reading(Apply(s, Start(r)), c, k)
  {
    hide Basic, UrisUnique, PoolMatches, EventSplit, FlagsRight, ReadersListed, Coverage;
    HasRange(s);
    var q := Rival(s, r);
    assert !s.readers[q].pc.Leaving?;
    assert AtWork(Apply(s, Start(r)), q, c, k);
  }

  lemma WorkGoesOn(s: State, step: Step, r: nat, c: nat, k: nat)
    requires InRange(s) && Enabled(s, step) && AtWork(s, r, c, k) && k < |s.info|
    requires !(step == Start(r) && Apply(s, step).readers[r].pc.Rejected?)
    requires c < |s.consumers| && c < |Apply(s, step).consumers| && !Apply(s, step).consumers[c].dead && !s.info[k].disconnect
    ensures AtWork(Apply(s, step), r, c, k)
  {
  }

  lemma StreamsQuiet(s: State, step: Step)
    requires Inv(s) && StreamsUp(s) && Enabled(s, step) && InRange(Apply(s, step))
    requires !step.Connect? && !step.FinderBegin? && !step.FinderAdd? && !step.FinderScan? && !step.FinderScanned?
    ensures StreamsUp(Apply(s, step))
  {
    var t := Apply(s, step);
    ExcusesKept(s, step);
    QuietScope(s, step);
    forall c, k | Subscribed(t, c) && k in t.clients && !t.info[k].disconnect && !BeingScanned(t, k) ensures Reading(t, c, k) {
      if s.info[k].disconnect { FlagStays(s, step, k); }
      ReadingKept(s, step, c, k);
    }
    if t.finder.Scanner? {
      var k := t.finder.client;
      forall i, c | 0 <= i < t.finder.slot && t.slots[i] == Some(c) && Subscribed(t, c) ensures Reading(t, c, k) || t.info[k].disconnect {
        if s.info[k].disconnect { FlagStays(s, step, k); } else { ReadingKept(s, step, c, k); }
      }
    }
  }

  lemma StreamsConnect(s: State, c: nat)
    requires Inv(s) && StreamsUp(s) && Enabled(s, Connect(c)) && InRange(Apply(s, Connect(c)))
    ensures StreamsUp(Apply(s, Connect(c)))
  {
    var t := Apply(s, Connect(c));
    forall d, k | Subscribed(t, d) && k in t.clients && !t.info[k].disconnect && !BeingScanned(t, k) ensures Reading(t, d, k) {
      if d == c {
        var i :| 0 <= i < |s.clients| && s.clients[i] == k;
        assert AtWork(t, |s.readers| + i, c, k);
      } else {
        assert Subscribed(s, d);
        ReadingKept(s, Connect(c), d, k);
      }
    }
  }

  lemma StreamsScan(s: State, step: Step)
    requires Inv(s) && StreamsUp(s) && Enabled(s, step) && InRange(Apply(s, step))
    requires step.FinderAdd? || step.FinderScan? || step.FinderScanned?
    ensures StreamsUp(Apply(s, step))
  {
    var t := Apply(s, step);
    ExcusesKept(s, step);
    assert t.consumers == s.consumers && t.slots == s.slots;
    forall c: nat, k | Subscribed(t, c) && k in t.clients && !t.info[k].disconnect && !BeingScanned(t, k) ensures Reading(t, c, k) {
      assert Subscribed(s, c);
      if step.FinderScanned? && BeingScanned(s, k) {
        assert InSlot(s, c);
        var i :| 0 <= i < |s.slots| && s.slots[i] == Some(c);
        assert Reading(s, c, k);
      }
      ReadingKept(s, step, c, k);
    }
    if t.finder.Scanner? {
      var k := t.finder.client;
      forall i, c | 0 <= i < t.finder.slot && t.slots[i] == Some(c) && Subscribed(t, c) ensures Reading(t, c, k) || t.info[k].disconnect {
        assert step.FinderScan? && Subscribed(s, c);
        if i == s.finder.slot {
          assert AtWork(t, |s.readers|, c, k);
        } else if !s.info[k].disconnect {
          ReadingKept(s, step, c, k);
        }
      }
    }
  }

  /** What the start of an event leaves: flags follow the event, nothing else about readers or consumers changes. */
  lemma BeginFlags(s: State, uris: seq<string>, k: nat)
    requires Inv(s) && Enabled(s, FinderBegin(uris)) && Distinct(uris) && k in s.clients
    ensures Apply(s, FinderBegin(uris)).info[k].disconnect <==> s.info[k].disconnect && s.info[k].uri !in uris
  {
    NamesDistinct(s);
    var i :| 0 <= i < |s.clients| && s.clients[i] == k;
    DeltaDeadExact(s.clients, UrisOf(s), uris, i);
  }

  /** What the start of an event does to everything the streams depend on. */
  ghost predicate Begun(s: State, uris: seq<string>, t: State) {
    && InRange(s) && InRange(t) && t.readers == s.readers && t.consumers == s.consumers && t.clients == s.clients
    && !s.finder.Scanner? && !t.finder.Scanner?
    && forall k :: k in s.clients ==>
         t.info[k].uri == s.info[k].uri && (t.info[k].disconnect <==> s.info[k].disconnect && s.info[k].uri !in uris)
  }

  lemma BeginFrame(s: State, uris: seq<string>)
    requires Inv(s) && Enabled(s, FinderBegin(uris)) && Distinct(uris) && InRange(Apply(s, FinderBegin(uris)))
    ensures Begun(s, uris, Apply(s, FinderBegin(uris)))
  {
    hide Delta, UrisUnique, PoolMatches, EventSplit, FlagsRight, ReadersListed, Coverage;
    var t := Apply(s, FinderBegin(uris));
    forall k | k in s.clients
      ensures t.info[k].uri == s.info[k].uri && (t.info[k].disconnect <==> s.info[k].disconnect && s.info[k].uri !in uris)
    {
      BeginFlags(s, uris, k);
    }
  }

  /** The start of an event keeps the streams up exactly when it finds its readers at work. */
  lemma BeginExact(s: State, uris: seq<string>)
    requires Inv(s) && StreamsUp(s) && Enabled(s, FinderBegin(uris)) && Distinct(uris) && InRange(Apply(s, FinderBegin(uris)))
    ensures StreamsUp(Apply(s, FinderBegin(uris))) <==> Continued(s, uris)
  {
    hide Inv, StreamsUp, Continued, Apply, Begun;
    BeginFrame(s, uris);
    Unfinished(s);
    if Continued(s, uris) {
      BeginKeeps(s, uris, Apply(s, FinderBegin(uris)));
    }
    if StreamsUp(Apply(s, FinderBegin(uris))) {
      BeginNeeds(s, uris, Apply(s, FinderBegin(uris)));
    }
  }

  lemma Unfinished(s: State)
    requires Inv(s)
    ensures InRange(s) && ReadersListed(s)
  {
  }

  lemma BeginKeeps(s: State, uris: seq<string>, t: State)
    requires Begun(s, uris, t) && ReadersListed(s) && StreamsUp(s) && Continued(s, uris)
    ensures StreamsUp(t)
  {
    hide Reading;
    forall c, k | Subscribed(t, c) && k in t.clients && !t.info[k].disconnect && !BeingScanned(t, k) ensures Reading(t, c, k) {
      assert Subscribed(s, c) && !BeingScanned(s, k);
      SameReaders(s, t, c, k);
    }
    forall r | 0 <= r < |t.readers| && t.readers[r].pc.Leaving? && !t.consumers[t.readers[r].consumer].dead
      ensures t.info[t.readers[r].client].disconnect
    {
      assert s.readers[r].Unfinished();
    }
  }

  lemma BeginNeeds(s: State, uris: seq<string>, t: State)
    requires Begun(s, uris, t) && ReadersListed(s) && StreamsUp(t)
    ensures Continued(s, uris)
  {
    hide Reading;
    forall c, k | Subscribed(s, c) && k in s.clients && s.info[k].disconnect && s.info[k].uri in uris ensures Reading(s, c, k) {
      assert Subscribed(t, c) && !BeingScanned(t, k);
      SameReaders(s, t, c, k);
    }
    forall r | 0 <= r < |s.readers| && s.readers[r].pc.Leaving? && !s.consumers[s.readers[r].consumer].dead
      ensures s.info[s.readers[r].client].uri !in uris
    {
      assert s.readers[r].Unfinished();
    }
  }

  lemma SameReaders(s: State, t: State, c: nat, k: nat)
    requires s.readers == t.readers
    ensures Reading(t, c, k) <==> Reading(s, c, k)
  {
    if r: nat :| AtWork(s, r, c, k) {
      assert AtWork(t, r, c, k);
    }
    if r: nat :| AtWork(t, r, c, k) {
      assert AtWork(s, r, c, k);
    }
  }

  /** A step keeps the streams up exactly when it is not an event that finds readers missing or leaving. */
  lemma StreamsStepExact(s: State, step: Step)
    requires Inv(s) && StreamsUp(s) && Enabled(s, step) && InRange(Apply(s, step))
    requires step.FinderBegin? ==> Distinct(step.uris)
    ensures StreamsUp(Apply(s, step)) <==> (step.FinderBegin? ==> Continued(s, step.uris))
  {
    hide Inv, StreamsUp, Continued, Apply;
    if step.FinderBegin? {
      BeginExact(s, step.uris);
    } else if step.Connect? {
      StreamsConnect(s, step.c);
    } else if step.FinderAdd? || step.FinderScan? || step.FinderScanned? {
      StreamsScan(s, step);
    } else {
      StreamsQuiet(s, step);
    }
  }

  ghost predicate ContinuedAt(s: State, step: Step) {
    step.FinderBegin? ==> Continued(s, step.uris)
  }

  ghost predicate ContinuedUpTo(states: seq<State>, steps: seq<Step>, n: nat)
    requires n <= |steps| <= |states|
  {
    forall i :: 0 <= i < n ==> ContinuedAt(states[i], steps[i])
  }

  /** A prompt run keeps all streams up to a state exactly when every event up to it finds its readers at work. */
  lemma {:induction false} StreamsExact(states: seq<State>, steps: seq<Step>, n: nat)
    requires IsRun(states, steps) && Prompt(states, steps) && EventsDistinct(steps) && n <= |steps|
    ensures (forall i :: 0 <= i <= n ==> StreamsUp(states[i])) <==> ContinuedUpTo(states, steps, n)
    decreases n
  {
    hide Inv, Apply, Continued, Prompt;
    PromptSafe(states, steps, n);
    RunExact(states, steps, n);
    if n == 0 {
      StreamsStart(states[0]) by {
        assert exists m: nat :: states[0] == Init(m);
      }
    } else {
      StreamsExact(states, steps, n - 1);
      var s, step := states[n - 1], steps[n - 1];
      assert Next(s, step, states[n]);
      if StreamsUp(s) {
        assert Inv(s) && Inv(states[n]);
        HasRange(states[n]);
        StreamsStepExact(s, step);
      }
      assert ContinuedUpTo(states, steps, n) <==> ContinuedUpTo(states, steps, n - 1) && ContinuedAt(s, step);
    }
  }

  lemma StreamsStart(s: State)
    requires exists n: nat :: s == Init(n)
    ensures StreamsUp(s)
  {
  }

  /** With no event in progress, each live subscribed consumer has a working reader on each advertised doppler. */
  lemma StreamTheorem(states: seq<State>, steps: seq<Step>, i: nat, c: nat, u: string)
    requires IsRun(states, steps) && Prompt(states, steps) && EventsDistinct(steps) && i < |states|
    requires ContinuedUpTo(states, steps, i)
    requires states[i].finder.Idle? && Subscribed(states[i], c) && u in states[i].latest
    ensures exists r: nat, k: nat :: AtWork(states[i], r, c, k) && k < |states[i].info| && states[i].info[k].uri == u
  {
    hide Apply, Prompt, Next, ContinuedUpTo;
    var s := states[i];
    StreamsExact(states, steps, i);
    PromptSafe(states, steps, i);
    RunExact(states, steps, i);
    assert Inv(s) && StreamsUp(s);
    assert Serves(s, u);
    var k :| k in s.clients && s.info[k].uri == u;
    assert Reading(s, c, k);
    var r: nat :| AtWork(s, r, c, k);
  }

  // ----- A simple sufficient condition -----

  /** No event brings back a doppler whose client is still being disconnected. */
  ghost predicate NoRevival(states: seq<State>, steps: seq<Step>)
    requires |steps| <= |states|
  {
    forall i :: 0 <= i < |steps| && steps[i].FinderBegin? ==> RevivesNone(states[i], steps[i].uris)
  }

  ghost predicate RevivesNone(s: State, uris: seq<string>) {
    forall k :: k in s.clients && k < |s.info| && s.info[k].disconnect ==> s.info[k].uri !in uris
  }

  lemma RevivesNoneContinues(s: State, uris: seq<string>)
    requires InRange(s) && ReadersListed(s) && LeaversExcused(s) && RevivesNone(s, uris)
    ensures Continued(s, uris)
  {
    forall r | 0 <= r < |s.readers| && s.readers[r].pc.Leaving? && !s.consumers[s.readers[r].consumer].dead
      ensures s.info[s.readers[r].client].uri !in uris
    {
      assert s.readers[r].Unfinished();
    }
  }

  lemma {:induction false} NoRevivalContinues(states: seq<State>, steps: seq<Step>, n: nat)
    requires IsRun(states, steps) && Prompt(states, steps) && EventsDistinct(steps) && NoRevival(states, steps) && n <= |steps|
    ensures ContinuedUpTo(states, steps, n)
    decreases n
  {
    hide Apply, Prompt, Next, Inv, Continued, LeaversExcused, RevivesNone, ReadersListed;
    if n > 0 {
      NoRevivalContinues(states, steps, n - 1);
      StreamsExact(states, steps, n - 1);
      PromptSafe(states, steps, n - 1);
      RunExact(states, steps, n - 1);
      var s, step := states[n - 1], steps[n - 1];
      assert Inv(s) && StreamsUp(s);
      Unfinished(s);
      if step.FinderBegin? {
        RevivesNoneContinues(s, step.uris);
      }
    }
  }
}
