/**
  Where the connector's promises stop: two reachable states in which they fail.
 */
module ConnectorFindings {
  import opened Wrappers
  import opened ConnectorState
  import opened ConnectorBasics
  import opened ConnectorRegistry
  import opened ConnectorCoverage

  /** Reached by a run whose events repeat no URI, on a prompt schedule if asked. */
  ghost predicate Reaches(states: seq<State>, steps: seq<Step>, t: State, prompt: bool) {
    IsRun(states, steps) && EventsDistinct(steps) && (prompt ==> Prompt(states, steps)) && states[|steps|] == t
  }

  ghost predicate Reachable(t: State, prompt: bool) {
    exists states, steps :: Reaches(states, steps, t, prompt)
  }

  ghost predicate AllowedNext(s: State, step: Step, t: State, prompt: bool) {
    && Next(s, step, t)
    && (step.FinderBegin? ==> Distinct(step.uris))
    && (prompt && (step.FinderBegin? || step.Leave?) ==>
          forall r :: 0 <= r < |s.readers| ==> !s.readers[r].Pending())
  }

  lemma ExtendRun(states: seq<State>, steps: seq<Step>, s: State, step: Step, t: State, prompt: bool)
    requires Reaches(states, steps, s, prompt) && AllowedNext(s, step, t, prompt)
    ensures Reaches(states + [t], steps + [step], t, prompt)
  {
    var states', steps' := states + [t], steps + [step];
    var n: nat :| states[0] == Init(n);
    assert states'[0] == Init(n);
  }

  lemma Extend(s: State, step: Step, t: State, prompt: bool)
    requires Reachable(s, prompt) && AllowedNext(s, step, t, prompt)
    ensures Reachable(t, prompt)
  {
    var states, steps :| Reaches(states, steps, s, prompt);
    ExtendRun(states, steps, s, step, t, prompt);
  }

  /** States of a connector with one live, subscribed consumer in its only slot. */
  function At(dopplers: set<string>, clients: seq<nat>, info: seq<Client>, pool: set<string>,
              readers: seq<Reader>, finder: Finder, latest: seq<string>): State
  {
    State([Some(0)], [Consumer(false, dopplers, Finished)], clients, info, pool, readers, finder, latest)
  }

  lemma OneSubscriber(prompt: bool)
    ensures Reachable(At({}, [], [], {}, [], Idle, []), prompt)
  {
    var s0 := Init(1);
    var s1 := s0.(consumers := [Consumer(false, {}, Scanning(0))]);
    var s2 := s0.(consumers := [Consumer(false, {}, Loaded(0, None))]);
    assert Reaches([s0], [], s0, prompt);
    assert s0.slots == [None];
    Extend(s0, NewConsumer, s1, prompt);
    Extend(s1, Load(0), s2, prompt);
    Claimed(s2, prompt);
  }

  lemma Claimed(s: State, prompt: bool)
    requires s == State([None], [Consumer(false, {}, Loaded(0, None))], [], [], {}, [], Idle, []) && Reachable(s, prompt)
    ensures Reachable(At({}, [], [], {}, [], Idle, []), prompt)
  {
    hide Reachable;
    var t := State([Some(0)], [Consumer(false, {}, SubscribePc.Claimed)], [], [], {}, [], Idle, []);
    Extend(s, Cas(0), t, prompt);
    Extend(t, Connect(0), At({}, [], [], {}, [], Idle, []), prompt);
  }

  /** An event advertises "a" while no doppler is listed: a client is made and a reader spawned for it. */
  lemma Advertised(info: seq<Client>, readers: seq<Reader>, prompt: bool)
    requires InRange(At({}, [], info, {}, readers, Idle, []))
    requires prompt ==> readers == []
    requires Reachable(At({}, [], info, {}, readers, Idle, []), prompt)
    ensures Reachable(At({}, [|info|], info + [Client("a", false, 0)], {"a"}, readers + [Reader(0, |info|, Spawned)], Idle, ["a"]), prompt)
  {
    hide Reachable;
    var s0 := At({}, [], info, {}, readers, Idle, []);
    var s1 := At({}, [], info, {}, readers, Adding(["a"], []), ["a"]);
    var s2 := At({}, [|info|], info + [Client("a", false, 0)], {"a"}, readers, Scanner(|info|, 0, [], []), ["a"]);
    assert UrisOf(s0) == [];
    assert Delta<nat>([], [], ["a"]) == DeltaResult(["a"], []);
    assert Revived(s0, []) == info;
    Extend(s0, FinderBegin(["a"]), s1, prompt);
    assert ["a"][1..] == [] && s1.clients + [|info|] == [|info|] && {} + {"a"} == {"a"};
    Extend(s1, FinderAdd, s2, prompt);
    Scanned(|info|, s2.info, readers, prompt);
  }

  lemma Scanned(k: nat, info: seq<Client>, readers: seq<Reader>, prompt: bool)
    requires k < |info| && InRange(At({}, [k], info, {"a"}, readers, Scanner(k, 0, [], []), ["a"]))
    requires Reachable(At({}, [k], info, {"a"}, readers, Scanner(k, 0, [], []), ["a"]), prompt)
    ensures Reachable(At({}, [k], info, {"a"}, readers + [Reader(0, k, Spawned)], Idle, ["a"]), prompt)
  {
    hide Reachable;
    var rs := readers + [Reader(0, k, Spawned)];
    var s0 := At({}, [k], info, {"a"}, readers, Scanner(k, 0, [], []), ["a"]);
    var s1 := At({}, [k], info, {"a"}, rs, Scanner(k, 1, [], []), ["a"]);
    Extend(s0, FinderScan, s1, prompt);
    EventEnds(s1, prompt);
  }

  /** An event with nothing left to add or disable ends. */
  lemma EventEnds(s: State, prompt: bool)
    requires InRange(s) && Reachable(s, prompt)
    requires s.finder.Scanner? && s.finder.slot == |s.slots| && s.finder.todo == [] && s.finder.dead == []
    ensures Reachable(s.(finder := Idle), prompt)
  {
    hide Reachable;
    var t := s.(finder := Adding([], []));
    Extend(s, FinderScanned, t, prompt);
    Extend(t, FinderEnd, s.(finder := Idle), prompt);
  }

  /** The next event drops "a" while nobody is counted on it: it is closed, spawned reader or not. */
  lemma Withdrawn(readers: seq<Reader>)
    requires InRange(At({}, [0], [Client("a", false, 0)], {"a"}, readers, Idle, ["a"]))
    requires Reachable(At({}, [0], [Client("a", false, 0)], {"a"}, readers, Idle, ["a"]), false)
    ensures Reachable(At({}, [], [Client("a", true, 0)], {}, readers, Idle, []), false)
  {
    hide Reachable;
    var s0 := At({}, [0], [Client("a", false, 0)], {"a"}, readers, Idle, ["a"]);
    var s1 := At({}, [0], [Client("a", false, 0)], {"a"}, readers, Adding([], [0]), []);
    BeginWithdrawal({}, 0, readers, false);
    Killed(s1);
    Extend(s1.(info := [Client("a", true, 0)], clients := [], pool := {}, finder := Adding([], [])), FinderEnd,
           At({}, [], [Client("a", true, 0)], {}, readers, Idle, []), false);
  }

  lemma BeginWithdrawal(dopplers: set<string>, refs: nat, readers: seq<Reader>, prompt: bool)
    requires InRange(At(dopplers, [0], [Client("a", false, refs)], {"a"}, readers, Idle, ["a"]))
    requires prompt ==> forall r :: 0 <= r < |readers| ==> !readers[r].Pending()
    requires Reachable(At(dopplers, [0], [Client("a", false, refs)], {"a"}, readers, Idle, ["a"]), prompt)
    ensures Reachable(At(dopplers, [0], [Client("a", false, refs)], {"a"}, readers, Adding([], [0]), []), prompt)
  {
    hide Reachable;
    var a := [Client("a", false, refs)];
    var s0 := At(dopplers, [0], a, {"a"}, readers, Idle, ["a"]);
    assert Delta([0], UrisOf(s0), []) == DeltaResult([], [0]);
    assert Revived(s0, [0]) == a;
    Extend(s0, FinderBegin([]), At(dopplers, [0], a, {"a"}, readers, Adding([], [0]), []), prompt);
  }

  lemma Killed(s: State)
    requires InRange(s) && Reachable(s, false) && s.clients == [0] && s.info == [Client("a", false, 0)] && s.pool == {"a"}
    requires s.finder == Adding([], [0])
    ensures Reachable(s.(info := [Client("a", true, 0)], clients := [], pool := {}, finder := Adding([], [])), false)
  {
    hide Reachable;
    assert Remove([0], 0) == [] && [0][1..] == [] && {"a"} - {"a"} == {};
    Extend(s, FinderKill, s.(info := [Client("a", true, 0)], clients := [], pool := {}, finder := Adding([], [])), false);
  }

  /** "a" comes back as a new client while the first reader still waits to start. */
  lemma SecondClient()
    ensures Reachable(At({}, [1], [Client("a", true, 0), Client("a", false, 0)], {"a"},
                         [Reader(0, 0, Spawned), Reader(0, 1, Spawned)], Idle, ["a"]), false)
  {
    hide Reachable;
    var first, rs := [Client("a", false, 0)], [Reader(0, 0, Spawned)];
    OneSubscriber(false);
    Advertised([], [], false);
    assert [] + first == first && [] + rs == rs;
    Withdrawn(rs);
    Advertised([Client("a", true, 0)], rs, false);
    assert rs + [Reader(0, 1, Spawned)] == [Reader(0, 0, Spawned), Reader(0, 1, Spawned)];
    assert [Client("a", true, 0)] + first == [Client("a", true, 0), Client("a", false, 0)];
  }

  /** The late reader takes the URI, so the reader of the new client is turned away. */
  lemma Misplaced()
    ensures Reachable(At({"a"}, [1], [Client("a", true, 0), Client("a", false, 0)], {"a"},
                         [Reader(0, 0, Added), Reader(0, 1, Rejected)], Idle, ["a"]), false)
  {
    hide Reachable;
    var info := [Client("a", true, 0), Client("a", false, 0)];
    var s0 := At({}, [1], info, {"a"}, [Reader(0, 0, Spawned), Reader(0, 1, Spawned)], Idle, ["a"]);
    var s1 := At({"a"}, [1], info, {"a"}, [Reader(0, 0, Added), Reader(0, 1, Spawned)], Idle, ["a"]);
    SecondClient();
    assert {} + {"a"} == {"a"};
    Extend(s0, Start(0), s1, false);
    Extend(s1, Start(1), At({"a"}, [1], info, {"a"}, [Reader(0, 0, Added), Reader(0, 1, Rejected)], Idle, ["a"]), false);
  }

  lemma LateReaderRuns()
    ensures Reachable(At({"a"}, [1], [Client("a", true, 1), Client("a", false, 0)], {"a"},
                         [Reader(0, 0, Running(true)), Reader(0, 1, Rejected)], Idle, ["a"]), false)
  {
    hide Reachable;
    var info := [Client("a", true, 1), Client("a", false, 0)];
    var s0 := At({"a"}, [1], [Client("a", true, 0), Client("a", false, 0)], {"a"}, [Reader(0, 0, Added), Reader(0, 1, Rejected)], Idle, ["a"]);
    var s1 := At({"a"}, [1], info, {"a"}, [Reader(0, 0, Running(false)), Reader(0, 1, Rejected)], Idle, ["a"]);
    Misplaced();
    Extend(s0, Count(0), s1, false);
    Extend(s1, Loop(0, false), At({"a"}, [1], info, {"a"}, [Reader(0, 0, Running(true)), Reader(0, 1, Rejected)], Idle, ["a"]), false);
  }

  /**
    A reachable state of a schedule that is not prompt: doppler "a" is advertised and listed, yet the
    pool no longer knows it, and a live subscribed consumer never got a reader for it.
   */
  lemma OrphanedDoppler() returns (s: State)
    ensures Reachable(s, false) && InRange(s) && s.finder.Idle?
    ensures s.latest == ["a"] && UrisOf(s) == ["a"] && "a" !in s.pool
    ensures Subscribed(s, 0) && !Covered(s, 0, s.clients[0])
  {
    hide Reachable;
    var info := [Client("a", true, 1), Client("a", false, 0)];
    var s0 := At({"a"}, [1], info, {"a"}, [Reader(0, 0, Running(true)), Reader(0, 1, Rejected)], Idle, ["a"]);
    var s1 := s0.(readers := [Reader(0, 0, Leaving), Reader(0, 1, Rejected)]);
    LateReaderRuns();
    Extend(s0, Loop(0, false), s1, false);
    s := LateReaderLeaves(s1);
  }

  lemma LateReaderLeaves(s: State) returns (t: State)
    requires s == At({"a"}, [1], [Client("a", true, 1), Client("a", false, 0)], {"a"}, [Reader(0, 0, Leaving), Reader(0, 1, Rejected)], Idle, ["a"])
    requires Reachable(s, false)
    ensures Reachable(t, false)
    ensures t == At({}, [1], [Client("a", true, 0), Client("a", false, 0)], {}, [Reader(0, 0, Exited), Reader(0, 1, Rejected)], Idle, ["a"])
  {
    hide Reachable;
    t := At({}, [1], [Client("a", true, 0), Client("a", false, 0)], {}, [Reader(0, 0, Exited), Reader(0, 1, Rejected)], Idle, ["a"]);
    assert Remove([1], 0) == [1] && {"a"} - {"a"} == {};
    Extend(s, Leave(0), t, false);
  }

  // ----- A doppler that flaps -----

  lemma CountedReader()
    ensures Reachable(At({"a"}, [0], [Client("a", false, 1)], {"a"}, [Reader(0, 0, Running(true))], Idle, ["a"]), true)
  {
    hide Reachable;
    var a0 := [Client("a", false, 0)];
    var s0 := At({}, [0], a0, {"a"}, [Reader(0, 0, Spawned)], Idle, ["a"]);
    var s1 := At({"a"}, [0], a0, {"a"}, [Reader(0, 0, Added)], Idle, ["a"]);
    OneSubscriber(true);
    Advertised([], [], true);
    assert [] + a0 == a0 && [] + [Reader(0, 0, Spawned)] == [Reader(0, 0, Spawned)];
    assert {} + {"a"} == {"a"};
    Extend(s0, Start(0), s1, true);
    Counting(s1);
  }

  lemma Counting(s: State)
    requires s == At({"a"}, [0], [Client("a", false, 0)], {"a"}, [Reader(0, 0, Added)], Idle, ["a"]) && Reachable(s, true)
    ensures Reachable(At({"a"}, [0], [Client("a", false, 1)], {"a"}, [Reader(0, 0, Running(true))], Idle, ["a"]), true)
  {
    hide Reachable;
    var a1 := [Client("a", false, 1)];
    var t := At({"a"}, [0], a1, {"a"}, [Reader(0, 0, Running(false))], Idle, ["a"]);
    Extend(s, Count(0), t, true);
    Extend(t, Loop(0, false), At({"a"}, [0], a1, {"a"}, [Reader(0, 0, Running(true))], Idle, ["a"]), true);
  }

  /** "a" disappears for one event; the reader notices and decides to leave. */
  lemma Noticed()
    ensures Reachable(At({"a"}, [0], [Client("a", true, 1)], {"a"}, [Reader(0, 0, Leaving)], Idle, []), true)
  {
    hide Reachable;
    var rs := [Reader(0, 0, Running(true))];
    var s1 := At({"a"}, [0], [Client("a", false, 1)], {"a"}, rs, Adding([], [0]), []);
    var s2 := At({"a"}, [0], [Client("a", true, 1)], {"a"}, rs, Adding([], []), []);
    CountedReader();
    BeginWithdrawal({"a"}, 1, rs, true);
    assert [0][1..] == [];
    Extend(s1, FinderKill, s2, true);
    Noticing(s2);
  }

  lemma Noticing(s: State)
    requires s == At({"a"}, [0], [Client("a", true, 1)], {"a"}, [Reader(0, 0, Running(true))], Adding([], []), []) && Reachable(s, true)
    ensures Reachable(At({"a"}, [0], [Client("a", true, 1)], {"a"}, [Reader(0, 0, Leaving)], Idle, []), true)
  {
    hide Reachable;
    var t := s.(finder := Idle);
    Extend(s, FinderEnd, t, true);
    Extend(t, Loop(0, false), At({"a"}, [0], [Client("a", true, 1)], {"a"}, [Reader(0, 0, Leaving)], Idle, []), true);
  }

  /** "a" is back before the reader has cleaned up: the same client is kept, nothing is spawned. */
  lemma Returned()
    ensures Reachable(At({"a"}, [0], [Client("a", false, 1)], {"a"}, [Reader(0, 0, Leaving)], Idle, ["a"]), true)
  {
    hide Reachable;
    var s0 := At({"a"}, [0], [Client("a", true, 1)], {"a"}, [Reader(0, 0, Leaving)], Idle, []);
    var s1 := At({"a"}, [0], [Client("a", false, 1)], {"a"}, [Reader(0, 0, Leaving)], Adding([], []), ["a"]);
    Noticed();
    Reviving(s0);
    Extend(s1, FinderEnd, s1.(finder := Idle), true);
  }

  lemma Reviving(s: State)
    requires s == At({"a"}, [0], [Client("a", true, 1)], {"a"}, [Reader(0, 0, Leaving)], Idle, []) && Reachable(s, true)
    ensures Reachable(At({"a"}, [0], [Client("a", false, 1)], {"a"}, [Reader(0, 0, Leaving)], Adding([], []), ["a"]), true)
  {
    hide Reachable;
    DeltaOfKnown();
    assert UrisOf(s) == ["a"];
    assert Revived(s, []) == [Client("a", false, 1)];
    Extend(s, FinderBegin(["a"]), s.(info := [Client("a", false, 1)], finder := Adding([], []), latest := ["a"]), true);
  }

  lemma DeltaOfKnown()
    ensures Delta([0], ["a"], ["a"]) == DeltaResult([], [])
  {
    assert FirstAt(["a"], "a") == 0;
    assert Without([0], 0) == [] && Without(["a"], 0) == [] && ["a"][1..] == [];
  }

  /**
    A reachable state of a prompt schedule: doppler "a" is advertised, connected and listed, and a
    live subscribed consumer has no unfinished reader on it; no later step will give it one while
    "a" stays advertised, because it is not a new URI.
   */
  lemma FlapLosesStream() returns (s: State)
    ensures Reachable(s, true) && InRange(s) && s.finder.Idle?
    ensures s.latest == ["a"] && UrisOf(s) == ["a"] && s.pool == {"a"} && !s.info[s.clients[0]].disconnect
    ensures Subscribed(s, 0) && forall r :: 0 <= r < |s.readers| ==> !s.readers[r].Unfinished()
  {
    hide Reachable;
    var s0 := At({"a"}, [0], [Client("a", false, 1)], {"a"}, [Reader(0, 0, Leaving)], Idle, ["a"]);
    s := At({}, [0], [Client("a", false, 0)], {"a"}, [Reader(0, 0, Exited)], Idle, ["a"]);
    Returned();
    assert {"a"} - {"a"} == {};
    Extend(s0, Leave(0), s, true);
  }
}
