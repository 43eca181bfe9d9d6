/**
  Leader election among syslog drain binders: syslog_drain_binder/elector/elector.go driven by the ticker loop of
  syslog_drain_binder/main.go. Instances are numbered, so their names are distinct; every store call and every
  change of the flag is a step of its own, and a store call may take effect although it reports an error.
 */
module Election {
  import opened Wrappers

  /** When a lease ends; a TTL of 0 seconds means never. */
  datatype Expiry = Never | Until(time: int)

  datatype Node = Node(owner: nat, expiry: Expiry)

  datatype Answer = Ok | KeyExists | OtherError

  /** Where an instance is in its loop. */
  datatype Pc =
    | Waiting
    | Creating
    | Created(answer: Answer)
    | Swapping
    | Swapped(ok: bool)
    | Polling
    | Updating
    | Vacating
    | Deleting

  /** `lease` is the end of the lease that the last successful create or swap asked for; `won` that it was in this tick. */
  datatype Instance = Instance(isLeader: bool, pc: Pc, lease: Option<Expiry>, won: bool)

  datatype State = State(now: int, ttl: nat, key: Option<Node>, instances: seq<Instance>)

  datatype Step =
    | Advance(seconds: nat)
    | Tick(i: nat)
    | Create(i: nat, applied: bool, reported: bool)
    | AfterCreate(i: nat)
    | Swap(i: nat, applied: bool, reported: bool)
    | AfterSwap(i: nat)
    | Poll(i: nat, ok: bool)
    | UpdateDrains(i: nat, ok: bool)
    | StepDown(i: nat)
    | Delete(i: nat, applied: bool)
    | Restart(i: nat)

  function Live(e: Expiry, now: int): bool { e.Never? || now < e.time }

  /** `generateNode`: the lease asked for at this moment. */
  function Lease(s: State): Expiry { if s.ttl == 0 then Never else Until(s.now + s.ttl) }

  /** The store's view: an expired key is gone. */
  function Holder(s: State): Option<nat> {
    if s.key.Some? && Live(s.key.value.expiry, s.now) then Some(s.key.value.owner) else None
  }

  function Initial(n: nat, ttl: nat): State {
    State(0, ttl, None, seq(n, i => Instance(false, Waiting, None, false)))
  }

  predicate Enabled(s: State, step: Step) {
    match step
    case Advance(_) => true
    case Tick(i) => i < |s.instances| && s.instances[i].pc.Waiting?
    case Create(i, _, _) => i < |s.instances| && s.instances[i].pc.Creating?
    case AfterCreate(i) => i < |s.instances| && s.instances[i].pc.Created?
    case Swap(i, _, _) => i < |s.instances| && s.instances[i].pc.Swapping?
    case AfterSwap(i) => i < |s.instances| && s.instances[i].pc.Swapped?
    case Poll(i, _) => i < |s.instances| && s.instances[i].pc.Polling?
    case UpdateDrains(i, _) => i < |s.instances| && s.instances[i].pc.Updating?
    case StepDown(i) => i < |s.instances| && s.instances[i].pc.Vacating?
    case Delete(i, _) => i < |s.instances| && s.instances[i].pc.Deleting?
    case Restart(i) => i < |s.instances|
  }

  /** A store call that takes effect writes the node; the caller learns so only if the answer arrives. */
  function Take(s: State, i: nat, possible: bool, applied: bool, reported: bool): (Option<Node>, bool) {
    if possible && applied then (Some(Node(i, Lease(s))), reported) else (s.key, false)
  }

  /** The step's effect on its own instance. */
  function Moved(s: State, x: Instance, step: Step): Instance {
    match step
    case Advance(_) => x
    case Tick(_) => x.(pc := if x.isLeader then Swapping else Creating, won := false)
    case Create(i, applied, reported) =>
      var ok := Take(s, i, Holder(s).None?, applied, reported).1;
      if ok then x.(pc := Created(Ok), lease := Some(Lease(s)), won := true)
      else x.(pc := Created(if Holder(s).Some? && reported then KeyExists else OtherError))
    case AfterCreate(_) =>
      if !x.pc.Created? then x
      else x.(isLeader := x.pc.answer.Ok?,
              pc := match x.pc.answer case Ok => Polling case KeyExists => Creating case OtherError => Vacating)
    case Swap(i, applied, reported) =>
      var ok := Take(s, i, Holder(s) == Some(i), applied, reported).1;
      if ok then x.(pc := Swapped(true), lease := Some(Lease(s)), won := true) else x.(pc := Swapped(false))
    case AfterSwap(_) =>
      if !x.pc.Swapped? then x else x.(isLeader := x.pc.ok, pc := if x.pc.ok then Polling else Vacating)
    case Poll(_, ok) => x.(pc := if ok then Updating else Vacating)
    case UpdateDrains(_, ok) => x.(pc := if ok then Waiting else Vacating)
    case StepDown(_) => x.(isLeader := false, pc := Deleting)
    case Delete(_, _) => x.(pc := Waiting)
    case Restart(_) => Instance(false, Waiting, None, false)
  }

  function KeyAfter(s: State, step: Step): Option<Node> {
    match step
    case Create(i, applied, reported) => Take(s, i, Holder(s).None?, applied, reported).0
    case Swap(i, applied, reported) => Take(s, i, Holder(s) == Some(i), applied, reported).0
    case Delete(i, applied) => if applied && Holder(s) == Some(i) then None else s.key
    case _ => s.key
  }

  function Apply(s: State, step: Step): State
    requires Enabled(s, step)
  {
    if step.Advance? then s.(now := s.now + step.seconds)
    else s.(key := KeyAfter(s, step), instances := s.instances[step.i := Moved(s, s.instances[step.i], step)])
  }

  ghost predicate Next(s: State, step: Step, t: State) {
    Enabled(s, step) && t == Apply(s, step)
  }

  ghost predicate IsRun(n: nat, ttl: nat, states: seq<State>, steps: seq<Step>) {
    && |states| == |steps| + 1 && states[0] == Initial(n, ttl)
    && forall i :: 0 <= i < |steps| ==> Next(states[i], steps[i], states[i + 1])
  }

  // ----- The invariant -----

  /** The flag is set, or is about to be because the store said yes. */
  predicate Claims(x: Instance) {
    x.isLeader || x.pc == Created(Ok) || x.pc == Swapped(true)
  }

  /** The first lease ends no later than the second. */
  predicate NoLater(a: Expiry, b: Expiry) {
    b.Never? || (a.Until? && a.time <= b.time)
  }

  /** A claim whose lease still runs is backed by the key. */
  ghost predicate Backed(s: State, i: nat, x: Instance) {
    && (Claims(x) ==> x.lease.Some?)
    && (x.lease.Some? ==> NoLater(x.lease.value, Lease(s)))
    && (Claims(x) && Live(x.lease.value, s.now) ==>
          s.key.Some? && s.key.value.owner == i && NoLater(x.lease.value, s.key.value.expiry))
  }

  /** The flag agrees with the place in the loop, and drains are reached only from a win in the same tick. */
  ghost predicate InStep(x: Instance) {
    && (x.pc.Creating? || x.pc.Created? || x.pc.Deleting? ==> !x.isLeader)
    && (x.pc.Swapping? || x.pc.Polling? || x.pc.Updating? ==> x.isLeader)
    && (x.pc.Polling? || x.pc.Updating? || x.pc == Created(Ok) || x.pc == Swapped(true) ==> x.won)
  }

  ghost predicate Inv(s: State) {
    forall i :: 0 <= i < |s.instances| ==> Backed(s, i, s.instances[i]) && InStep(s.instances[i])
  }

  /** What one instance does leaves another's live key alone. */
  lemma NotAnothers(s: State, step: Step, j: nat)
    requires Enabled(s, step) && !step.Advance? && step.i != j && Holder(s) == Some(j)
    ensures Apply(s, step).key == s.key
  {
  }

  lemma OthersBacked(s: State, step: Step, j: nat)
    requires Inv(s) && Enabled(s, step) && !step.Advance? && step.i != j < |s.instances|
    ensures Backed(Apply(s, step), j, s.instances[j])
  {
    assert Backed(s, j, s.instances[j]);
    if Claims(s.instances[j]) && Live(s.instances[j].lease.value, s.now) {
      NotAnothers(s, step, j);
    }
  }

  lemma OwnBacked(s: State, step: Step)
    requires Inv(s) && Enabled(s, step) && !step.Advance?
    ensures
      var x := Moved(s, s.instances[step.i], step);
      Backed(Apply(s, step), step.i, x) && InStep(x)
  {
    assert Backed(s, step.i, s.instances[step.i]) && InStep(s.instances[step.i]);
  }

  lemma StepKept(s: State, step: Step)
    requires Inv(s) && Enabled(s, step)
    ensures Inv(Apply(s, step))
  {
    hide Moved, KeyAfter, InStep;
    var t := Apply(s, step);
    if step.Advance? {
      forall j | 0 <= j < |t.instances| ensures Backed(t, j, t.instances[j]) && InStep(t.instances[j]) {
        assert Backed(s, j, s.instances[j]);
      }
    } else {
      OwnBacked(s, step);
      forall j | 0 <= j < |t.instances| ensures Backed(t, j, t.instances[j]) && InStep(t.instances[j]) {
        if j != step.i {
          OthersBacked(s, step, j);
        }
      }
    }
  }

  lemma {:induction false} Always(n: nat, ttl: nat, states: seq<State>, steps: seq<Step>, i: nat)
    requires IsRun(n, ttl, states, steps) && i < |states|
    ensures Inv(states[i])
  {
    hide Inv, Apply;
    if i > 0 {
      Always(n, ttl, states, steps, i - 1);
      assert Next(states[i - 1], steps[i - 1], states[i]);
      StepKept(states[i - 1], steps[i - 1]);
    } else {
      InitialInv(n, ttl);
    }
  }

  lemma InitialInv(n: nat, ttl: nat)
    ensures Inv(Initial(n, ttl))
  {
  }

  // ----- Safety -----

  /** Leader by its own flag, on a lease that still runs. */
  predicate Leads(s: State, i: nat) {
    && i < |s.instances| && s.instances[i].isLeader
    && s.instances[i].lease.Some? && Live(s.instances[i].lease.value, s.now)
  }

  /** A leader with a running lease owns the key, so there is at most one. */
  lemma ElectionSafety(n: nat, ttl: nat, states: seq<State>, steps: seq<Step>, k: nat, i: nat, j: nat)
    requires IsRun(n, ttl, states, steps) && k < |states| && Leads(states[k], i) && Leads(states[k], j)
    ensures i == j && Holder(states[k]) == Some(i)
  {
    Always(n, ttl, states, steps, k);
    var s := states[k];
    assert Backed(s, i, s.instances[i]) && Backed(s, j, s.instances[j]);
  }

  /** `UpdateDrains` is reached only in a tick whose own create or swap succeeded, with the flag set. */
  lemma DrainsOnlyAfterWin(n: nat, ttl: nat, states: seq<State>, steps: seq<Step>, k: nat, i: nat)
    requires IsRun(n, ttl, states, steps) && k < |states| && i < |states[k].instances| && states[k].instances[i].pc.Updating?
    ensures states[k].instances[i].won && states[k].instances[i].isLeader && states[k].instances[i].lease.Some?
  {
    Always(n, ttl, states, steps, k);
    assert Backed(states[k], i, states[k].instances[i]) && InStep(states[k].instances[i]);
  }

  /** Two instances can be at `UpdateDrains` together only if the lease of one has run out. */
  lemma TwoUpdatersExpired(n: nat, ttl: nat, states: seq<State>, steps: seq<Step>, k: nat, i: nat, j: nat)
    requires IsRun(n, ttl, states, steps) && k < |states| && i < j < |states[k].instances|
    requires states[k].instances[i].pc.Updating? && states[k].instances[j].pc.Updating?
    ensures !Leads(states[k], i) || !Leads(states[k], j)
  {
    if Leads(states[k], i) && Leads(states[k], j) {
      ElectionSafety(n, ttl, states, steps, k, i, j);
    }
  }

  /** A swap that takes effect gives its owner the key for one more TTL from now. */
  lemma StayRenews(s: State, i: nat, reported: bool)
    requires Enabled(s, Swap(i, true, reported)) && Holder(s) == Some(i)
    ensures
      var t := Apply(s, Swap(i, true, reported));
      && t.now == s.now && t.key.Some? && t.key.value.owner == i
      && (s.ttl == 0 ==> t.key.value.expiry == Never)
      && (s.ttl > 0 ==> t.key.value.expiry == Until(s.now + s.ttl))
  {
  }

  /** A delete that takes effect frees the key for the others. */
  lemma VacateFrees(s: State, i: nat)
    requires Enabled(s, Delete(i, true)) && Holder(s) == Some(i)
    ensures Holder(Apply(s, Delete(i, true))).None?
  {
  }

  /** A create takes the key exactly if nobody holds it; told that somebody does, the instance tries again, no leader. */
  lemma CreateExact(s: State, i: nat, applied: bool, reported: bool)
    requires Enabled(s, Create(i, applied, reported))
    ensures
      var t := Apply(s, Create(i, applied, reported));
      && (applied && Holder(s).None? ==> t.key.Some? && t.key.value.owner == i)
      && (!applied || Holder(s).Some? ==> t.key == s.key)
      && (t.instances[i].pc == Created(Ok) <==> applied && reported && Holder(s).None?)
      && (Holder(s).Some? && reported ==>
            && Enabled(t, AfterCreate(i))
            && Apply(t, AfterCreate(i)).instances[i].pc == Creating && !Apply(t, AfterCreate(i)).instances[i].isLeader)
  {
  }

  /** Two instances are at `UpdateDrains` in the same state. */
  ghost predicate TwoAtOnce(s: State) {
    exists i, j :: 0 <= i < j < |s.instances| && s.instances[i].pc.Updating? && s.instances[j].pc.Updating?
  }

  ghost predicate Reaches(n: nat, ttl: nat, states: seq<State>, steps: seq<Step>) {
    IsRun(n, ttl, states, steps) && TwoAtOnce(states[|steps|])
  }

  /** Without a TTL no lease ever ends. */
  ghost predicate Endless(s: State) {
    s.ttl == 0 && forall i :: 0 <= i < |s.instances| && s.instances[i].lease.Some? ==> s.instances[i].lease.value.Never?
  }

  lemma {:induction false} EndlessAlways(n: nat, states: seq<State>, steps: seq<Step>, i: nat)
    requires IsRun(n, 0, states, steps) && i < |states|
    ensures Endless(states[i])
  {
    if i > 0 {
      EndlessAlways(n, states, steps, i - 1);
      assert Next(states[i - 1], steps[i - 1], states[i]);
    }
  }

  lemma NeverTwoWithoutTtl(n: nat, states: seq<State>, steps: seq<Step>, k: nat)
    requires IsRun(n, 0, states, steps) && k < |states|
    ensures !TwoAtOnce(states[k])
  {
    hide IsRun;
    EndlessAlways(n, states, steps, k);
    var s := states[k];
    if i, j :| 0 <= i < j < |s.instances| && s.instances[i].pc.Updating? && s.instances[j].pc.Updating? {
      DrainsOnlyAfterWin(n, 0, states, steps, k, i);
      DrainsOnlyAfterWin(n, 0, states, steps, k, j);
      ElectionSafety(n, 0, states, steps, k, i, j);
    }
  }

  /** From a state with a free key, an instance that waits gets to `UpdateDrains` in four steps. */
  function Won(s: State, i: nat): State
    requires i < |s.instances|
  {
    s.(key := Some(Node(i, Lease(s))),
       instances := s.instances[i := Instance(true, Updating, Some(Lease(s)), true)])
  }

  function Campaign(i: nat): seq<Step> {
    [Tick(i), Create(i, true, true), AfterCreate(i), Poll(i, true)]
  }

  lemma Wins(s: State, i: nat) returns (a: State, b: State, c: State)
    requires i < |s.instances| && s.instances[i].pc.Waiting? && !s.instances[i].isLeader && Holder(s).None?
    ensures Next(s, Tick(i), a) && Next(a, Create(i, true, true), b) && Next(b, AfterCreate(i), c) && Next(c, Poll(i, true), Won(s, i))
  {
    a := Apply(s, Tick(i));
    b := Apply(a, Create(i, true, true));
    c := Apply(b, AfterCreate(i));
    assert Apply(c, Poll(i, true)).instances == Won(s, i).instances;
  }

  /** With a TTL it happens when a poll outlasts the lease: the flag is not tied to the clock. */
  lemma TwoUpdaters(n: nat, ttl: nat) returns (states: seq<State>, steps: seq<Step>)
    requires ttl > 0 && n >= 2
    ensures Reaches(n, ttl, states, steps)
  {
    hide Apply;
    var s0 := Initial(n, ttl);
    var s1, s2, s3 := Wins(s0, 0);
    var s4 := Won(s0, 0);
    var s5 := s4.(now := s4.now + ttl);
    Later(s4, ttl);
    var s6, s7, s8 := Wins(s5, 1);
    var s9 := Won(s5, 1);
    states := [s0, s1, s2, s3, s4, s5, s6, s7, s8, s9];
    steps := Campaign(0) + [Advance(ttl)] + Campaign(1);
    forall i | 0 <= i < |steps| ensures Next(states[i], steps[i], states[i + 1]) {
    }
    assert s9.instances[0].pc.Updating? && s9.instances[1].pc.Updating?;
  }

  lemma Later(s: State, seconds: nat)
    ensures Next(s, Advance(seconds), s.(now := s.now + seconds))
  {
  }

  /** Among two or more instances, two can be at `UpdateDrains` at once exactly when leases have an end. */
  lemma TwoUpdatersExact(n: nat, ttl: nat)
    requires n >= 2
    ensures (exists states, steps :: Reaches(n, ttl, states, steps)) <==> ttl > 0
  {
    hide IsRun, TwoAtOnce;
    if ttl > 0 {
      var states, steps := TwoUpdaters(n, ttl);
    } else if states, steps :| Reaches(n, ttl, states, steps) {
      RunLength(n, ttl, states, steps);
      NeverTwoWithoutTtl(n, states, steps, |steps|);
    }
  }

  lemma RunLength(n: nat, ttl: nat, states: seq<State>, steps: seq<Step>)
    requires IsRun(n, ttl, states, steps)
    ensures |states| == |steps| + 1
  {
  }
}
