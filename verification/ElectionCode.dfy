/** The methods of syslog_drain_binder/elector/elector.go and one round of the loop in syslog_drain_binder/main.go. */
module ElectionCode {
  import opened Election
  import opened Wrappers

  /** What the outside world answers during one tick; `creates` are the answers to successive creates. */
  datatype Script = Script(creates: seq<Answer>, swap: bool, poll: bool, update: bool)

  /** The number of lost rounds before the create that ends the campaign. */
  function Lost(creates: seq<Answer>): (n: nat)
    ensures n <= |creates|
  {
    if creates == [] || !creates[0].KeyExists? then 0 else 1 + Lost(creates[1..])
  }

  class Elector {
    var isLeader: bool
    /** How often `CompareAndDelete` and `UpdateDrains` were called. */
    var deletes: nat
    var updates: nat

    constructor ()
      ensures !isLeader && deletes == updates == 0
    {
      isLeader, deletes, updates := false, 0, 0;
    }

    /** `RunForElection`: tries until an answer other than "key exists"; never leader while it waits. */
    method RunForElection(creates: seq<Answer>) returns (ok: bool)
      requires Lost(creates) < |creates|
      modifies this`isLeader
      ensures ok == isLeader == creates[Lost(creates)].Ok?
    {
      var i := 0;
      while creates[i].KeyExists?
        invariant i <= Lost(creates) < |creates| && Lost(creates) == i + Lost(creates[i..])
        decreases |creates| - i
      {
        isLeader := false;
        assert creates[i..][1..] == creates[i + 1..];
        i := i + 1;
      }
      isLeader := creates[i].Ok?;
      return isLeader;
    }

    method StayAsLeader(swapped: bool) returns (ok: bool)
      modifies this`isLeader
      ensures ok == isLeader == swapped
    {
      isLeader := swapped;
      return swapped;
    }

    method Vacate()
      modifies this`isLeader, this`deletes
      ensures !isLeader && deletes == old(deletes) + 1
    {
      isLeader := false;
      deletes := deletes + 1;
    }

    /**
      One tick. The flag survives exactly if the election, the poll and the update all succeeded; the key is
      given up exactly otherwise; and drains are updated only after this tick's own win and a poll.
     */
    method Round(script: Script)
      requires !isLeader ==> Lost(script.creates) < |script.creates|
      modifies this
      ensures
        var won := if old(isLeader) then script.swap else script.creates[Lost(script.creates)].Ok?;
        && isLeader == (won && script.poll && script.update)
        && deletes == old(deletes) + (if isLeader then 0 else 1)
        && updates == old(updates) + (if won && script.poll then 1 else 0)
    {
      var ok;
      if isLeader {
        ok := StayAsLeader(script.swap);
        if !ok {
          Vacate();
          return;
        }
      } else {
        ok := RunForElection(script.creates);
        if !ok {
          Vacate();
          return;
        }
      }
      if !script.poll {
        Vacate();
        return;
      }
      updates := updates + 1;
      if !script.update {
        Vacate();
        return;
      }
    }
  }

  // ----- A round as steps of the protocol -----

  ghost predicate Executes(s: State, steps: seq<Step>, t: State)
    decreases |steps|
  {
    if steps == [] then s == t
    else Enabled(s, steps[0]) && Executes(Apply(s, steps[0]), steps[1..], t)
  }

  lemma {:induction false} ExecutesBoth(s: State, a: seq<Step>, t: State, b: seq<Step>, u: State)
    requires Executes(s, a, t) && Executes(t, b, u)
    ensures Executes(s, a + b, u)
    decreases |a|
  {
    hide Apply, Enabled;
    if a == [] {
      assert a + b == b;
    } else {
      ExecutesBoth(Apply(s, a[0]), a[1..], t, b, u);
      assert (a + b)[1..] == a[1..] + b;
    }
  }

  lemma ExecutesTwo(s: State, a: Step, b: Step)
    requires Enabled(s, a) && Enabled(Apply(s, a), b)
    ensures Executes(s, [a, b], Apply(Apply(s, a), b))
  {
    hide Apply, Enabled;
    assert [a, b][1..] == [b] && [b][1..] == [];
    assert Executes(Apply(Apply(s, a), b), [], Apply(Apply(s, a), b));
  }

  /** Does the election of this tick succeed? */
  predicate Wins(leader: bool, script: Script) {
    if leader then script.swap else script.creates != [] && script.creates[0].Ok?
  }

  /** The answers are ones that the store can give now. */
  predicate Possible(s: State, i: nat, leader: bool, script: Script) {
    if leader then script.swap ==> Holder(s) == Some(i)
    else script.creates != [] && !script.creates[0].KeyExists? && (script.creates[0].Ok? ==> Holder(s).None?)
  }

  /** Nothing but one instance and the key changed. */
  ghost predicate Only(s: State, t: State, i: nat) {
    && i < |s.instances| && |t.instances| == |s.instances| && t.now == s.now && t.ttl == s.ttl
    && forall j :: 0 <= j < |s.instances| && j != i ==> t.instances[j] == s.instances[j]
  }

  /** The first part of a tick, up to the poll or to giving up. */
  lemma Campaigned(s: State, i: nat, script: Script) returns (steps: seq<Step>, t: State)
    requires i < |s.instances| && s.instances[i].pc.Waiting? && Possible(s, i, s.instances[i].isLeader, script)
    ensures Executes(s, steps, t) && Only(s, t, i) && forall ok :: UpdateDrains(i, ok) !in steps
    ensures
      var won := Wins(s.instances[i].isLeader, script);
      && t.instances[i].isLeader == won && t.instances[i].pc == (if won then Polling else Vacating)
      && (won ==> Holder(t) == Some(i)) && (!won ==> t.key == s.key)
  {
    hide Executes;
    var leader := s.instances[i].isLeader;
    var call := if leader then Swap(i, script.swap, true) else Create(i, script.creates[0].Ok?, script.creates[0].Ok?);
    var answer := if leader then AfterSwap(i) else AfterCreate(i);
    var s1 := Apply(s, Tick(i));
    var s2 := Apply(s1, call);
    t := Apply(s2, answer);
    ExecutesTwo(s1, call, answer);
    steps := [Tick(i)] + [call, answer];
    assert Executes(s, steps, t) by { ExecutesFirst(s, Tick(i), [call, answer], t); }
  }

  lemma ExecutesFirst(s: State, a: Step, rest: seq<Step>, t: State)
    requires Enabled(s, a) && Executes(Apply(s, a), rest, t)
    ensures Executes(s, [a] + rest, t)
  {
    hide Apply, Enabled;
    assert ([a] + rest)[1..] == rest;
  }

  /** The rest after a win: poll, update, or give up where one fails. */
  lemma Polled(s: State, i: nat, script: Script) returns (steps: seq<Step>, t: State)
    requires i < |s.instances| && s.instances[i].pc.Polling? && s.instances[i].isLeader
    ensures Executes(s, steps, t) && Only(s, t, i) && t.key == s.key
    ensures (exists ok :: UpdateDrains(i, ok) in steps) <==> script.poll
    ensures t.instances[i].isLeader && t.instances[i].pc == (if script.poll && script.update then Waiting else Vacating)
  {
    hide Executes;
    var u := Apply(s, Poll(i, script.poll));
    if script.poll {
      t := Apply(u, UpdateDrains(i, script.update));
      steps := [Poll(i, true), UpdateDrains(i, script.update)];
      ExecutesTwo(s, Poll(i, true), UpdateDrains(i, script.update));
      assert UpdateDrains(i, script.update) in steps;
    } else {
      t, steps := u, [Poll(i, false)];
      ExecutesFirst(s, Poll(i, false), [], t) by { Stays(t); }
      assert [Poll(i, false)] + [] == steps;
    }
  }

  lemma Stays(s: State)
    ensures Executes(s, [], s)
  {
  }

  /** Giving up: the flag first, then the key. */
  lemma Vacated(s: State, i: nat, applied: bool) returns (steps: seq<Step>, t: State)
    requires i < |s.instances| && s.instances[i].pc.Vacating?
    ensures Executes(s, steps, t) && Only(s, t, i) && forall ok :: UpdateDrains(i, ok) !in steps
    ensures t.instances[i].pc.Waiting? && !t.instances[i].isLeader && (applied ==> Holder(t) != Some(i))
  {
    hide Executes;
    t := Apply(Apply(s, StepDown(i)), Delete(i, applied));
    steps := [StepDown(i), Delete(i, applied)];
    ExecutesTwo(s, StepDown(i), Delete(i, applied));
  }

  /**
    A whole round of the loop is a sequence of the protocol's steps with the outcome that `Elector.Round` states: the
    flag survives exactly if election, poll and update succeed, drains are updated exactly after a win and a poll,
    and otherwise the key is given up.
   */
  lemma RoundIsSteps(s: State, i: nat, script: Script, applied: bool) returns (steps: seq<Step>, t: State)
    requires i < |s.instances| && s.instances[i].pc.Waiting? && Possible(s, i, s.instances[i].isLeader, script)
    ensures Executes(s, steps, t) && Only(s, t, i) && t.instances[i].pc.Waiting?
    ensures
      var won := Wins(s.instances[i].isLeader, script);
      && t.instances[i].isLeader == (won && script.poll && script.update)
      && ((exists ok :: UpdateDrains(i, ok) in steps) <==> won && script.poll)
      && (t.instances[i].isLeader ==> Holder(t) == Some(i))
      && (!t.instances[i].isLeader && applied ==> Holder(t) != Some(i))
  {
    hide Executes, Apply, Enabled;
    var a, s1 := Campaigned(s, i, script);
    if !Wins(s.instances[i].isLeader, script) {
      var c;
      c, t := Vacated(s1, i, applied);
      ExecutesBoth(s, a, s1, c, t);
      steps := a + c;
      return;
    }
    var b, s2 := Polled(s1, i, script);
    ExecutesBoth(s, a, s1, b, s2);
    steps, t := a + b, s2;
    if !(script.poll && script.update) {
      var c;
      c, t := Vacated(s2, i, applied);
      ExecutesBoth(s, a + b, s2, c, t);
      steps := a + b + c;
    }
    if ok :| UpdateDrains(i, ok) in b {
      assert UpdateDrains(i, ok) in steps;
    }
  }
}
