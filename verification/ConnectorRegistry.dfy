/**
  The registry invariant of the doppler connector and the exact condition under which a step keeps it.
 */
module ConnectorRegistry {
  import opened Wrappers
  import opened ConnectorState
  import opened ConnectorBasics

  // ----- The invariant -----

  ghost predicate Serves(s: State, u: string)
    requires InRange(s)
  {
    exists k :: k in s.clients && s.info[k].uri == u
  }

  ghost predicate UrisUnique(s: State)
    requires InRange(s)
  {
    forall k, l :: k in s.clients && l in s.clients && s.info[k].uri == s.info[l].uri ==> k == l
  }

  ghost predicate PoolMatches(s: State)
    requires InRange(s)
  {
    forall u :: u in s.pool <==> Serves(s, u)
  }

  /** What the event still has to add and to disable. */
  ghost predicate EventSplit(s: State)
    requires InRange(s)
  {
    var todo, dead := s.finder.Todo(), s.finder.Dead();
    && Distinct(todo)
    && (forall u :: u in todo ==> u in s.latest && !Serves(s, u))
    && (forall u :: u in s.latest ==> u in todo || Serves(s, u))
    && Distinct(dead)
    && (forall k :: k in dead ==> k in s.clients && s.info[k].uri !in s.latest)
    && (s.finder.Scanner? ==> s.finder.client in s.clients)
  }

  /** Apart from clients still to be disabled: disconnect says "not in the latest event", and then somebody reads. */
  ghost predicate FlagsRight(s: State)
    requires InRange(s)
  {
    forall k :: k in s.clients && k !in s.finder.Dead() ==>
      && (s.info[k].disconnect <==> s.info[k].uri !in s.latest)
      && (s.info[k].disconnect ==> s.info[k].refCount > 0)
  }

  /** A reader that has not finished works on a client that is still listed. */
  ghost predicate ReadersListed(s: State)
    requires InRange(s)
  {
    forall r :: 0 <= r < |s.readers| && s.readers[r].Unfinished() ==> s.readers[r].client in s.clients
  }

  ghost predicate Subscribed(s: State, c: nat) {
    c < |s.consumers| && s.consumers[c].pc.Finished? && !s.consumers[c].dead
  }

  /** A reader was spawned for the pair and was not turned away as a duplicate. */
  ghost predicate Covered(s: State, c: nat, k: nat) {
    exists r :: 0 <= r < |s.readers| && s.readers[r].consumer == c && s.readers[r].client == k && !s.readers[r].pc.Rejected?
  }

  ghost predicate BeingScanned(s: State, k: nat) { s.finder.Scanner? && s.finder.client == k }

  ghost predicate Coverage(s: State)
    requires InRange(s)
  {
    && (forall c, k :: Subscribed(s, c) && k in s.clients && !BeingScanned(s, k) ==> Covered(s, c, k))
    && (s.finder.Scanner? ==>
          forall i, c :: 0 <= i < s.finder.slot && s.slots[i] == Some(c) && Subscribed(s, c) ==> Covered(s, c, s.finder.client))
  }

  ghost predicate Inv(s: State) {
    && Basic(s)
    && UrisUnique(s)
    && PoolMatches(s)
    && EventSplit(s)
    && FlagsRight(s)
    && ReadersListed(s)
    && Coverage(s)
  }

  // ----- When a step is safe -----

  ghost predicate NoPending(s: State, k: nat) {
    forall r :: 0 <= r < |s.readers| && s.readers[r].client == k ==> !s.readers[r].Pending()
  }

  /** The event lists no URI twice, and no client is closed while a spawned reader has yet to count itself. */
  ghost predicate Safe(s: State, step: Step)
    requires InRange(s) && Enabled(s, step)
  {
    match step
    case FinderBegin(uris) => Distinct(uris)
    case FinderKill =>
      var k := s.finder.Dead()[0];
      s.info[k].refCount == 0 ==> NoPending(s, k)
    case Leave(r) => LeaveCloses(s, r) ==> NoPending(s, s.readers[r].client)
    case _ => true
  }

  // ----- Delta -----

  lemma {:induction false} DeltaAddHas(remaining: seq<nat>, names: seq<string>, uris: seq<string>)
    requires |remaining| == |names|
    ensures forall u :: u in Delta(remaining, names, uris).add ==> u in uris
    ensures forall u :: u in uris && u !in names ==> u in Delta(remaining, names, uris).add
    decreases |uris|
  {
    if uris != [] {
      var i := FirstAt(names, uris[0]);
      if i < |names| {
        DeltaAddHas(Without(remaining, i), Without(names, i), uris[1..]);
      } else {
        DeltaAddHas(remaining, names, uris[1..]);
      }
      assert forall u :: u in uris ==> u == uris[0] || u in uris[1..];
    }
  }

  /** The new URIs are clean exactly when the event repeats none. */
  lemma {:induction false} DeltaAddExact(remaining: seq<nat>, names: seq<string>, uris: seq<string>)
    requires |remaining| == |names| && Distinct(names)
    ensures (Distinct(Delta(remaining, names, uris).add) && forall u :: u in Delta(remaining, names, uris).add ==> u !in names)
            <==> Distinct(uris)
    decreases |uris|
  {
    if uris != [] {
      var u, rest := uris[0], uris[1..];
      var add := Delta(remaining, names, uris).add;
      var i := FirstAt(names, u);
      DistinctCons(u, rest);
      assert uris == [u] + rest;
      if i < |names| {
        var names' := Without(names, i);
        DeltaAddExact(Without(remaining, i), names', rest);
        DeltaAddHas(Without(remaining, i), names', rest);
        assert u !in names' && forall v :: v in names <==> v == u || v in names';
      } else {
        var add' := Delta(remaining, names, rest).add;
        assert u !in names;
        DeltaAddExact(remaining, names, rest);
        DeltaAddHas(remaining, names, rest);
        DistinctCons(u, add');
        assert forall v :: v in add <==> v == u || v in add';
      }
    }
  }

  lemma DistinctCons(x: string, xs: seq<string>)
    ensures Distinct([x] + xs) <==> x !in xs && Distinct(xs)
  {
    var all := [x] + xs;
    if Distinct(all) {
      assert forall i :: 0 <= i < |xs| ==> xs[i] == all[i + 1] && xs[i] != all[0];
    }
  }

  lemma {:induction false} DeltaDeadExact(remaining: seq<nat>, names: seq<string>, uris: seq<string>, i: nat)
    requires |remaining| == |names| && Distinct(names) && Distinct(remaining) && i < |names|
    ensures remaining[i] in Delta(remaining, names, uris).dead <==> names[i] !in uris
    decreases |uris|
  {
    if uris != [] {
      var f := FirstAt(names, uris[0]);
      assert uris == [uris[0]] + uris[1..];
      if f == |names| {
        DeltaDeadExact(remaining, names, uris[1..], i);
      } else {
        var remaining', names' := Without(remaining, f), Without(names, f);
        if i == f {
          DeltaDeadListed(remaining', names', uris[1..]);
          assert remaining[i] !in remaining';
        } else {
          var j := if i < f then i else i - 1;
          assert remaining'[j] == remaining[i] && names'[j] == names[i];
          DeltaDeadExact(remaining', names', uris[1..], j);
        }
      }
    }
  }

  // ----- Registry part: everything but coverage -----

  ghost predicate Registry(s: State) {
    Basic(s) && UrisUnique(s) && PoolMatches(s) && EventSplit(s) && FlagsRight(s) && ReadersListed(s)
  }

  /** Neither the client list nor the event changes; new readers work on listed clients. */
  ghost predicate SameRegistry(s: State, t: State) {
    && t.clients == s.clients && t.pool == s.pool && t.latest == s.latest && |t.info| == |s.info|
    && t.finder.Todo() == s.finder.Todo() && t.finder.Dead() == s.finder.Dead()
    && (t.finder.Scanner? ==> s.finder.Scanner? && t.finder.client == s.finder.client)
    && (forall k :: 0 <= k < |s.info| ==>
          && t.info[k].uri == s.info[k].uri && t.info[k].disconnect == s.info[k].disconnect
          && t.info[k].refCount >= s.info[k].refCount)
    && |s.readers| <= |t.readers|
    && (forall r :: 0 <= r < |s.readers| && t.readers[r].Unfinished() ==>
          s.readers[r].Unfinished() && t.readers[r].client == s.readers[r].client)
    && (forall r :: |s.readers| <= r < |t.readers| ==> t.readers[r].client in s.clients)
  }

  lemma RegistryFrame(s: State, t: State)
    requires Registry(s) && Basic(t) && SameRegistry(s, t)
    ensures Registry(t)
  {
    forall u ensures Serves(t, u) <==> Serves(s, u) {
      if Serves(s, u) {
        var k :| k in s.clients && s.info[k].uri == u;
        assert k in t.clients && t.info[k].uri == u;
      }
    }
    assert UrisUnique(t) && PoolMatches(t) && EventSplit(t) && FlagsRight(t);
  }

  ghost predicate Quiet(step: Step) {
    !step.FinderBegin? && !step.FinderAdd? && !step.FinderKill? && !step.Leave?
  }

  lemma QuietSame(s: State, step: Step)
    requires InRange(s) && Enabled(s, step) && Quiet(step)
    requires step.FinderScan? ==> s.finder.client in s.clients
    ensures SameRegistry(s, Apply(s, step))
  {
    hide SameRegistry, Apply;
    if step.OfSubscriber() {
      QuietSubscriber(s, step);
    } else if step.OfReader() {
      QuietReader(s, step);
    } else {
      QuietFinder(s, step);
    }
  }

  lemma QuietSubscriber(s: State, step: Step)
    requires InRange(s) && Enabled(s, step) && step.OfSubscriber()
    ensures SameRegistry(s, Apply(s, step))
  {
  }

  lemma QuietReader(s: State, step: Step)
    requires InRange(s) && Enabled(s, step) && step.OfReader() && !step.Leave?
    ensures SameRegistry(s, Apply(s, step))
  {
  }

  lemma QuietFinder(s: State, step: Step)
    requires InRange(s) && Enabled(s, step) && (step.FinderScan? || step.FinderScanned? || step.FinderEnd?)
    requires step.FinderScan? ==> s.finder.client in s.clients
    ensures SameRegistry(s, Apply(s, step))
  {
  }

  /** What the start of an event changes and what it leaves. */
  lemma BeginFacts(s: State, uris: seq<string>)
    requires Registry(s) && Enabled(s, FinderBegin(uris)) && Distinct(uris) && InRange(Apply(s, FinderBegin(uris)))
    ensures var t := Apply(s, FinderBegin(uris));
      && t.clients == s.clients && t.pool == s.pool && t.readers == s.readers && |t.info| == |s.info|
      && (forall u :: Serves(t, u) <==> Serves(s, u))
      && (forall k :: k in s.clients ==> t.info[k].uri == s.info[k].uri && t.info[k].refCount == s.info[k].refCount)
      && (forall k :: k in s.clients && k in t.finder.Dead() ==> s.info[k].uri !in uris)
      && (forall k :: k in s.clients && k !in t.finder.Dead() ==> s.info[k].uri in uris && !t.info[k].disconnect)
  {
    var names := UrisOf(s);
    var t := Apply(s, FinderBegin(uris));
    NamesDistinct(s);
    forall u ensures Serves(t, u) <==> Serves(s, u) {
      if Serves(s, u) {
        var k :| k in s.clients && s.info[k].uri == u;
        assert k in t.clients && t.info[k].uri == u;
      }
    }
    forall k | k in s.clients ensures k in t.finder.Dead() <==> s.info[k].uri !in uris {
      var i :| 0 <= i < |s.clients| && s.clients[i] == k;
      DeltaDeadExact(s.clients, names, uris, i);
    }
  }

  lemma RegistryBegin(s: State, uris: seq<string>)
    requires Registry(s) && Enabled(s, FinderBegin(uris)) && Distinct(uris) && Basic(Apply(s, FinderBegin(uris)))
    ensures Registry(Apply(s, FinderBegin(uris)))
  {
    var t := Apply(s, FinderBegin(uris));
    BeginFacts(s, uris);
    assert UrisUnique(t) && PoolMatches(t) && FlagsRight(t) && ReadersListed(t);
    BeginSplit(s, uris);
  }

  lemma BeginSplit(s: State, uris: seq<string>)
    requires Registry(s) && Enabled(s, FinderBegin(uris)) && Distinct(uris) && InRange(Apply(s, FinderBegin(uris)))
    ensures EventSplit(Apply(s, FinderBegin(uris)))
  {
    var names := UrisOf(s);
    BeginFacts(s, uris);
    NamesDistinct(s);
    DeltaAddExact(s.clients, names, uris);
    DeltaAddHas(s.clients, names, uris);
    DeltaDeadListed(s.clients, names, uris);
    forall u ensures Serves(s, u) <==> u in names { ServesNamed(s, u); }
  }

  lemma NamesDistinct(s: State)
    requires Basic(s)
    ensures UrisUnique(s) <==> Distinct(UrisOf(s))
  {
    hide SlotsSafe, ReadersUnique, CountsRight;
    var names := UrisOf(s);
    if Distinct(names) {
      forall k, l | k in s.clients && l in s.clients && s.info[k].uri == s.info[l].uri ensures k == l {
        var i :| 0 <= i < |s.clients| && s.clients[i] == k;
        var j :| 0 <= j < |s.clients| && s.clients[j] == l;
        assert names[i] == names[j];
      }
    }
    if UrisUnique(s) {
      forall i, j | 0 <= i < j < |names| ensures names[i] != names[j] {
        assert s.clients[i] in s.clients && s.clients[j] in s.clients;
      }
    }
  }

  lemma ServesNamed(s: State, u: string)
    requires InRange(s)
    ensures Serves(s, u) <==> u in UrisOf(s)
  {
    var names := UrisOf(s);
    if Serves(s, u) {
      var k :| k in s.clients && s.info[k].uri == u;
      var i :| 0 <= i < |s.clients| && s.clients[i] == k;
      assert names[i] == u;
    }
    if u in names {
      var i :| 0 <= i < |names| && names[i] == u;
      assert s.clients[i] in s.clients;
    }
  }

  lemma RegistryAdd(s: State)
    requires Registry(s) && Enabled(s, FinderAdd) && Basic(Apply(s, FinderAdd))
    ensures Registry(Apply(s, FinderAdd))
  {
    var t := Apply(s, FinderAdd);
    var uri := s.finder.todo[0];
    assert uri in s.finder.Todo();
    forall u ensures Serves(t, u) <==> Serves(s, u) || u == uri {
      if Serves(s, u) {
        var k :| k in s.clients && s.info[k].uri == u;
        assert k in t.clients && t.info[k].uri == u;
      }
      assert |s.info| in t.clients && t.info[|s.info|].uri == uri;
    }
    assert forall u :: u in s.finder.todo <==> u == uri || u in t.finder.Todo();
    assert forall k :: k in t.clients && k != |s.info| ==> k in s.clients && t.info[k] == s.info[k];
  }

  lemma RegistryKill(s: State)
    requires Registry(s) && Enabled(s, FinderKill) && Safe(s, FinderKill) && Basic(Apply(s, FinderKill))
    ensures Registry(Apply(s, FinderKill))
  {
    KillReaders(s);
    KillPool(s);
    KillSplit(s);
    KillFlags(s);
  }

  lemma KillLists(s: State)
    requires Basic(s) && Enabled(s, FinderKill) && Distinct(s.finder.Dead())
    ensures var k, t := s.finder.Dead()[0], Apply(s, FinderKill);
      && k in s.finder.Dead() && k !in t.finder.Dead()
      && (forall l :: l in s.finder.Dead() <==> l == k || l in t.finder.Dead())
      && (forall l :: l in t.clients <==> l in s.clients && (s.info[k].refCount == 0 ==> l != k))
  {
    hide SlotsSafe, ReadersUnique, CountsRight;
  }

  lemma KillFlags(s: State)
    requires Registry(s) && Enabled(s, FinderKill) && InRange(Apply(s, FinderKill))
    ensures FlagsRight(Apply(s, FinderKill)) && UrisUnique(Apply(s, FinderKill))
  {
    KillLists(s);
    hide Basic, PoolMatches, ReadersListed;
  }

  lemma KillPool(s: State)
    requires Registry(s) && Enabled(s, FinderKill) && InRange(Apply(s, FinderKill))
    ensures PoolMatches(Apply(s, FinderKill))
  {
    forall u { KillServes(s, u); }
    hide Basic, EventSplit, FlagsRight, ReadersListed, UrisUnique, Serves;
  }

  lemma KillSplit(s: State)
    requires Registry(s) && Enabled(s, FinderKill) && InRange(Apply(s, FinderKill))
    ensures EventSplit(Apply(s, FinderKill))
  {
    KillLists(s);
    forall u { KillServes(s, u); }
    hide Basic, PoolMatches, FlagsRight, ReadersListed, UrisUnique, Serves;
  }

  lemma KillReaders(s: State)
    requires Registry(s) && Enabled(s, FinderKill) && Safe(s, FinderKill) && InRange(Apply(s, FinderKill))
    ensures ReadersListed(Apply(s, FinderKill))
  {
    var t := Apply(s, FinderKill);
    var k := s.finder.Dead()[0];
    if s.info[k].refCount == 0 {
      assert CountedOn(s, k) == {};
      forall r | 0 <= r < |t.readers| && t.readers[r].Unfinished() ensures t.readers[r].client in t.clients {
        assert r !in CountedOn(s, k);
      }
    }
  }

  lemma KillServes(s: State, u: string)
    requires Registry(s) && Enabled(s, FinderKill) && InRange(Apply(s, FinderKill))
    ensures var k := s.finder.Dead()[0];
      Serves(Apply(s, FinderKill), u) <==> Serves(s, u) && (s.info[k].refCount == 0 ==> u != s.info[k].uri)
  {
    var k := s.finder.Dead()[0];
    var t := Apply(s, FinderKill);
    assert k in s.finder.Dead();
    if Serves(s, u) {
      var l :| l in s.clients && s.info[l].uri == u;
      assert t.info[l].uri == u;
      if s.info[k].refCount == 0 && u != s.info[k].uri { assert l in t.clients; }
      if s.info[k].refCount != 0 { assert l in t.clients; }
    }
  }

  lemma RegistryLeave(s: State, r: nat)
    requires Registry(s) && Enabled(s, Leave(r)) && Safe(s, Leave(r)) && Basic(Apply(s, Leave(r)))
    ensures Registry(Apply(s, Leave(r)))
  {
    LeaveReaders(s, r);
    LeavePool(s, r);
    LeaveFlags(s, r);
    LeaveSplit(s, r);
  }

  lemma LeaveFlags(s: State, r: nat)
    requires Registry(s) && Enabled(s, Leave(r)) && InRange(Apply(s, Leave(r)))
    ensures FlagsRight(Apply(s, Leave(r))) && UrisUnique(Apply(s, Leave(r)))
  {
    var t := Apply(s, Leave(r));
    hide Basic, PoolMatches, ReadersListed, EventSplit;
    assert forall l :: l in t.clients ==> l in s.clients && l < |s.info|;
  }

  lemma LeaveSplit(s: State, r: nat)
    requires Registry(s) && Enabled(s, Leave(r)) && InRange(Apply(s, Leave(r)))
    ensures EventSplit(Apply(s, Leave(r)))
  {
    var k := s.readers[r].client;
    forall u { LeaveServes(s, r, u); }
    hide Basic, PoolMatches, ReadersListed, UrisUnique, Serves;
    assert LeaveCloses(s, r) ==> s.info[k].uri !in s.latest;
  }

  lemma LeavePool(s: State, r: nat)
    requires Registry(s) && Enabled(s, Leave(r)) && InRange(Apply(s, Leave(r)))
    ensures PoolMatches(Apply(s, Leave(r)))
  {
    forall u { LeaveServes(s, r, u); }
    hide Basic, EventSplit, FlagsRight, ReadersListed, UrisUnique, Serves;
  }

  lemma LeaveReaders(s: State, r: nat)
    requires Registry(s) && Enabled(s, Leave(r)) && Safe(s, Leave(r)) && Basic(Apply(s, Leave(r)))
    ensures ReadersListed(Apply(s, Leave(r)))
  {
    var t := Apply(s, Leave(r));
    var k := s.readers[r].client;
    hide SlotsSafe, ReadersUnique, PoolMatches, EventSplit, FlagsRight;
    if LeaveCloses(s, r) {
      assert CountedOn(t, k) == {};
      forall q | 0 <= q < |t.readers| && t.readers[q].Unfinished() ensures t.readers[q].client in t.clients {
        assert q !in CountedOn(t, k);
        assert t.readers[q] == s.readers[q];
      }
    }
  }

  lemma LeaveServes(s: State, r: nat, u: string)
    requires Registry(s) && Enabled(s, Leave(r)) && InRange(Apply(s, Leave(r)))
    ensures Serves(Apply(s, Leave(r)), u) <==> Serves(s, u) && (LeaveCloses(s, r) ==> u != s.info[s.readers[r].client].uri)
  {
    var t := Apply(s, Leave(r));
    if Serves(s, u) {
      var l :| l in s.clients && s.info[l].uri == u;
      assert t.info[l].uri == u;
      if !LeaveCloses(s, r) || u != s.info[s.readers[r].client].uri { assert l in t.clients; }
    }
  }

  lemma RegistryStep(s: State, step: Step)
    requires Registry(s) && Enabled(s, step) && Safe(s, step)
    ensures Registry(Apply(s, step))
  {
    hide Apply, Basic, UrisUnique, PoolMatches, FlagsRight, ReadersListed;
    BasicStep(s, step);
    if Quiet(step) {
      hide Registry;
      ScanListed(s);
      QuietSame(s, step);
      RegistryFrame(s, Apply(s, step));
    } else {
      RegistryLoud(s, step);
    }
  }

  lemma ScanListed(s: State)
    requires Registry(s)
    ensures InRange(s) && (s.finder.Scanner? ==> s.finder.client in s.clients)
  {
  }

  lemma RegistryLoud(s: State, step: Step)
    requires Registry(s) && Enabled(s, step) && Safe(s, step) && !Quiet(step) && Basic(Apply(s, step))
    ensures Registry(Apply(s, step))
  {
    hide Apply, Registry, Basic;
    if step.FinderBegin? {
      RegistryBegin(s, step.uris);
    } else if step.FinderAdd? {
      RegistryAdd(s);
    } else if step.FinderKill? {
      RegistryKill(s);
    } else {
      RegistryLeave(s, step.r);
    }
  }
}
