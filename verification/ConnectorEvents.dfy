/**
  One finder event as a whole: the finder's steps, uninterrupted, add up to the change of list, pool and flags that
  `handleFinderEvent` is proved to make on its objects.
 */
module ConnectorEvents {
  import opened ConnectorState
  import opened ConnectorBasics
  import opened Wrappers

  ghost predicate Executes(s: State, steps: seq<Step>, t: State)
    decreases |steps|
  {
    if steps == [] then s == t
    else InRange(s) && Enabled(s, steps[0]) && Executes(Apply(s, steps[0]), steps[1..], t)
  }

  lemma {:induction false} ExecutesBoth(s: State, a: seq<Step>, t: State, b: seq<Step>, u: State)
    requires Executes(s, a, t) && Executes(t, b, u)
    ensures Executes(s, a + b, u)
    decreases |a|
  {
    hide Apply, Enabled, InRange;
    if a == [] {
      assert a + b == b;
    } else {
      ExecutesBoth(Apply(s, a[0]), a[1..], t, b, u);
      assert (a + b)[1..] == a[1..] + b;
    }
  }

  lemma ExecutesFirst(s: State, step: Step, rest: seq<Step>, t: State)
    requires InRange(s) && Enabled(s, step) && Executes(Apply(s, step), rest, t)
    ensures Executes(s, [step] + rest, t)
  {
    hide Apply, Enabled, InRange;
    assert ([step] + rest)[1..] == rest;
  }

  lemma FinderRange(s: State, step: Step)
    requires InRange(s) && Enabled(s, step) && step.OfFinder()
    ensures InRange(Apply(s, step))
  {
    if step.FinderBegin? {
      DeltaDeadListed(s.clients, UrisOf(s), step.uris);
      DeadBelow(s.clients, Delta(s.clients, UrisOf(s), step.uris).dead, |s.info|);
    } else if step.FinderKill? {
      RemoveBelow(s.clients, s.finder.dead[0], |s.info|);
    }
  }

  lemma DeadBelow(ids: seq<nat>, dead: seq<nat>, n: nat)
    requires Below(ids, n) && forall k :: k in dead ==> k in ids
    ensures Below(dead, n)
  {
    forall i | 0 <= i < |dead| ensures dead[i] < n {
      assert dead[i] in ids;
    }
  }

  lemma RemoveBelow(ids: seq<nat>, k: nat, n: nat)
    requires Below(ids, n)
    ensures Below(Remove(ids, k), n)
  {
    DeadBelow(ids, Remove(ids, k), n);
  }

  // ----- Readers spawned for a new client -----

  /** Does the slot hold a live consumer? */
  predicate HoldsLive(slots: seq<Option<nat>>, consumers: seq<Consumer>, i: nat)
    requires i < |slots|
  {
    slots[i].Some? && slots[i].value < |consumers| && !consumers[slots[i].value].dead
  }

  /** One reader of client `k` for each slot from `i` on that holds a live consumer. */
  function ReadersFrom(slots: seq<Option<nat>>, consumers: seq<Consumer>, k: nat, i: nat): seq<Reader>
    requires i <= |slots|
    decreases |slots| - i
  {
    if i == |slots| then []
    else
      (if HoldsLive(slots, consumers, i) then [Reader(slots[i].value, k, Spawned)] else [])
      + ReadersFrom(slots, consumers, k, i + 1)
  }

  function SpawnedFor(slots: seq<Option<nat>>, consumers: seq<Consumer>, k: nat, n: nat): seq<Reader>
    decreases n
  {
    if n == 0 then [] else ReadersFrom(slots, consumers, k, 0) + SpawnedFor(slots, consumers, k + 1, n - 1)
  }

  lemma {:induction false} ScanAll(s: State) returns (steps: seq<Step>, t: State)
    requires InRange(s) && s.finder.Scanner?
    ensures Executes(s, steps, t) && (forall step :: step in steps ==> step.OfFinder())
    ensures t == s.(readers := s.readers + ReadersFrom(s.slots, s.consumers, s.finder.client, s.finder.slot),
                    finder := Adding(s.finder.todo, s.finder.dead))
    decreases |s.slots| - s.finder.slot
  {
    hide Executes, ReadersFrom, InRange, HoldsLive;
    var k, i := s.finder.client, s.finder.slot;
    Bounds(s);
    if i == |s.slots| {
      steps := [FinderScanned];
      t := Apply(s, FinderScanned);
      ExecutesOne(s, FinderScanned);
      ReadersFromEnd(s.slots, s.consumers, k);
    } else {
      var u := Apply(s, FinderScan);
      ScanOne(s);
      FinderRange(s, FinderScan);
      var rest;
      rest, t := ScanAll(u);
      ExecutesFirst(s, FinderScan, rest, t);
      steps := [FinderScan] + rest;
      ReadersFromStep(s.readers, s.slots, s.consumers, k, i);
    }
  }

  lemma Bounds(s: State)
    requires InRange(s) && s.finder.Scanner?
    ensures s.finder.slot <= |s.slots|
  {
  }

  lemma ExecutesOne(s: State, step: Step)
    requires InRange(s) && Enabled(s, step)
    ensures Executes(s, [step], Apply(s, step))
  {
    hide Apply, Enabled, InRange;
    assert [step][1..] == [];
    assert Executes(Apply(s, step), [], Apply(s, step));
  }

  function OneReader(slots: seq<Option<nat>>, consumers: seq<Consumer>, k: nat, i: nat): seq<Reader>
    requires i < |slots|
  {
    if HoldsLive(slots, consumers, i) then [Reader(slots[i].value, k, Spawned)] else []
  }

  lemma ScanOne(s: State)
    requires InRange(s) && Enabled(s, FinderScan)
    ensures Apply(s, FinderScan) ==
      s.(readers := s.readers + OneReader(s.slots, s.consumers, s.finder.client, s.finder.slot),
         finder := s.finder.(slot := s.finder.slot + 1))
  {
    assert s.readers + [] == s.readers;
  }

  lemma ReadersFromEnd(slots: seq<Option<nat>>, consumers: seq<Consumer>, k: nat)
    ensures ReadersFrom(slots, consumers, k, |slots|) == []
  {
  }

  lemma ReadersFromStep(before: seq<Reader>, slots: seq<Option<nat>>, consumers: seq<Consumer>, k: nat, i: nat)
    requires i < |slots|
    ensures before + OneReader(slots, consumers, k, i) + ReadersFrom(slots, consumers, k, i + 1)
      == before + ReadersFrom(slots, consumers, k, i)
  {
  }

  // ----- New clients -----

  function NewClients(uris: seq<string>): (r: seq<Client>)
    ensures |r| == |uris|
  {
    if uris == [] then [] else [Client(uris[0], false, 0)] + NewClients(uris[1..])
  }

  function Numbers(k: nat, n: nat): (r: seq<nat>)
    ensures |r| == n
    decreases n
  {
    if n == 0 then [] else [k] + Numbers(k + 1, n - 1)
  }

  /** The state after the new URIs are dealt with. */
  function AllAdded(s: State): State
    requires s.finder.Adding?
  {
    var todo, k := s.finder.todo, |s.info|;
    s.(pool := s.pool + (set u | u in todo), info := s.info + NewClients(todo), clients := s.clients + Numbers(k, |todo|),
       readers := s.readers + SpawnedFor(s.slots, s.consumers, k, |todo|), finder := Adding([], s.finder.dead))
  }

  lemma {:induction false} AddAll(s: State) returns (steps: seq<Step>, t: State)
    requires InRange(s) && s.finder.Adding?
    ensures Executes(s, steps, t) && (forall step :: step in steps ==> step.OfFinder())
    ensures InRange(t) && t == AllAdded(s)
    decreases |s.finder.todo|
  {
    if s.finder.todo == [] {
      steps, t := [], s;
      NothingAdded(s);
    } else {
      var u := Apply(s, FinderAdd);
      FinderRange(s, FinderAdd);
      var scans, v := ScanAll(u);
      assert InRange(v) by { Scanned(u, v); }
      var rest;
      rest, t := AddAll(v);
      ExecutesBoth(u, scans, v, rest, t);
      ExecutesFirst(s, FinderAdd, scans + rest, t);
      steps := [FinderAdd] + (scans + rest);
      OneAdded(s, v);
    }
  }

  lemma Scanned(u: State, v: State)
    requires InRange(u) && u.finder.Scanner?
    requires v == u.(readers := u.readers + ReadersFrom(u.slots, u.consumers, u.finder.client, u.finder.slot),
                     finder := Adding(u.finder.todo, u.finder.dead))
    ensures InRange(v)
  {
    ReadersFromRange(u.slots, u.consumers, u.finder.client, u.finder.slot);
  }

  lemma {:induction false} ReadersFromRange(slots: seq<Option<nat>>, consumers: seq<Consumer>, k: nat, i: nat)
    requires i <= |slots|
    ensures forall r :: 0 <= r < |ReadersFrom(slots, consumers, k, i)| ==>
      ReadersFrom(slots, consumers, k, i)[r].consumer < |consumers| && ReadersFrom(slots, consumers, k, i)[r].client == k
    decreases |slots| - i
  {
    if i < |slots| {
      ReadersFromRange(slots, consumers, k, i + 1);
    }
  }

  lemma NothingAdded(s: State)
    requires s.finder.Adding? && s.finder.todo == []
    ensures AllAdded(s) == s
  {
    assert s.pool + (set u | u in s.finder.todo) == s.pool;
    assert s.info + [] == s.info && s.clients + [] == s.clients && s.readers + [] == s.readers;
  }

  lemma OneAdded(s: State, v: State)
    requires s.finder.Adding? && s.finder.todo != []
    requires v == s.(pool := s.pool + {s.finder.todo[0]}, info := s.info + [Client(s.finder.todo[0], false, 0)],
                     clients := s.clients + [|s.info|],
                     readers := s.readers + ReadersFrom(s.slots, s.consumers, |s.info|, 0),
                     finder := Adding(s.finder.todo[1..], s.finder.dead))
    ensures AllAdded(v) == AllAdded(s)
  {
    var todo, k := s.finder.todo, |s.info|;
    var rest := todo[1..];
    assert todo == [todo[0]] + rest;
    assert s.pool + {todo[0]} + (set u | u in rest) == s.pool + (set u | u in todo);
    assert s.info + [Client(todo[0], false, 0)] + NewClients(rest) == s.info + ([Client(todo[0], false, 0)] + NewClients(rest));
    assert s.clients + [k] + Numbers(k + 1, |rest|) == s.clients + ([k] + Numbers(k + 1, |rest|));
    var own, more := ReadersFrom(s.slots, s.consumers, k, 0), SpawnedFor(s.slots, s.consumers, k + 1, |rest|);
    assert s.readers + own + more == s.readers + (own + more);
  }

  // ----- Missing clients -----

  /** The numbers that are not in `gone`, in order. */
  function KeepIds(ids: seq<nat>, gone: set<nat>): seq<nat> {
    if ids == [] then []
    else if ids[0] in gone then KeepIds(ids[1..], gone)
    else [ids[0]] + KeepIds(ids[1..], gone)
  }

  lemma {:induction false} KeepAfterRemove(ids: seq<nat>, k: nat, gone: set<nat>)
    ensures KeepIds(Remove(ids, k), gone) == KeepIds(ids, gone + {k})
  {
    if ids != [] {
      KeepAfterRemove(ids[1..], k, gone);
    }
  }

  lemma {:induction false} KeepNobody(ids: seq<nat>, gone: set<nat>)
    requires forall k :: k in ids ==> k !in gone
    ensures KeepIds(ids, gone) == ids
  {
    if ids != [] {
      KeepNobody(ids[1..], gone);
    }
  }

  lemma {:induction false} KeepAppend(a: seq<nat>, b: seq<nat>, gone: set<nat>)
    ensures KeepIds(a + b, gone) == KeepIds(a, gone) + KeepIds(b, gone)
  {
    if a == [] {
      assert a + b == b;
    } else {
      assert (a + b)[1..] == a[1..] + b;
      KeepAppend(a[1..], b, gone);
    }
  }

  /** Those of the missing clients that no reader is counted on. */
  function UnreadIds(info: seq<Client>, dead: seq<nat>): set<nat> {
    set k | k in dead && k < |info| && info[k].refCount == 0
  }

  function UrisAt(info: seq<Client>, ids: set<nat>): set<string> {
    set k | k in ids && k < |info| :: info[k].uri
  }

  function Disabled(info: seq<Client>, dead: seq<nat>): (r: seq<Client>)
    ensures |r| == |info|
    ensures forall k :: 0 <= k < |info| ==> r[k] == if k in dead then info[k].(disconnect := true) else info[k]
  {
    seq(|info|, k requires 0 <= k < |info| => if k in dead then info[k].(disconnect := true) else info[k])
  }

  function AllDisabled(s: State): State
    requires s.finder.Adding?
  {
    var dead := s.finder.dead;
    var gone := UnreadIds(s.info, dead);
    s.(info := Disabled(s.info, dead), clients := KeepIds(s.clients, gone), pool := s.pool - UrisAt(s.info, gone), finder := Idle)
  }

  lemma {:induction false} KillAll(s: State) returns (steps: seq<Step>, t: State)
    requires InRange(s) && s.finder.Adding? && s.finder.todo == []
    ensures Executes(s, steps, t) && (forall step :: step in steps ==> step.OfFinder())
    ensures InRange(t) && t == AllDisabled(s)
    decreases |s.finder.dead|
  {
    if s.finder.dead == [] {
      steps := [FinderEnd];
      t := Apply(s, FinderEnd);
      FinderRange(s, FinderEnd);
      ExecutesFirst(s, FinderEnd, [], t);
      assert [FinderEnd] + [] == steps;
      NothingDisabled(s);
    } else {
      var u := Apply(s, FinderKill);
      FinderRange(s, FinderKill);
      var rest;
      rest, t := KillAll(u);
      ExecutesFirst(s, FinderKill, rest, t);
      steps := [FinderKill] + rest;
      OneDisabled(s);
    }
  }

  lemma NothingDisabled(s: State)
    requires s.finder.Adding? && s.finder.dead == []
    ensures AllDisabled(s) == s.(finder := Idle)
  {
    assert UnreadIds(s.info, []) == {} && UrisAt(s.info, {}) == {};
    KeepNobody(s.clients, {});
    assert Disabled(s.info, []) == s.info;
  }

  lemma OneDisabled(s: State)
    requires InRange(s) && Enabled(s, FinderKill)
    ensures
      var u := Apply(s, FinderKill);
      u.finder.Adding? && AllDisabled(u) == AllDisabled(s)
  {
    hide KeepIds, Remove, UrisAt, UnreadIds, InRange;
    var dead := s.finder.dead;
    var k, rest := dead[0], dead[1..];
    assert k < |s.info| by { DeadInRange(s); }
    var info := s.info[k := s.info[k].(disconnect := true)];
    GoneSplit(s.info, dead);
    assert Disabled(info, rest) == Disabled(s.info, dead) by { assert dead == [k] + rest; }
    if s.info[k].refCount == 0 {
      var less := UnreadIds(info, rest);
      KeepAfterRemove(s.clients, k, less);
      assert s.pool - {s.info[k].uri} - UrisAt(info, less) == s.pool - (UrisAt(info, less) + {s.info[k].uri});
    }
  }

  lemma DeadInRange(s: State)
    requires InRange(s) && s.finder.Adding? && s.finder.dead != []
    ensures s.finder.dead[0] < |s.info|
  {
    assert s.finder.Dead() == s.finder.dead;
  }

  lemma GoneSplit(info: seq<Client>, dead: seq<nat>)
    requires dead != [] && dead[0] < |info|
    ensures
      var k, rest := dead[0], dead[1..];
      var after := info[k := info[k].(disconnect := true)];
      var gone, less := UnreadIds(info, dead), UnreadIds(after, rest);
      if info[k].refCount == 0 then gone == less + {k} && UrisAt(info, gone) == UrisAt(after, less) + {info[k].uri}
      else gone == less && UrisAt(info, gone) == UrisAt(after, less)
  {
    var k, rest := dead[0], dead[1..];
    var after := info[k := info[k].(disconnect := true)];
    assert dead == [k] + rest;
    var gone, less := UnreadIds(info, dead), UnreadIds(after, rest);
    forall u | u in UrisAt(info, gone) ensures u in UrisAt(after, less) || (info[k].refCount == 0 && u == info[k].uri) {
      var j :| j in gone && j < |info| && info[j].uri == u;
      assert j == k || (j in less && after[j].uri == u);
    }
    forall u | u in UrisAt(after, less) ensures u in UrisAt(info, gone) {
      var j :| j in less && j < |after| && after[j].uri == u;
      assert j in gone && info[j].uri == u;
    }
  }

  // ----- The whole event -----

  /**
    From any state with the lock free, the finder's steps alone carry out the event: listed afterwards are the
    clients that were listed, less the missing ones that nobody reads, then one new client per new URI; pool, flags
    and spawned readers change as `ConnectorCode.Connector.HandleFinderEvent` says of the objects.
   */
  lemma EventIsSteps(s: State, uris: seq<string>) returns (steps: seq<Step>, t: State)
    requires InRange(s) && s.finder.Idle?
    ensures Executes(s, steps, t) && (forall step :: step in steps ==> step.OfFinder()) && InRange(t)
    ensures
      var d: DeltaResult<nat> := Delta(s.clients, UrisOf(s), uris);
      var gone, n := UnreadIds(s.info, d.dead), |d.add|;
      && t.clients == KeepIds(s.clients, gone) + Numbers(|s.info|, n)
      && t.pool == s.pool + (set u | u in d.add) - UrisAt(s.info, gone)
      && InfoAfter(s, d, t.info)
      && t.readers == s.readers + SpawnedFor(s.slots, s.consumers, |s.info|, n)
      && t.slots == s.slots && t.consumers == s.consumers && t.finder.Idle? && t.latest == uris
  {
    hide Executes, Delta, KeepIds, SpawnedFor, UnreadIds, UrisAt, InfoAfter, Disabled;
    var d: DeltaResult<nat> := Delta(s.clients, UrisOf(s), uris);
    var s1 := Apply(s, FinderBegin(uris));
    FinderRange(s, FinderBegin(uris));
    var adds, s2 := AddAll(s1);
    var kills;
    kills, t := KillAll(s2);
    ExecutesBoth(s1, adds, s2, kills, t);
    ExecutesFirst(s, FinderBegin(uris), adds + kills, t);
    steps := [FinderBegin(uris)] + (adds + kills);
    InfoRight(s, uris, t.info);
    UnreadSame(s, uris);
    NewKept(s.clients, |s.info|, |d.add|, UnreadIds(s.info, d.dead));
  }

  /** The clients' records: flags of the listed ones say "missing from the event", and the new ones come last. */
  ghost predicate InfoAfter(s: State, d: DeltaResult<nat>, info: seq<Client>)
    requires Below(s.clients, |s.info|)
  {
    && |info| == |s.info| + |d.add| && info[|s.info|..] == NewClients(d.add)
    && forall k :: k in s.clients ==> info[k] == s.info[k].(disconnect := k in d.dead)
  }

  lemma InfoRight(s: State, uris: seq<string>, info: seq<Client>)
    requires InRange(s)
    requires
      var d: DeltaResult<nat> := Delta(s.clients, UrisOf(s), uris);
      info == Disabled(Revived(s, d.dead) + NewClients(d.add), d.dead)
    ensures InfoAfter(s, Delta<nat>(s.clients, UrisOf(s), uris), info)
  {
    hide Delta;
    var d: DeltaResult<nat> := Delta(s.clients, UrisOf(s), uris);
    DeltaDeadListed(s.clients, UrisOf(s), uris);
    DeadBelow(s.clients, d.dead, |s.info|);
    assert forall k :: k in d.dead ==> k < |s.info|;
    assert forall k :: k in s.clients ==> k < |s.info|;
    assert info[|s.info|..] == NewClients(d.add);
  }

  /** Clearing flags and adding clients changes neither who is unread nor any URI. */
  lemma UnreadSame(s: State, uris: seq<string>)
    requires InRange(s)
    ensures
      var d: DeltaResult<nat> := Delta(s.clients, UrisOf(s), uris);
      var info := Revived(s, d.dead) + NewClients(d.add);
      && UnreadIds(info, d.dead) == UnreadIds(s.info, d.dead)
      && UrisAt(info, UnreadIds(s.info, d.dead)) == UrisAt(s.info, UnreadIds(s.info, d.dead))
      && forall k :: k in UnreadIds(s.info, d.dead) ==> k < |s.info|
  {
    hide Delta;
    var d: DeltaResult<nat> := Delta(s.clients, UrisOf(s), uris);
    DeltaDeadListed(s.clients, UrisOf(s), uris);
    DeadBelow(s.clients, d.dead, |s.info|);
    assert forall k :: k in d.dead ==> k < |s.info|;
  }

  lemma NewKept(ids: seq<nat>, k: nat, n: nat, gone: set<nat>)
    requires forall j :: j in gone ==> j < k
    ensures KeepIds(ids + Numbers(k, n), gone) == KeepIds(ids, gone) + Numbers(k, n)
  {
    NumbersFrom(k, n);
    KeepAppend(ids, Numbers(k, n), gone);
    KeepNobody(Numbers(k, n), gone);
  }

  lemma {:induction false} NumbersFrom(k: nat, n: nat)
    ensures forall j :: j in Numbers(k, n) ==> j >= k
    decreases n
  {
    if n > 0 {
      NumbersFrom(k + 1, n - 1);
    }
  }
}
