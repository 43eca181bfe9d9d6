/**
  The event handler on its objects is the finder's uninterrupted steps: client objects stand for client numbers,
  place by place in the list.
 */
module ConnectorObjects {
  import opened ConnectorState
  import opened ConnectorBasics
  import opened ConnectorCode
  import opened ConnectorEvents

  /** Object and record say the same. */
  ghost predicate Same(o: ClientInfo, c: Client)
    reads o
  {
    o.uri == c.uri && o.disconnect == c.disconnect && o.refCount == c.refCount
  }

  ghost predicate Matches(list: seq<ClientInfo>, pool: set<string>, s: State)
    reads list
  {
    && InRange(s) && pool == s.pool && |list| == |s.clients|
    && forall i :: 0 <= i < |list| ==> Same(list[i], s.info[s.clients[i]])
  }

  // ----- The difference, object by object -----

  lemma {:induction false} SameDead(xs: seq<ClientInfo>, ys: seq<nat>, names: seq<string>, uris: seq<string>, i: nat)
    requires |xs| == |ys| == |names| && Distinct(xs) && Distinct(ys) && i < |xs|
    ensures Delta(xs, names, uris).add == Delta(ys, names, uris).add
    ensures xs[i] in Delta(xs, names, uris).dead <==> ys[i] in Delta(ys, names, uris).dead
    decreases |uris|
  {
    if uris != [] {
      var p := FirstAt(names, uris[0]);
      if p == |names| {
        SameDead(xs, ys, names, uris[1..], i);
      } else {
        var xs', ys', names' := Without(xs, p), Without(ys, p), Without(names, p);
        WithoutDistinct(xs, p);
        WithoutDistinct(ys, p);
        SameAdd(xs', ys', names', uris[1..]);
        if i == p {
          DeadAreListed(xs', names', uris[1..]);
          DeltaDeadListed(ys', names', uris[1..]);
        } else {
          var j := if i < p then i else i - 1;
          assert xs'[j] == xs[i] && ys'[j] == ys[i];
          SameDead(xs', ys', names', uris[1..], j);
        }
      }
    }
  }

  lemma {:induction false} SameAdd(xs: seq<ClientInfo>, ys: seq<nat>, names: seq<string>, uris: seq<string>)
    requires |xs| == |ys| == |names|
    ensures Delta(xs, names, uris).add == Delta(ys, names, uris).add
    decreases |uris|
  {
    if uris != [] {
      var p := FirstAt(names, uris[0]);
      if p == |names| {
        SameAdd(xs, ys, names, uris[1..]);
      } else {
        SameAdd(Without(xs, p), Without(ys, p), Without(names, p), uris[1..]);
      }
    }
  }

  lemma WithoutDistinct<T>(xs: seq<T>, p: nat)
    requires Distinct(xs) && p < |xs|
    ensures Distinct(Without(xs, p)) && xs[p] !in Without(xs, p)
  {
  }

  /** The same places are kept on both sides. */
  lemma {:induction false} SameKept(xs: seq<ClientInfo>, ys: seq<nat>, gone: set<ClientInfo>, ids: set<nat>)
    requires |xs| == |ys| && forall i :: 0 <= i < |xs| ==> (xs[i] in gone <==> ys[i] in ids)
    ensures |Keep(xs, gone)| == |KeepIds(ys, ids)|
    ensures forall j :: 0 <= j < |Keep(xs, gone)| ==> Paired(xs, ys, Keep(xs, gone)[j], KeepIds(ys, ids)[j])
  {
    if xs != [] {
      SameKept(xs[1..], ys[1..], gone, ids);
      forall x, y | Paired(xs[1..], ys[1..], x, y) ensures Paired(xs, ys, x, y) {
        var i :| 0 <= i < |xs[1..]| && xs[1..][i] == x && ys[1..][i] == y;
        assert xs[i + 1] == x && ys[i + 1] == y;
      }
      assert Paired(xs, ys, xs[0], ys[0]);
    }
  }

  ghost predicate Paired(xs: seq<ClientInfo>, ys: seq<nat>, x: ClientInfo, y: nat)
    requires |xs| == |ys|
  {
    exists i :: 0 <= i < |xs| && xs[i] == x && ys[i] == y
  }

  // ----- The URIs that leave the pool -----

  lemma SameUris(list: seq<ClientInfo>, s: State, pool: set<string>, dead: seq<ClientInfo>, deadIds: seq<nat>)
    requires Matches(list, pool, s)
    requires forall i :: 0 <= i < |list| ==> (list[i] in dead <==> s.clients[i] in deadIds)
    requires (forall c :: c in dead ==> c in list) && forall k :: k in deadIds ==> k in s.clients
    ensures UrisIn(Unread(dead)) == UrisAt(s.info, UnreadIds(s.info, deadIds))
    ensures forall i :: 0 <= i < |list| ==> (list[i] in Unread(dead) <==> s.clients[i] in UnreadIds(s.info, deadIds))
  {
    var gone, ids := Unread(dead), UnreadIds(s.info, deadIds);
    forall i | 0 <= i < |list| ensures list[i] in gone <==> s.clients[i] in ids {
      assert Same(list[i], s.info[s.clients[i]]);
    }
    forall u | u in UrisIn(gone) ensures u in UrisAt(s.info, ids) {
      var c :| c in gone && c.uri == u;
      var i :| 0 <= i < |list| && list[i] == c;
      assert s.clients[i] in ids && s.info[s.clients[i]].uri == u;
    }
    forall u | u in UrisAt(s.info, ids) ensures u in UrisIn(gone) {
      var k :| k in ids && k < |s.info| && s.info[k].uri == u;
      var i :| 0 <= i < |s.clients| && s.clients[i] == k;
      assert list[i] in gone && list[i].uri == u;
    }
  }

  /** A new client's object and its record. */
  lemma {:induction false} NewSame(added: seq<ClientInfo>, add: seq<string>)
    requires |added| == |add| && forall j :: 0 <= j < |add| ==> added[j].uri == add[j] && !added[j].disconnect && added[j].refCount == 0
    ensures forall j :: 0 <= j < |add| ==> Same(added[j], NewClients(add)[j])
  {
    if add != [] {
      NewSame(added[1..], add[1..]);
    }
  }

  lemma {:induction false} NumbersAt(k: nat, n: nat)
    ensures forall j :: 0 <= j < n ==> Numbers(k, n)[j] == k + j
    decreases n
  {
    if n > 0 {
      NumbersAt(k + 1, n - 1);
    }
  }

  /** Objects as the handler leaves them, records as the steps leave them. */
  lemma MatchAfter(list: seq<ClientInfo>, added: seq<ClientInfo>, s: State, d: DeltaResult<nat>, gone: set<ClientInfo>, ids: set<nat>, t: State)
    requires Below(s.clients, |s.info|) && InRange(t) && |list| == |s.clients| && |added| == |d.add|
    requires forall i :: 0 <= i < |list| ==>
      Same(list[i], s.info[s.clients[i]].(disconnect := s.clients[i] in d.dead)) && (list[i] in gone <==> s.clients[i] in ids)
    requires forall j :: 0 <= j < |added| ==> added[j].uri == d.add[j] && !added[j].disconnect && added[j].refCount == 0
    requires t.clients == KeepIds(s.clients, ids) + Numbers(|s.info|, |d.add|) && InfoAfter(s, d, t.info)
    ensures Matches(Keep(list, gone) + added, t.pool, t)
  {
    hide Keep, KeepIds, Numbers, NewClients;
    var kept, keptIds := Keep(list, gone), KeepIds(s.clients, ids);
    var after := kept + added;
    SameKept(list, s.clients, gone, ids);
    NewSame(added, d.add);
    NumbersAt(|s.info|, |d.add|);
    forall j | 0 <= j < |after| ensures Same(after[j], t.info[t.clients[j]]) {
      if j < |kept| {
        assert Paired(list, s.clients, kept[j], keptIds[j]);
        var i :| 0 <= i < |list| && list[i] == kept[j] && s.clients[i] == keptIds[j];
        assert s.clients[i] in s.clients;
      } else {
        var m := j - |kept|;
        assert t.info[|s.info| + m] == t.info[|s.info|..][m] == NewClients(d.add)[m];
      }
    }
  }

  /**
    Objects that match a state before the event match, after it, the state that the finder's steps reach: list, pool,
    flags and counts.
   */
  method HandleAsSteps(c: Connector, uris: seq<string>, live: nat -> seq<bool>, ghost s: State)
    returns (added: seq<ClientInfo>, spawned: seq<Spawn>, ghost steps: seq<Step>, ghost t: State)
    requires c.Valid() && Matches(c.List(), c.pool, s) && s.finder.Idle? && Distinct(s.clients)
    modifies c, c.clients, (set o | o in c.List())`disconnect
    ensures Executes(s, steps, t) && (forall step :: step in steps ==> step.OfFinder()) && t.finder.Idle?
    ensures c.Valid() && Matches(c.List(), c.pool, t)
  {
    hide Executes, Delta, KeepIds, UnreadIds, UrisAt, SpawnedFor, Spawns, Keep, InfoAfter, Numbers;
    ghost var list, names := c.List(), Names(c.List());
    assert names == UrisOf(s);
    ghost var dead: seq<ClientInfo> := Delta(list, names, uris).dead;
    ghost var d: DeltaResult<nat> := Delta(s.clients, names, uris);
    SameAdd(list, s.clients, names, uris);
    forall i | 0 <= i < |list| ensures list[i] in dead <==> s.clients[i] in d.dead {
      SameDead(list, s.clients, names, uris, i);
    }
    DeadAreListed(list, names, uris);
    DeltaDeadListed(s.clients, names, uris);
    SameUris(list, s, c.pool, dead, d.dead);
    ghost var gone, ids := Unread(dead), UnreadIds(s.info, d.dead);
    steps, t := EventIsSteps(s, uris);
    added, spawned := c.HandleFinderEvent(uris, live);
    assert Unread(dead) == gone;
    MatchAfter(list, added, s, d, gone, ids, t);
  }
}
