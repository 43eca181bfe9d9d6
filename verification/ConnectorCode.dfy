/**
  The connector's event handler as it is written: client objects shared by reference, a client list
  that is a slice over a backing array, removals that shift that array in place.
 */
module ConnectorCode {
  import opened ConnectorState
  import opened ConnectorBasics

  class ClientInfo {
    const uri: string
    var disconnect: bool
    var refCount: int

    constructor (uri: string)
      ensures this.uri == uri && !disconnect && refCount == 0
    {
      this.uri := uri;
      disconnect := false;
      refCount := 0;
    }
  }

  function Names(clients: seq<ClientInfo>): (names: seq<string>)
    ensures |names| == |clients|
    ensures forall i :: 0 <= i < |names| ==> names[i] == clients[i].uri
  {
    seq(|clients|, i requires 0 <= i < |clients| => clients[i].uri)
  }

  lemma NamesWithout(clients: seq<ClientInfo>, i: nat)
    requires i < |clients|
    ensures Names(Without(clients, i)) == Without(Names(clients), i)
  {
  }

  /** `make` and `copy`: a fresh backing array with the first `n` cells of `a`. */
  method Copy(a: array<ClientInfo>, n: nat) returns (b: array<ClientInfo>)
    requires n <= a.Length
    ensures fresh(b) && b.Length == n && b[..] == a[..n]
  {
    b := new ClientInfo[n](i requires 0 <= i < n && n <= a.Length reads a => a[i]);
  }

  /** `append(a[:i], a[i+1:n]...)`: shifts the tail down by one; the last cell keeps its stale value. */
  method ShiftOut(a: array<ClientInfo>, i: nat, n: nat)
    requires i < n <= a.Length
    modifies a
    ensures a[..n - 1] == Without(old(a[..n]), i)
    ensures a[n - 1..] == old(a[n - 1..])
  {
    ghost var before := a[..];
    var j := i;
    while j + 1 < n
      invariant i <= j < n
      invariant forall m :: 0 <= m < i ==> a[m] == before[m]
      invariant forall m :: i <= m < j ==> a[m] == before[m + 1]
      invariant forall m :: j <= m < a.Length ==> a[m] == before[m]
    {
      a[j] := a[j + 1];
      j := j + 1;
    }
    var now := a[..];
    assert now[..n - 1] == Without(before[..n], i);
    assert now[n - 1..] == before[n - 1..];
  }

  /** `subtractClient`: strike the first client of this name from the remaining ones. */
  method SubtractClient(remaining: array<ClientInfo>, n: nat, uri: string) returns (n': nat, contained: bool)
    requires n <= remaining.Length
    modifies remaining, (set c | c in remaining[..n])`disconnect
    ensures contained <==> uri in Names(old(remaining[..n]))
    ensures n' <= n && n' == (if contained then n - 1 else n)
    ensures var before := old(remaining[..n]); var i := FirstAt(Names(before), uri);
      && remaining[..n'] == (if contained then Without(before, i) else before)
      && (forall c :: c in before ==> c.disconnect == (old(c.disconnect) && !(contained && c == before[i])))
  {
    var i := 0;
    while i < n
      invariant 0 <= i <= n
      invariant remaining[..] == old(remaining[..])
      invariant uri !in Names(remaining[..n])[..i]
      invariant forall c :: c in old(remaining[..n]) ==> c.disconnect == old(c.disconnect)
    {
      if remaining[i].uri == uri {
        ghost var before := old(remaining[..n]);
        assert before[i] == remaining[i];
        FirstAtIs(Names(before), uri, i);
        remaining[i].disconnect := false;
        ShiftOut(remaining, i, n);
        return n - 1, true;
      }
      i := i + 1;
    }
    return n, false;
  }

  lemma FirstAtIs(names: seq<string>, u: string, i: nat)
    requires i < |names| && names[i] == u && u !in names[..i]
    ensures FirstAt(names, u) == i
  {
    assert u in names;
  }

  lemma WithoutFacts(s: seq<ClientInfo>, i: nat)
    requires i < |s| && Distinct(s)
    ensures Distinct(Without(s, i))
    ensures forall c :: c in Without(s, i) <==> c in s && c != s[i]
  {
  }

  lemma DeltaStep(remaining: seq<ClientInfo>, after: seq<ClientInfo>, uri: string, rest: seq<string>)
    requires after == if uri in Names(remaining) then Without(remaining, FirstAt(Names(remaining), uri)) else remaining
    ensures var d := Delta(after, Names(after), rest);
      Delta(remaining, Names(remaining), [uri] + rest) ==
      if uri in Names(remaining) then d else DeltaResult([uri] + d.add, d.dead)
  {
    assert ([uri] + rest)[1..] == rest;
    if uri in Names(remaining) {
      NamesWithout(remaining, FirstAt(Names(remaining), uri));
    }
  }

  /** After `u` event URIs, what is left to strike and what was found new. */
  ghost predicate Struck(all: seq<ClientInfo>, uris: seq<string>, u: nat, cur: seq<ClientInfo>, add: seq<string>)
    requires u <= |uris|
  {
    var d := Delta(cur, Names(cur), uris[u..]);
    Delta(all, Names(all), uris) == DeltaResult(add + d.add, d.dead)
  }

  lemma StruckStart(all: seq<ClientInfo>, uris: seq<string>)
    ensures Struck(all, uris, 0, all, [])
  {
    assert uris[0..] == uris;
    var d := Delta(all, Names(all), uris);
    assert [] + d.add == d.add;
  }

  lemma StruckEnd(all: seq<ClientInfo>, uris: seq<string>, cur: seq<ClientInfo>, add: seq<string>)
    requires Struck(all, uris, |uris|, cur, add)
    ensures Delta(all, Names(all), uris) == DeltaResult(add, cur)
  {
    assert uris[|uris|..] == [];
    assert add + [] == add;
  }

  lemma StruckStep(all: seq<ClientInfo>, uris: seq<string>, u: nat, cur: seq<ClientInfo>, next: seq<ClientInfo>, add: seq<string>)
    requires u < |uris| && Distinct(cur) && Struck(all, uris, u, cur, add)
    requires next == if uris[u] in Names(cur) then Without(cur, FirstAt(Names(cur), uris[u])) else cur
    ensures Struck(all, uris, u + 1, next, if uris[u] in Names(cur) then add else add + [uris[u]])
  {
    assert uris[u..] == [uris[u]] + uris[u + 1..];
    DeltaStep(cur, next, uris[u], uris[u + 1..]);
    assert forall more: seq<string> :: add + ([uris[u]] + more) == (add + [uris[u]]) + more;
  }

  /** The loop of `delta` on its own copy. */
  method StrikeAll(dead: array<ClientInfo>, n: nat, uris: seq<string>) returns (n': nat, add: seq<string>)
    requires n <= dead.Length && Distinct(dead[..n])
    modifies dead, (set c | c in dead[..n])`disconnect
    ensures n' <= n
    ensures DeltaResult(add, dead[..n']) == Delta(old(dead[..n]), Names(old(dead[..n])), uris)
    ensures forall c :: c in old(dead[..n]) ==> c.disconnect == (old(c.disconnect) && c in dead[..n'])
  {
    hide Struck, Delta;
    ghost var all := dead[..n];
    ghost var cur := all;
    n', add := n, [];
    StruckStart(all, uris);
    var u := 0;
    while u < |uris|
      invariant 0 <= u <= |uris| && n' <= n && dead[..n'] == cur && Distinct(cur)
      invariant forall c :: c in cur ==> c in all
      invariant Struck(all, uris, u, cur, add)
      invariant forall c :: c in all ==> c.disconnect == (old(c.disconnect) && c in cur)
    {
      var contained;
      n', contained := SubtractClient(dead, n', uris[u]);
      StruckStep(all, uris, u, cur, dead[..n'], add);
      if contained {
        WithoutFacts(cur, FirstAt(Names(cur), uris[u]));
      } else {
        add := add + [uris[u]];
      }
      cur := dead[..n'];
      u := u + 1;
    }
    StruckEnd(all, uris, cur, add);
  }

  /** The clients of `s` that are not in `gone`, in order. */
  function Keep(s: seq<ClientInfo>, gone: set<ClientInfo>): seq<ClientInfo> {
    if s == [] then []
    else if s[0] in gone then Keep(s[1..], gone)
    else [s[0]] + Keep(s[1..], gone)
  }

  lemma {:induction false} KeepNone(s: seq<ClientInfo>, gone: set<ClientInfo>)
    requires forall c :: c in s ==> c !in gone
    ensures Keep(s, gone) == s
  {
    if s != [] {
      KeepNone(s[1..], gone);
    }
  }

  lemma {:induction false} KeepMembers(s: seq<ClientInfo>, gone: set<ClientInfo>)
    ensures forall c :: c in Keep(s, gone) <==> c in s && c !in gone
    ensures Distinct(s) ==> Distinct(Keep(s, gone))
  {
    if s != [] {
      KeepMembers(s[1..], gone);
      if Distinct(s) {
        assert s[0] !in s[1..];
      }
    }
  }

  /** Removing the cell of a listed client keeps everybody else, and nobody twice. */
  lemma {:induction false} KeepOne(s: seq<ClientInfo>, i: nat)
    requires i < |s| && Distinct(s)
    ensures Keep(s, {s[i]}) == Without(s, i)
  {
    if i == 0 {
      assert s[0] !in s[1..];
      KeepNone(s[1..], {s[0]});
    } else {
      KeepOne(s[1..], i - 1);
      assert Without(s, i) == [s[0]] + Without(s[1..], i - 1);
    }
  }

  lemma {:induction false} KeepTwice(s: seq<ClientInfo>, gone: set<ClientInfo>, more: set<ClientInfo>)
    ensures Keep(Keep(s, gone), more) == Keep(s, gone + more)
  {
    if s != [] {
      KeepTwice(s[1..], gone, more);
    }
  }

  lemma {:induction false} KeepAppend(s: seq<ClientInfo>, t: seq<ClientInfo>, gone: set<ClientInfo>)
    ensures Keep(s + t, gone) == Keep(s, gone) + Keep(t, gone)
  {
    if s == [] {
      assert s + t == t;
    } else {
      assert (s + t)[1..] == s[1..] + t;
      KeepAppend(s[1..], t, gone);
    }
  }

  datatype Spawn = Spawn(slot: nat, client: ClientInfo)

  /** One reader for each of the first `n` slots that holds a live consumer. */
  function ReadersFor(client: ClientInfo, live: seq<bool>, n: nat): seq<Spawn>
    requires n <= |live|
  {
    if n == 0 then []
    else ReadersFor(client, live, n - 1) + (if live[n - 1] then [Spawn(n - 1, client)] else [])
  }

  /** The readers spawned for some new clients; `live(j)` is what the loads of the slots see for the j-th of them. */
  function Spawns(added: seq<ClientInfo>, live: nat -> seq<bool>): seq<Spawn> {
    if added == [] then []
    else
      var n := |added| - 1;
      Spawns(added[..n], live) + ReadersFor(added[n], live(n), |live(n)|)
  }

  lemma SpawnsAppend(added: seq<ClientInfo>, client: ClientInfo, live: nat -> seq<bool>)
    ensures Spawns(added + [client], live) == Spawns(added, live) + ReadersFor(client, live(|added|), |live(|added|)|)
  {
    assert (added + [client])[..|added|] == added;
  }

  lemma NoSpawns(live: nat -> seq<bool>)
    ensures Spawns([], live) == []
  {
  }

  method SpawnReaders(client: ClientInfo, live: seq<bool>) returns (spawned: seq<Spawn>)
    ensures spawned == ReadersFor(client, live, |live|)
  {
    spawned := [];
    for i := 0 to |live|
      invariant spawned == ReadersFor(client, live, i)
    {
      if live[i] {
        spawned := spawned + [Spawn(i, client)];
      }
    }
  }

  /** Those of the given clients that no reader is counted on. */
  function Unread(clients: seq<ClientInfo>): set<ClientInfo>
    reads clients
  {
    set c | c in clients && c.refCount == 0
  }

  ghost function UrisIn(clients: set<ClientInfo>): set<string> {
    set c | c in clients :: c.uri
  }

  lemma UrisMore(gone: set<ClientInfo>, more: set<ClientInfo>)
    ensures UrisIn(gone + more) == UrisIn(gone) + UrisIn(more)
  {
  }

  lemma {:induction false} DeadAreListed(remaining: seq<ClientInfo>, names: seq<string>, uris: seq<string>)
    requires |remaining| == |names|
    ensures forall c :: c in Delta(remaining, names, uris).dead ==> c in remaining
    decreases |uris|
  {
    if uris != [] {
      var i := FirstAt(names, uris[0]);
      if i < |names| {
        DeadAreListed(Without(remaining, i), Without(names, i), uris[1..]);
      } else {
        DeadAreListed(remaining, names, uris[1..]);
      }
    }
  }

  class Connector {
    var clients: array<ClientInfo>
    var count: nat
    var pool: set<string>

    ghost predicate Valid()
      reads this, clients
    {
      count <= clients.Length && Distinct(clients[..count])
    }

    ghost function List(): seq<ClientInfo>
      reads this, clients
      requires Valid()
    {
      clients[..count]
    }

    constructor ()
      ensures Valid() && List() == [] && pool == {} && fresh(clients)
    {
      var none: array<ClientInfo> := new ClientInfo[0];
      clients := none;
      count := 0;
      pool := {};
    }

    /** `delta`: works on a copy, so the client list itself is not disturbed by the in-place strikes. */
    method Delta(uris: seq<string>) returns (add: seq<string>, dead: array<ClientInfo>, deadCount: nat)
      requires Valid()
      modifies (set c | c in List())`disconnect
      ensures Valid() && List() == old(List()) && clients == old(clients)
      ensures fresh(dead) && deadCount <= dead.Length
      ensures DeltaResult(add, dead[..deadCount]) == ConnectorState.Delta(List(), Names(List()), uris)
      ensures forall c :: c in List() ==> c.disconnect == (old(c.disconnect) && c in dead[..deadCount])
    {
      dead := Copy(clients, count);
      assert dead[..count] == List();
      deadCount, add := StrikeAll(dead, count, uris);
    }

    /**
      `close` ranges over the slice it shortens: the range keeps the old length and re-reads the
      shifted array, whose last cell is stale.  It still removes exactly the one entry.
     */
    method Close(client: ClientInfo)
      requires Valid()
      modifies this`count, clients
      ensures Valid()
      ensures List() == Keep(old(List()), {client})
      ensures count == old(count) - (if client in old(List()) then 1 else 0)
    {
      ghost var all := List();
      ghost var at: nat := |all|;
      var length := count;
      var i := 0;
      while i < length
        invariant 0 <= i <= length == |all| && length <= clients.Length
        invariant at < |all| ==> at < i && all[at] == client && count == length - 1 && clients[..count] == Without(all, at)
        invariant at < |all| ==> clients[length - 1] == all[length - 1]
        invariant at == |all| ==> count == length && clients[..count] == all && client !in all[..i]
        invariant at <= |all|
      {
        assert at < |all| && i < length - 1 ==> clients[i] == clients[..count][i];
        if clients[i] == client {
          assert at == |all|;
          assert clients[length - 1] == all[length - 1];
          ShiftOut(clients, i, count);
          count := count - 1;
          at := i;
        }
        i := i + 1;
      }
      if at < |all| {
        KeepOne(all, at);
        KeepMembers(all, {client});
      } else {
        KeepNone(all, {client});
      }
    }

    method Append(client: ClientInfo)
      requires Valid() && client !in List()
      modifies this`clients, this`count, clients
      ensures Valid() && List() == old(List()) + [client]
      ensures clients == old(clients) || fresh(clients)
    {
      if count == clients.Length {
        var old' := clients;
        var n := count;
        var grown := new ClientInfo[2 * n + 1](i requires 0 <= i && n <= old'.Length reads old' => if i < n then old'[i] else client);
        clients := grown;
        assert clients[..n] == old(List());
      }
      clients[count] := client;
      count := count + 1;
      assert clients[..count] == old(List()) + [client];
    }

    /** The first loop of `handleFinderEvent`: one new client per new URI, one reader per live slot. */
    method AddAll(add: seq<string>, live: nat -> seq<bool>) returns (added: seq<ClientInfo>, spawned: seq<Spawn>)
      requires Valid()
      modifies this, clients
      ensures Valid() && (clients == old(clients) || fresh(clients))
      ensures List() == old(List()) + added && Names(added) == add
      ensures forall c :: c in added ==> fresh(c) && !c.disconnect && c.refCount == 0
      ensures pool == old(pool) + (set u | u in add)
      ensures spawned == Spawns(added, live)
    {
      hide Spawns, ReadersFor;
      added, spawned := [], [];
      assert Spawns(added, live) == [] by { NoSpawns(live); }
      while |added| < |add|
        invariant Valid() && (clients == old(clients) || fresh(clients))
        invariant |added| <= |add| && List() == old(List()) + added && Names(added) == add[..|added|]
        invariant forall c :: c in added ==> fresh(c) && !c.disconnect && c.refCount == 0
        invariant pool == old(pool) + (set u | u in add[..|added|])
        invariant spawned == Spawns(added, live)
      {
        var uri := add[|added|];
        assert add[..|added| + 1] == add[..|added|] + [uri];
        pool := pool + {uri};
        var client := new ClientInfo(uri);
        Append(client);
        var readers := SpawnReaders(client, live(|added|));
        SpawnsAppend(added, client, live);
        added, spawned := added + [client], spawned + readers;
      }
      assert add[..|add|] == add;
    }

    /** One round of the second loop. */
    method Disable(client: ClientInfo)
      requires Valid()
      modifies this`count, this`pool, clients, client`disconnect
      ensures Valid() && clients == old(clients) && client.disconnect
      ensures List() == Keep(old(List()), if client.refCount == 0 then {client} else {})
      ensures pool == old(pool) - (if client.refCount == 0 then {client.uri} else {})
    {
      hide Keep;
      client.disconnect := true;
      if client.refCount == 0 {
        pool := pool - {client.uri};
        Close(client);
      } else {
        KeepNone(List(), {});
      }
    }

    /** The second loop: disable each missing doppler and close those nobody reads. */
    method DisableAll(dead: array<ClientInfo>, n: nat)
      requires Valid() && n <= dead.Length && dead != clients
      modifies this`count, this`pool, clients, (set c | c in dead[..n])`disconnect
      ensures Valid() && clients == old(clients)
      ensures forall c :: c in dead[..n] ==> c.disconnect
      ensures List() == Keep(old(List()), Unread(dead[..n]))
      ensures pool == old(pool) - UrisIn(Unread(dead[..n]))
    {
      hide Keep;
      ghost var gone: set<ClientInfo> := {};
      KeepNone(List(), gone);
      var i := 0;
      while i < n
        invariant 0 <= i <= n && Valid() && clients == old(clients)
        invariant forall c :: c in dead[..i] ==> c.disconnect
        invariant gone == Unread(dead[..i])
        invariant List() == Keep(old(List()), gone)
        invariant pool == old(pool) - UrisIn(gone)
      {
        assert dead[..i + 1] == dead[..i] + [dead[i]];
        ghost var more := if dead[i].refCount == 0 then {dead[i]} else {};
        KeepTwice(old(List()), gone, more);
        Disable(dead[i]);
        UrisMore(gone, more);
        gone := gone + more;
        i := i + 1;
      }
      assert dead[..i] == dead[..n];
    }

    /**
      One finder event.  Listed afterwards are the clients that were listed, less those missing from
      the event that nobody reads, followed by one fresh client per new URI.  The slots are loaded anew
      for each new URI.
     */
    method HandleFinderEvent(uris: seq<string>, live: nat -> seq<bool>) returns (added: seq<ClientInfo>, spawned: seq<Spawn>)
      requires Valid()
      modifies this, clients, (set c | c in List())`disconnect
      ensures Valid()
      ensures var d := ConnectorState.Delta(old(List()), Names(old(List())), uris);
        && Names(added) == d.add
        && List() == Keep(old(List()), Unread(d.dead)) + added
        && pool == old(pool) + (set u | u in d.add) - UrisIn(Unread(d.dead))
        && (forall c :: c in old(List()) ==> c.disconnect == (c in d.dead))
      ensures forall c :: c in added ==> fresh(c) && !c.disconnect && c.refCount == 0
      ensures spawned == Spawns(added, live)
    {
      ghost var before := List();
      var add, dead, n := Delta(uris);
      ghost var gone := dead[..n];
      DeadAreListed(before, Names(before), uris);
      added, spawned := AddAll(add, live);
      assert dead[..n] == gone;
      DisableAll(dead, n);
      KeepAppend(before, added, Unread(gone));
      KeepNone(added, Unread(gone));
    }
  }
}
