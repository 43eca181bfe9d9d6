/**
  The drain watcher of doppler/internal/store/app_service_store_watcher.go over the two-level cache of
  app_service_cache.go: the stream of adds and removes it emits must mirror the cache.
 */
module DrainWatcher {
  import opened Wrappers

  /** A drain binding; `id` is the digest of its URL, so bindings that differ only in hostname share it. */
  datatype Service = Service(appId: string, id: string, url: string, hostname: string)

  datatype Emission = Emission(added: bool, service: Service)

  type Cache = map<string, map<string, Service>>

  // ----- The stream -----

  predicate Concerns(e: Emission, app: string, id: string) {
    e.service.appId == app && e.service.id == id
  }

  /**
    Reads the stream for one binding: Some(what is there) while adds and removes have strictly alternated from a
    first add, None once they have not. What is there is the service of the last add.
   */
  function Standing(log: seq<Emission>, app: string, id: string): Option<Option<Service>> {
    if log == [] then Some(None)
    else Heard(Standing(log[..|log| - 1], app, id), log[|log| - 1], app, id)
  }

  function Heard(before: Option<Option<Service>>, e: Emission, app: string, id: string): Option<Option<Service>> {
    if !Concerns(e, app, id) then before
    else if before.None? || before.value.Some? == e.added then None
    else Some(if e.added then Some(e.service) else None)
  }

  lemma StandingAppend(log: seq<Emission>, e: Emission, app: string, id: string)
    ensures Standing(log + [e], app, id) == Heard(Standing(log, app, id), e, app, id)
  {
    assert (log + [e])[..|log|] == log;
  }

  // ----- The cache -----

  predicate Has(c: Cache, app: string, id: string) { app in c && id in c[app] }

  function Cached(c: Cache, app: string, id: string): Option<Service> {
    if Has(c, app, id) then Some(c[app][id]) else None
  }

  ghost predicate CacheRight(c: Cache) {
    && (forall app :: app in c ==> c[app] != map[])
    && (forall app, id :: Has(c, app, id) ==> c[app][id].appId == app && c[app][id].id == id)
  }

  /** The stream mirrors the cache, binding by binding: what is cached is the service of the last add. */
  ghost predicate Mirrors(c: Cache, log: seq<Emission>) {
    forall app, id :: Standing(log, app, id) == Some(Cached(c, app, id))
  }

  /** Putting one binding in. */
  function With(c: Cache, s: Service): Cache {
    c[s.appId := (if s.appId in c then c[s.appId] else map[])[s.id := s]]
  }

  lemma CachedWith(c: Cache, s: Service, a: string, i: string)
    ensures Cached(With(c, s), a, i) == if a == s.appId && i == s.id then Some(s) else Cached(c, a, i)
  {
  }

  lemma AddKept(c: Cache, log: seq<Emission>, s: Service)
    requires CacheRight(c) && Mirrors(c, log) && !Has(c, s.appId, s.id)
    ensures CacheRight(With(c, s)) && Mirrors(With(c, s), log + [Emission(true, s)])
  {
    hide Standing;
    var after := With(c, s);
    forall app, id ensures Standing(log + [Emission(true, s)], app, id) == Some(Cached(after, app, id)) {
      StandingAppend(log, Emission(true, s), app, id);
      CachedWith(c, s, app, id);
    }
    assert s.id in after[s.appId];
  }

  /** Taking one binding out, and its app with the last one. */
  function Without(c: Cache, app: string, id: string): Cache {
    if app !in c then c
    else if c[app] - {id} == map[] then c - {app}
    else c[app := c[app] - {id}]
  }

  lemma CachedWithout(c: Cache, app: string, id: string, a: string, i: string)
    requires CacheRight(c)
    ensures Cached(Without(c, app, id), a, i) == if a == app && i == id then None else Cached(c, a, i)
  {
    assert app in c && i != id ==> (i in c[app] <==> i in c[app] - {id});
  }

  lemma RemoveKept(c: Cache, log: seq<Emission>, s: Service)
    requires CacheRight(c) && Mirrors(c, log) && Has(c, s.appId, s.id)
    ensures CacheRight(Without(c, s.appId, s.id)) && Mirrors(Without(c, s.appId, s.id), log + [Emission(false, s)])
  {
    hide Standing;
    var after := Without(c, s.appId, s.id);
    forall app, id ensures Standing(log + [Emission(false, s)], app, id) == Some(Cached(after, app, id)) {
      StandingAppend(log, Emission(false, s), app, id);
      CachedWithout(c, s.appId, s.id, app, id);
    }
    forall app, id | Has(after, app, id) ensures after[app][id].appId == app && after[app][id].id == id {
      CachedWithout(c, s.appId, s.id, app, id);
      assert Cached(after, app, id) == Cached(c, app, id);
    }
  }

  // ----- Listings -----

  function Pairs(c: Cache): set<(string, string)> {
    set app, id | app in c && id in c[app] :: (app, id)
  }

  ghost predicate EachOnce(ss: seq<Service>) {
    forall i, j :: 0 <= i < j < |ss| ==> (ss[i].appId, ss[i].id) != (ss[j].appId, ss[j].id)
  }

  /** `values`: an inner map in any order. */
  method Values(inner: map<string, Service>) returns (out: seq<Service>)
    requires forall id :: id in inner ==> inner[id].id == id
    ensures forall s :: s in out <==> s.id in inner && inner[s.id] == s
    ensures |out| == |inner| && forall i, j :: 0 <= i < j < |out| ==> out[i].id != out[j].id
  {
    out := [];
    var rest := inner.Keys;
    while rest != {}
      invariant rest <= inner.Keys && |out| + |rest| == |inner.Keys| == |inner|
      invariant forall s :: s in out <==> s.id in inner && s.id !in rest && inner[s.id] == s
      invariant forall i, j :: 0 <= i < j < |out| ==> out[i].id != out[j].id
      decreases rest
    {
      var id :| id in rest;
      assert forall s :: s in out ==> s.id != id;
      out := out + [inner[id]];
      rest := rest - {id};
    }
  }

  function Weight(n: nat): nat { if n > 0 then n else 1 }

  lemma PairsGrow(c: Cache, rest: set<string>, app: string)
    requires app in rest && rest <= c.Keys
    ensures |Pairs(c - (rest - {app}))| == |Pairs(c - rest)| + |c[app]|
  {
    var less, more := c - rest, c - (rest - {app});
    var own := set id | id in c[app] :: (app, id);
    assert Pairs(more) == Pairs(less) + own;
    assert Pairs(less) * own == {};
    PairSize(c[app].Keys, app);
    assert own == set id | id in c[app].Keys :: (app, id);
    assert |c[app].Keys| == |c[app]|;
  }

  lemma {:induction false} PairSize(ids: set<string>, app: string)
    ensures |set id | id in ids :: (app, id)| == |ids|
  {
    if ids == {} {
      assert (set id | id in ids :: (app, id)) == {};
    } else {
      var k :| k in ids;
      PairSize(ids - {k}, app);
      var rest := set id | id in ids - {k} :: (app, id);
      assert (set id | id in ids :: (app, id)) == rest + {(app, k)};
      assert (app, k) !in rest;
    }
  }

  // ----- The watcher -----

  /** A store event: what its node, or the node it had before, parses to. */
  datatype Event =
    | Put(dir: bool, empty: bool, parsed: Option<Service>)
    | Gone(dir: bool, appId: string, parsed: Option<Service>)

  /** Does the event put this binding, and which service? */
  function PutOf(event: Event, app: string, id: string): Option<Service> {
    if event.Put? && !event.dir && !event.empty && event.parsed.Some?
       && event.parsed.value.appId == app && event.parsed.value.id == id
    then event.parsed else None
  }

  predicate Drops(event: Event, app: string, id: string) {
    event.Gone?
    && if event.dir then app == event.appId
       else event.parsed.Some? && event.parsed.value.appId == app && event.parsed.value.id == id
  }

  /** What is cached for a binding after an event: a put counts only if nothing is there. */
  function Bound(before: Option<Service>, event: Event, app: string, id: string): Option<Service> {
    if Drops(event, app, id) then None
    else if before.Some? then before
    else PutOf(event, app, id)
  }

  /** ... and after a history of events. */
  function Replayed(before: Option<Service>, events: seq<Event>, app: string, id: string): Option<Service> {
    if events == [] then before
    else Bound(Replayed(before, events[..|events| - 1], app, id), events[|events| - 1], app, id)
  }

  /** What the store already holds counts as so many puts. */
  function Existing(nodes: seq<Option<Service>>): seq<Event> {
    if nodes == [] then [] else Existing(nodes[..|nodes| - 1]) + [Put(false, false, nodes[|nodes| - 1])]
  }

  class Watcher {
    var cache: Cache
    /** The sends on the two output channels, in order. */
    var log: seq<Emission>

    ghost predicate Valid()
      reads this
    {
      CacheRight(cache) && Mirrors(cache, log)
    }

    constructor ()
      ensures Valid() && cache == map[] && log == []
    {
      cache, log := map[], [];
    }

    predicate Exists(s: Service)
      reads this
    {
      Has(cache, s.appId, s.id)
    }

    method Add(s: Service)
      requires Valid()
      modifies this
      ensures Valid()
      ensures old(Exists(s)) ==> cache == old(cache) && log == old(log)
      ensures !old(Exists(s)) ==> cache == With(old(cache), s) && log == old(log) + [Emission(true, s)]
    {
      hide CacheRight, Mirrors;
      if !Exists(s) {
        AddKept(cache, log, s);
        var inner := if s.appId in cache then cache[s.appId] else map[];
        cache := cache[s.appId := inner[s.id := s]];
        log := log + [Emission(true, s)];
      }
    }

    method Remove(s: Service)
      requires Valid()
      modifies this
      ensures Valid()
      ensures !old(Exists(s)) ==> cache == old(cache) && log == old(log)
      ensures old(Exists(s)) ==> cache == Without(old(cache), s.appId, s.id) && log == old(log) + [Emission(false, s)]
    {
      hide CacheRight, Mirrors, Without;
      if Exists(s) {
        RemoveKept(cache, log, s);
        var inner := cache[s.appId] - {s.id};
        WithoutIs(cache, s.appId, s.id);
        cache := if |inner| == 0 then cache - {s.appId} else cache[s.appId := inner];
        log := log + [Emission(false, s)];
      }
    }

    /** `RemoveApp`: the cache forgets the app at once, then a remove is sent for each binding it had. */
    method RemoveApp(appId: string) returns (services: seq<Service>)
      requires Valid()
      modifies this
      ensures Valid() && cache == old(cache) - {appId}
      ensures Under(old(cache), appId, services) && log == old(log) + Removes(services)
    {
      hide CacheRight, Mirrors, Removes, Under;
      var inner := if appId in cache then cache[appId] else map[];
      KeysRight(cache, appId);
      services := Values(inner);
      ListedUnder(cache, appId, services);
      RemoveAppKept(cache, log, appId, services);
      cache := cache - {appId};
      EmitRemoves(services);
    }

    method EmitRemoves(services: seq<Service>)
      modifies this`log
      ensures log == old(log) + Removes(services)
    {
      var i := 0;
      while i < |services|
        invariant 0 <= i <= |services| && log == old(log) + Removes(services[..i])
      {
        assert services[..i + 1][..i] == services[..i];
        log := log + [Emission(false, services[i])];
        i := i + 1;
      }
      assert services[..i] == services;
    }

    method Get(appId: string) returns (services: seq<Service>)
      requires Valid()
      ensures forall s :: s in services <==> s.appId == appId && Exists(s) && cache[s.appId][s.id] == s
      ensures EachOnce(services)
    {
      assert appId in cache ==> forall id :: id in cache[appId] ==> Has(cache, appId, id);
      services := Values(if appId in cache then cache[appId] else map[]);
    }

    /** `Size`: an app with no binding would count as one, but there is none. */
    method Size() returns (count: nat)
      requires Valid()
      ensures count == |Pairs(cache)|
    {
      count := 0;
      var rest := cache.Keys;
      assert Pairs(cache - rest) == {};
      while rest != {}
        invariant rest <= cache.Keys && count == |Pairs(cache - rest)|
        decreases rest
      {
        var app :| app in rest;
        PairsGrow(cache, rest, app);
        NotEmpty(cache[app]);
        count := count + Weight(|cache[app]|);
        rest := rest - {app};
      }
      assert cache - rest == cache;
    }

    /** `GetAll`: every cached binding, once, and as many as `Size` says. */
    method GetAll() returns (result: seq<Service>)
      requires Valid()
      ensures forall s :: s in result <==> Exists(s) && cache[s.appId][s.id] == s
      ensures EachOnce(result) && |result| == |Pairs(cache)|
    {
      hide CacheRight, Mirrors, Pairs, EachOnce;
      result := [];
      var rest := cache.Keys;
      NothingYet(cache);
      while rest != {}
        invariant rest <= cache.Keys && |result| == |Pairs(cache - rest)|
        invariant Listed(result, cache, rest) && EachOnce(result)
        decreases rest
      {
        var app :| app in rest;
        PairsGrow(cache, rest, app);
        KeysRight(cache, app);
        var services := Values(cache[app]);
        ListedUnder(cache, app, services);
        ListedMore(result, services, cache, rest, app);
        result := result + services;
        rest := rest - {app};
      }
      assert cache - rest == cache;
    }

    /** The body of the event loop in `Run`. */
    method Handle(event: Event)
      requires Valid()
      modifies this
      ensures Valid() && old(log) <= log
      ensures forall app, id :: Cached(cache, app, id) == Bound(old(Cached(cache, app, id)), event, app, id)
    {
      hide CacheRight, Mirrors, With, Without, Cached;
      forall app, id ensures Cached(cache, app, id).Some? <==> Has(cache, app, id) { CachedIs(cache, app, id); }
      match event
      case Put(dir, empty, parsed) =>
        if dir || empty || parsed.None? {
          return;
        }
        forall app, id { CachedWith(cache, parsed.value, app, id); }
        Add(parsed.value);
      case Gone(dir, appId, parsed) =>
        if dir {
          forall app, id { CachedLess(cache, appId, app, id); }
          var _ := RemoveApp(appId);
        } else if parsed.Some? {
          forall app, id { CachedWithout(cache, parsed.value.appId, parsed.value.id, app, id); }
          Remove(parsed.value);
        }
    }

    /**
      `Run`: what is in the store already, then the events. The stream mirrors the cache, and the cache holds
      exactly the services that replaying the history leaves.
     */
    method Run(existing: seq<Option<Service>>, events: seq<Event>)
      requires Valid()
      modifies this
      ensures Valid() && old(log) <= log
      ensures forall app, id ::
        Cached(cache, app, id) == Replayed(old(Cached(cache, app, id)), Existing(existing) + events, app, id)
    {
      hide CacheRight, Mirrors, Cached, Bound;
      var i := 0;
      while i < |existing|
        invariant 0 <= i <= |existing| && Valid() && old(log) <= log
        invariant forall app, id ::
          Cached(cache, app, id) == Replayed(old(Cached(cache, app, id)), Existing(existing[..i]), app, id)
      {
        var event := Put(false, false, existing[i]);
        assert existing[..i + 1][..i] == existing[..i];
        ReplayMore(Existing(existing[..i]), event);
        Handle(event);
        i := i + 1;
      }
      assert existing[..i] == existing;
      ghost var known := Existing(existing);
      assert known + events[..0] == known;
      i := 0;
      while i < |events|
        invariant 0 <= i <= |events| && Valid() && old(log) <= log
        invariant forall app, id ::
          Cached(cache, app, id) == Replayed(old(Cached(cache, app, id)), known + events[..i], app, id)
      {
        assert known + events[..i + 1] == (known + events[..i]) + [events[i]];
        ReplayMore(known + events[..i], events[i]);
        Handle(events[i]);
        i := i + 1;
      }
      assert known + events[..i] == known + events;
    }
  }

  lemma ReplayMore(events: seq<Event>, event: Event)
    ensures forall before, app, id ::
      Replayed(before, events + [event], app, id) == Bound(Replayed(before, events, app, id), event, app, id)
  {
    assert (events + [event])[..|events|] == events;
  }

  lemma CachedIs(c: Cache, app: string, id: string)
    ensures Cached(c, app, id).Some? <==> Has(c, app, id)
  {
  }

  lemma CachedLess(c: Cache, appId: string, app: string, id: string)
    ensures Cached(c - {appId}, app, id) == if app == appId then None else Cached(c, app, id)
  {
  }

  // ----- Is the cached service the latest? -----

  /** The puts of a binding since it was last absent, in order. */
  function PutsSince(events: seq<Event>, app: string, id: string): seq<Service> {
    if events == [] then []
    else
      var before, event := PutsSince(events[..|events| - 1], app, id), events[|events| - 1];
      if Drops(event, app, id) then []
      else if PutOf(event, app, id).Some? then before + [PutOf(event, app, id).value]
      else before
  }

  /** The cache holds the first of them. */
  lemma {:induction false} CachedIsFirst(events: seq<Event>, app: string, id: string)
    ensures
      var puts := PutsSince(events, app, id);
      Replayed(None, events, app, id) == if puts == [] then None else Some(puts[0])
  {
    if events != [] {
      CachedIsFirst(events[..|events| - 1], app, id);
    }
  }

  /** The cache holds the last of them. */
  ghost predicate Current(events: seq<Event>, app: string, id: string) {
    var puts := PutsSince(events, app, id);
    puts == [] || Replayed(None, events, app, id) == Some(puts[|puts| - 1])
  }

  /** A put that finds the binding cached with something else, for example with another hostname. */
  ghost predicate Changes(events: seq<Event>, event: Event, app: string, id: string) {
    var put, there := PutOf(event, app, id), Replayed(None, events, app, id);
    put.Some? && there.Some? && put != there
  }

  /** A put keeps the cache current exactly when it changes nothing that is there. */
  lemma CurrentStep(events: seq<Event>, event: Event, app: string, id: string)
    requires Current(events, app, id)
    ensures Current(events + [event], app, id) <==> !Changes(events, event, app, id)
  {
    assert (events + [event])[..|events|] == events;
    CachedIsFirst(events, app, id);
    CachedIsFirst(events + [event], app, id);
  }

  /** Over a whole history: the cache is current throughout exactly when no put changed a binding that was there. */
  lemma {:induction false} CurrentExact(events: seq<Event>, n: nat, app: string, id: string)
    requires n <= |events|
    ensures (forall m :: 0 <= m <= n ==> Current(events[..m], app, id)) <==>
      (forall m :: 0 <= m < n ==> !Changes(events[..m], events[m], app, id))
    decreases n
  {
    hide Current, Changes;
    if n == 0 {
      assert events[..0] == [];
      CurrentStart(app, id);
    } else {
      CurrentExact(events, n - 1, app, id);
      assert events[..n] == events[..n - 1] + [events[n - 1]];
      if Current(events[..n - 1], app, id) {
        CurrentStep(events[..n - 1], events[n - 1], app, id);
      }
    }
  }

  lemma CurrentStart(app: string, id: string)
    ensures Current([], app, id)
  {
  }

  /** Two puts of one binding that differ, say in hostname only: the second is neither cached nor emitted. */
  lemma HostnameIgnored(first: Service, second: Service)
    requires first.appId == second.appId && first.id == second.id && first.hostname != second.hostname
    ensures
      var events := [Put(false, false, Some(first)), Put(false, false, Some(second))];
      && Replayed(None, events, first.appId, first.id) == Some(first)
      && !Current(events, first.appId, first.id)
  {
    var one, two := Put(false, false, Some(first)), Put(false, false, Some(second));
    var events := [one, two];
    assert events[..1] == [one] && [one][..0] == [];
    assert Replayed(None, [one], first.appId, first.id) == Some(first);
    assert PutsSince([one], first.appId, first.id) == [] + [first];
    assert PutsSince(events, first.appId, first.id) == [first] + [second];
  }

  // ----- Removal of a whole app -----

  ghost predicate Sent(services: seq<Service>, app: string, id: string) {
    exists i :: 0 <= i < |services| && services[i].appId == app && services[i].id == id
  }

  lemma SentMore(services: seq<Service>, n: nat, app: string, id: string)
    requires n < |services|
    ensures Sent(services[..n + 1], app, id) <==>
      Sent(services[..n], app, id) || (services[n].appId == app && services[n].id == id)
  {
    assert forall i :: 0 <= i < n ==> services[..n + 1][i] == services[..n][i];
    assert services[..n + 1][n] == services[n];
  }

  function Removes(services: seq<Service>): (log: seq<Emission>)
    ensures |log| == |services|
  {
    if services == [] then []
    else Removes(services[..|services| - 1]) + [Emission(false, services[|services| - 1])]
  }

  /** The services are an app's, each once. */
  ghost predicate Under(c: Cache, app: string, services: seq<Service>) {
    && (forall s :: s in services <==> s.appId == app && Has(c, app, s.id) && c[app][s.id] == s)
    && (forall i, j :: 0 <= i < j < |services| ==> services[i].id != services[j].id)
  }

  lemma KeysRight(c: Cache, app: string)
    requires CacheRight(c)
    ensures app in c ==> forall id :: id in c[app] ==> c[app][id].id == id && c[app][id].appId == app
  {
    assert app in c ==> forall id :: id in c[app] ==> Has(c, app, id);
  }

  lemma ListedUnder(c: Cache, app: string, services: seq<Service>)
    requires CacheRight(c)
    requires
      var inner := if app in c then c[app] else map[];
      && (forall s :: s in services <==> s.id in inner && inner[s.id] == s)
      && (forall i, j :: 0 <= i < j < |services| ==> services[i].id != services[j].id)
    ensures Under(c, app, services)
  {
    KeysRight(c, app);
  }

  /** The stream after the first `n` removes mirrors the cache without those bindings. */
  lemma {:induction false} Emitted(c: Cache, log: seq<Emission>, app: string, services: seq<Service>, n: nat) returns (left: Cache)
    requires CacheRight(c) && Mirrors(c, log) && Under(c, app, services) && n <= |services|
    ensures CacheRight(left) && Mirrors(left, log + Removes(services[..n]))
    ensures forall a, id :: Cached(left, a, id) == if Sent(services[..n], a, id) then None else Cached(c, a, id)
  {
    hide CacheRight, Mirrors, Without;
    if n == 0 {
      left := c;
      assert log + Removes(services[..0]) == log;
    } else {
      var most := Emitted(c, log, app, services, n - 1);
      var s := services[n - 1];
      assert s in services;
      assert !Sent(services[..n - 1], s.appId, s.id);
      assert Cached(most, s.appId, s.id).Some?;
      RemoveKept(most, log + Removes(services[..n - 1]), s);
      left := Without(most, s.appId, s.id);
      forall a, id ensures Cached(left, a, id) == if Sent(services[..n], a, id) then None else Cached(c, a, id) {
        CachedWithout(most, s.appId, s.id, a, id);
        SentMore(services, n - 1, a, id);
      }
      assert services[..n][..n - 1] == services[..n - 1];
      assert log + Removes(services[..n]) == (log + Removes(services[..n - 1])) + [Emission(false, s)];
    }
  }

  lemma RemoveAppKept(c: Cache, log: seq<Emission>, app: string, services: seq<Service>)
    requires CacheRight(c) && Mirrors(c, log) && Under(c, app, services)
    ensures CacheRight(c - {app}) && Mirrors(c - {app}, log + Removes(services))
  {
    hide Standing, Removes;
    assert services[..|services|] == services;
    var left := Emitted(c, log, app, services, |services|);
    forall a, id ensures Cached(left, a, id) == Cached(c - {app}, a, id) {
      if Has(c, app, id) {
        assert c[app][id] in services;
      }
      if Sent(services, a, id) {
        var i :| 0 <= i < |services| && services[i].appId == a && services[i].id == id;
        assert services[i] in services;
      }
    }
    forall a, id | Has(c - {app}, a, id) ensures (c - {app})[a][id].appId == a && (c - {app})[a][id].id == id {
      assert Has(c, a, id);
    }
  }

  // ----- Listing everything -----

  ghost predicate Listed(result: seq<Service>, c: Cache, rest: set<string>) {
    forall s :: s in result <==> s.appId !in rest && Has(c, s.appId, s.id) && c[s.appId][s.id] == s
  }

  lemma NothingYet(c: Cache)
    ensures Pairs(c - c.Keys) == {} && Listed([], c, c.Keys) && EachOnce([])
  {
  }

  lemma ListedMore(result: seq<Service>, services: seq<Service>, c: Cache, rest: set<string>, app: string)
    requires Listed(result, c, rest) && EachOnce(result) && app in rest && Under(c, app, services)
    ensures Listed(result + services, c, rest - {app}) && EachOnce(result + services)
  {
    Joined(result, services, app);
  }

  lemma NotEmpty(m: map<string, Service>)
    ensures m != map[] <==> |m| > 0
  {
    assert |m| == |m.Keys|;
  }

  lemma Joined(a: seq<Service>, b: seq<Service>, app: string)
    requires EachOnce(a) && (forall s :: s in a ==> s.appId != app) && (forall s :: s in b ==> s.appId == app)
    requires forall i, j :: 0 <= i < j < |b| ==> b[i].id != b[j].id
    ensures EachOnce(a + b)
  {
    var c := a + b;
    forall i, j | 0 <= i < j < |c| ensures (c[i].appId, c[i].id) != (c[j].appId, c[j].id) {
      if i < |a| {
        assert c[i] in a;
        assert j >= |a| ==> c[j] in b;
      }
    }
  }

  lemma WithoutIs(c: Cache, app: string, id: string)
    requires app in c
    ensures Without(c, app, id) == if c[app] - {id} == map[] then c - {app} else c[app := c[app] - {id}]
  {
  }
}
