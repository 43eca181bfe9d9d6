/**
  The doppler's v1 router (doppler/internal/grpcmanager/v1/router.go): an index filter -> shard -> setters
  that has to agree with a scan over the live registrations.
 */
module Router {
  import opened Wrappers

  datatype FilterType = NoType | LogType | MetricType

  datatype Filter = Filter(appID: string, envelopeType: FilterType)

  datatype Kind = AnyKind | LogKind | MetricKind

  datatype RequestFilter = RequestFilter(appID: string, kind: Kind)

  datatype Request = Request(shardID: string, filter: Option<RequestFilter>)

  /** A data setter is known by its identity. */
  type Setter = nat

  /** A live registration, as a scan would see it. */
  datatype Registration = Registration(filter: Filter, shard: string, setter: Setter)

  datatype Delivery = Delivery(filter: Filter, shard: string, setter: Setter)

  function ConvertFilter(req: Request): Filter {
    match req.filter
    case None => Filter("", NoType)
    case Some(f) =>
      Filter(f.appID, match f.kind case AnyKind => NoType case LogKind => LogType case MetricKind => MetricType)
  }

  function RegistrationOf(req: Request, setter: Setter): Registration {
    Registration(ConvertFilter(req), req.shardID, setter)
  }

  function EnvelopeType(isLog: bool): FilterType { if isLog then LogType else MetricType }

  function TypedFilters(appID: string, isLog: bool): seq<Filter> {
    [Filter(appID, NoType), Filter(appID, EnvelopeType(isLog)), Filter("", EnvelopeType(isLog)), Filter("", NoType)]
  }

  // ----- The naive view -----

  /** Does a subscription with this filter want an envelope of this app and type? */
  predicate Matches(f: Filter, appID: string, isLog: bool) {
    (f.appID == "" || f.appID == appID) && (f.envelopeType == NoType || f.envelopeType == EnvelopeType(isLog))
  }

  /** The setters registered under a filter and shard, in order. */
  function SettersOf(live: seq<Registration>, f: Filter, shard: string): seq<Setter> {
    if live == [] then []
    else
      (if live[0].filter == f && live[0].shard == shard then [live[0].setter] else []) + SettersOf(live[1..], f, shard)
  }

  function Drop(live: seq<Registration>, reg: Registration): seq<Registration> {
    if live == [] then []
    else (if live[0] == reg then [] else [live[0]]) + Drop(live[1..], reg)
  }

  function Filtered(setters: seq<Setter>, setter: Setter): seq<Setter> {
    if setters == [] then []
    else (if setters[0] == setter then [] else [setters[0]]) + Filtered(setters[1..], setter)
  }

  lemma {:induction false} SettersAppend(a: seq<Registration>, b: seq<Registration>, f: Filter, shard: string)
    ensures SettersOf(a + b, f, shard) == SettersOf(a, f, shard) + SettersOf(b, f, shard)
  {
    if a == [] {
      assert a + b == b;
    } else {
      assert (a + b)[1..] == a[1..] + b;
      SettersAppend(a[1..], b, f, shard);
    }
  }

  lemma {:induction false} SettersAfterDrop(live: seq<Registration>, reg: Registration, f: Filter, shard: string)
    ensures SettersOf(Drop(live, reg), f, shard) ==
      if f == reg.filter && shard == reg.shard then Filtered(SettersOf(live, f, shard), reg.setter) else SettersOf(live, f, shard)
  {
    if live != [] {
      var rest := SettersOf(live[1..], f, shard);
      SettersAfterDrop(live[1..], reg, f, shard);
      if live[0] == reg {
        assert Drop(live, reg) == Drop(live[1..], reg);
      } else {
        assert Drop(live, reg)[1..] == Drop(live[1..], reg);
      }
      if live[0].filter == f && live[0].shard == shard {
        assert SettersOf(live, f, shard) == [live[0].setter] + rest;
        assert ([live[0].setter] + rest)[1..] == rest;
      } else {
        assert SettersOf(live, f, shard) == rest;
      }
    }
  }

  /** With fresh setters a cleanup ends exactly its own registration. */
  lemma {:induction false} DropFresh(live: seq<Registration>, i: nat)
    requires i < |live| && forall j :: 0 <= j < |live| && j != i ==> live[j].setter != live[i].setter
    ensures Drop(live, live[i]) == live[..i] + live[i + 1..]
  {
    if i == 0 {
      DropNone(live[1..], live[0]);
    } else {
      DropFresh(live[1..], i - 1);
      assert live[1..][..i - 1] == live[1..i] && live[1..][i..] == live[i + 1..];
      assert live[..i] == [live[0]] + live[1..i];
    }
  }

  lemma {:induction false} DropNone(live: seq<Registration>, reg: Registration)
    requires forall j :: 0 <= j < |live| ==> live[j] != reg
    ensures Drop(live, reg) == live
  {
    if live != [] {
      DropNone(live[1..], reg);
    }
  }

  function Copies(filters: seq<Filter>, f: Filter): nat {
    if filters == [] then 0 else (if filters[0] == f then 1 else 0) + Copies(filters[1..], f)
  }

  lemma {:induction false} CopiesAppend(filters: seq<Filter>, g: Filter, f: Filter)
    ensures Copies(filters + [g], f) == Copies(filters, f) + (if g == f then 1 else 0)
  {
    if filters == [] {
      assert filters + [g] == [g];
    } else {
      assert (filters + [g])[1..] == filters[1..] + [g];
      CopiesAppend(filters[1..], g, f);
    }
  }

  /** The four lookups hit each matching filter, and no other: once for a nonempty app id, twice for the empty one. */
  lemma LookupsAreScan(appID: string, isLog: bool, f: Filter)
    ensures Copies(TypedFilters(appID, isLog), f) ==
      if !Matches(f, appID, isLog) then 0 else if appID == "" then 2 else 1
  {
    var t := TypedFilters(appID, isLog);
    assert t[1..][1..] == t[2..] && t[2..][1..] == t[3..] && t[3..][1..] == [];
    assert Copies(t, f) == (if t[0] == f then 1 else 0) + Copies(t[1..], f);
    assert Copies(t[1..], f) == (if t[1] == f then 1 else 0) + Copies(t[2..], f);
    assert Copies(t[2..], f) == (if t[2] == f then 1 else 0) + Copies(t[3..], f);
    assert Copies(t[3..], f) == (if t[3] == f then 1 else 0);
  }

  // ----- Deliveries -----

  /** What was delivered on behalf of one filter and shard. */
  function At(out: seq<Delivery>, f: Filter, shard: string): seq<Setter> {
    if out == [] then []
    else (if out[0].filter == f && out[0].shard == shard then [out[0].setter] else []) + At(out[1..], f, shard)
  }

  lemma {:induction false} AtAppend(a: seq<Delivery>, b: seq<Delivery>, f: Filter, shard: string)
    ensures At(a + b, f, shard) == At(a, f, shard) + At(b, f, shard)
  {
    if a == [] {
      assert a + b == b;
    } else {
      assert (a + b)[1..] == a[1..] + b;
      AtAppend(a[1..], b, f, shard);
    }
  }

  function Repeat(setters: seq<Setter>, copies: nat): seq<Setter> {
    if copies == 0 then [] else Repeat(setters, copies - 1) + setters
  }

  /** The empty shard serves every setter; another shard serves one of its members; `copies` times over. */
  ghost predicate Served(out: seq<Setter>, setters: seq<Setter>, shard: string, copies: nat) {
    if shard == "" then out == Repeat(setters, copies)
    else |out| == (if setters == [] then 0 else copies) && forall x :: x in out ==> x in setters
  }

  lemma {:induction false} RepeatMore(setters: seq<Setter>, a: nat, b: nat)
    ensures Repeat(setters, a) + Repeat(setters, b) == Repeat(setters, a + b)
  {
    if b > 0 {
      RepeatMore(setters, a, b - 1);
      assert Repeat(setters, a) + Repeat(setters, b) == (Repeat(setters, a) + Repeat(setters, b - 1)) + setters;
    }
  }

  lemma ServedMore(a: seq<Setter>, b: seq<Setter>, setters: seq<Setter>, shard: string, n: nat, m: nat)
    requires Served(a, setters, shard, n) && Served(b, setters, shard, m)
    ensures Served(a + b, setters, shard, n + m)
  {
    RepeatMore(setters, n, m);
  }

  type Index = map<Filter, map<string, seq<Setter>>>

  function Lookup(index: Index, f: Filter, shard: string): seq<Setter> {
    if f in index && shard in index[f] then index[f][shard] else []
  }

  /** No empty map and no empty list of setters: `rand.Intn` is never asked to choose from nothing. */
  ghost predicate Tidy(index: Index) {
    && (forall f :: f in index ==> index[f] != map[])
    && (forall f, shard :: f in index && shard in index[f] ==> index[f][shard] != [])
  }

  /** The index is the grouping of the live registrations. */
  ghost predicate Agrees(index: Index, live: seq<Registration>) {
    forall f, shard :: Lookup(index, f, shard) == SettersOf(live, f, shard)
  }

  lemma RegisterAgrees(index: Index, live: seq<Registration>, reg: Registration, after: Index)
    requires Agrees(index, live)
    requires forall f, shard ::
      Lookup(after, f, shard) ==
      Lookup(index, f, shard) + (if f == reg.filter && shard == reg.shard then [reg.setter] else [])
    ensures Agrees(after, live + [reg])
  {
    hide Lookup;
    forall f, shard ensures Lookup(after, f, shard) == SettersOf(live + [reg], f, shard) {
      SettersAppend(live, [reg], f, shard);
      SettersOfOne(reg, f, shard);
    }
  }

  /** `registerSetter` adds the setter at the end of its own list, which it makes if need be. */
  lemma LookupAdded(index: Index, reg: Registration, after: Index)
    requires Tidy(index)
    requires
      var m := if reg.filter in index then index[reg.filter] else map[];
      var setters := if reg.shard in m then m[reg.shard] else [];
      after == index[reg.filter := m[reg.shard := setters + [reg.setter]]]
    ensures Tidy(after)
    ensures forall f, shard ::
      Lookup(after, f, shard) ==
      Lookup(index, f, shard) + (if f == reg.filter && shard == reg.shard then [reg.setter] else [])
  {
  }

  lemma SettersOfOne(reg: Registration, f: Filter, shard: string)
    ensures SettersOf([reg], f, shard) == if reg.filter == f && reg.shard == shard then [reg.setter] else []
  {
    assert SettersOf([reg][1..], f, shard) == [];
  }

  /** `after` differs from `index` only in what is listed under one filter and shard. */
  ghost predicate Replaced(index: Index, after: Index, f: Filter, shard: string, setters: seq<Setter>) {
    forall g, sh :: Lookup(after, g, sh) == if g == f && sh == shard then setters else Lookup(index, g, sh)
  }

  lemma Put(index: Index, f: Filter, shard: string, setters: seq<Setter>)
    requires Tidy(index) && f in index && setters != []
    ensures Tidy(index[f := index[f][shard := setters]])
    ensures Replaced(index, index[f := index[f][shard := setters]], f, shard, setters)
  {
  }

  lemma TakeOut(index: Index, f: Filter, shard: string)
    requires Tidy(index) && f in index
    ensures |index[f] - {shard}| == 0 ==>
      Tidy(index[f := index[f] - {shard}] - {f}) && Replaced(index, index[f := index[f] - {shard}] - {f}, f, shard, [])
    ensures |index[f] - {shard}| != 0 ==>
      Tidy(index[f := index[f] - {shard}]) && Replaced(index, index[f := index[f] - {shard}], f, shard, [])
  {
    var m := index[f] - {shard};
    if |m| == 0 {
      assert m == map[];
      forall sh | sh in index[f] ensures sh == shard {
        assert sh != shard ==> sh in m;
      }
    }
  }

  lemma Untouched(index: Index, f: Filter, shard: string)
    requires Lookup(index, f, shard) == []
    ensures Replaced(index, index, f, shard, [])
  {
  }

  lemma CleanupAgrees(index: Index, live: seq<Registration>, reg: Registration, after: Index)
    requires Agrees(index, live)
    requires Replaced(index, after, reg.filter, reg.shard, Filtered(Lookup(index, reg.filter, reg.shard), reg.setter))
    ensures Agrees(after, Drop(live, reg))
  {
    hide Lookup, Filtered, SettersOf, Drop;
    forall f, shard ensures Lookup(after, f, shard) == SettersOf(Drop(live, reg), f, shard) {
      SettersAfterDrop(live, reg, f, shard);
    }
  }

  /** What a set of deliveries owes each filter and shard: `copies` rounds of service. */
  ghost predicate Owed(out: seq<Delivery>, index: Index, filters: seq<Filter>) {
    forall g, shard :: Served(At(out, g, shard), Lookup(index, g, shard), shard, Copies(filters, g))
  }

  lemma OwedMore(out: seq<Delivery>, more: seq<Delivery>, index: Index, filters: seq<Filter>, f: Filter)
    requires Owed(out, index, filters) && Owed(more, index, [f])
    ensures Owed(out + more, index, filters + [f])
  {
    hide Served, At, Lookup, Copies;
    forall g, shard
      ensures Served(At(out + more, g, shard), Lookup(index, g, shard), shard, Copies(filters + [f], g))
    {
      AtAppend(out, more, g, shard);
      CopiesAppend(filters, f, g);
      CopiesAppend([], f, g);
      assert [] + [f] == [f];
      assert Copies([], g) == 0 by { CopiesNone(g); }
      ServedMore(At(out, g, shard), At(more, g, shard), Lookup(index, g, shard), shard, Copies(filters, g), Copies([f], g));
    }
  }

  lemma CopiesNone(g: Filter)
    ensures Copies([], g) == 0
  {
  }

  // ----- In terms of the requests -----

  /** A request as it was registered. */
  datatype Subscription = Subscription(req: Request, setter: Setter)

  /** Does a subscriber who sent this request want an envelope of this app, log or metric? */
  predicate Wants(req: Request, appID: string, isLog: bool) {
    req.filter.None?
    || ((req.filter.value.appID == "" || req.filter.value.appID == appID)
        && match req.filter.value.kind case AnyKind => true case LogKind => isLog case MetricKind => !isLog)
  }

  /** Two requests that want the same envelopes. */
  ghost predicate Alike(a: Request, b: Request) {
    forall appID, isLog :: Wants(a, appID, isLog) <==> Wants(b, appID, isLog)
  }

  /** A filter that stands for a request: it matches exactly what the request wants. */
  ghost predicate Stands(f: Filter, req: Request) {
    forall appID, isLog :: Matches(f, appID, isLog) <==> Wants(req, appID, isLog)
  }

  /** The registration made for a request matches exactly the envelopes that the request asks for. */
  lemma RegistrationMeans(req: Request, setter: Setter, appID: string, isLog: bool)
    ensures Matches(RegistrationOf(req, setter).filter, appID, isLog) <==> Wants(req, appID, isLog)
    ensures RegistrationOf(req, setter).shard == req.shardID && RegistrationOf(req, setter).setter == setter
  {
  }

  /** Different filters match differently. */
  lemma FiltersDiffer(f: Filter, g: Filter) returns (appID: string, isLog: bool)
    requires f != g
    ensures Matches(f, appID, isLog) != Matches(g, appID, isLog)
  {
    if f.appID == g.appID {
      appID := f.appID;
      isLog := {f.envelopeType, g.envelopeType} != {NoType, LogType};
    } else if f.appID == "" {
      appID := g.appID + "x";
      isLog := f.envelopeType == LogType;
      assert |appID| > |g.appID|;
    } else if g.appID == "" {
      appID := f.appID + "x";
      isLog := g.envelopeType == LogType;
      assert |appID| > |f.appID|;
    } else {
      appID := f.appID;
      isLog := f.envelopeType == LogType;
    }
  }

  lemma StandsExact(f: Filter, req: Request)
    ensures Stands(f, req) <==> f == ConvertFilter(req)
  {
    forall appID, isLog ensures Matches(ConvertFilter(req), appID, isLog) <==> Wants(req, appID, isLog) {
      RegistrationMeans(req, 0, appID, isLog);
    }
    if f != ConvertFilter(req) {
      var appID, isLog := FiltersDiffer(f, ConvertFilter(req));
    }
  }

  lemma AlikeExact(a: Request, b: Request)
    ensures Alike(a, b) <==> ConvertFilter(a) == ConvertFilter(b)
  {
    hide Matches, Wants, ConvertFilter;
    StandsExact(ConvertFilter(a), a);
    StandsExact(ConvertFilter(a), b);
    StandsExact(ConvertFilter(b), b);
    if Alike(a, b) {
      assert Stands(ConvertFilter(a), b);
    }
  }

  function RegistrationsOf(subs: seq<Subscription>): seq<Registration> {
    if subs == [] then [] else [RegistrationOf(subs[0].req, subs[0].setter)] + RegistrationsOf(subs[1..])
  }

  /** The subscriptions left after one is cleaned up: all but those of its setter and shard that want the same. */
  ghost function Remaining(subs: seq<Subscription>, sub: Subscription): seq<Subscription> {
    if subs == [] then []
    else
      (if subs[0].setter == sub.setter && subs[0].req.shardID == sub.req.shardID && Alike(subs[0].req, sub.req) then []
       else [subs[0]])
      + Remaining(subs[1..], sub)
  }

  lemma {:induction false} RegistrationsAppend(subs: seq<Subscription>, sub: Subscription)
    ensures RegistrationsOf(subs + [sub]) == RegistrationsOf(subs) + [RegistrationOf(sub.req, sub.setter)]
  {
    if subs == [] {
      assert subs + [sub] == [sub] && RegistrationsOf([sub][1..]) == [];
    } else {
      assert (subs + [sub])[1..] == subs[1..] + [sub];
      RegistrationsAppend(subs[1..], sub);
    }
  }

  lemma {:induction false} RemainingIsDrop(subs: seq<Subscription>, sub: Subscription)
    ensures RegistrationsOf(Remaining(subs, sub)) == Drop(RegistrationsOf(subs), RegistrationOf(sub.req, sub.setter))
  {
    hide Alike, ConvertFilter;
    if subs != [] {
      RemainingIsDrop(subs[1..], sub);
      AlikeExact(subs[0].req, sub.req);
      var rest, live, reg := Remaining(subs[1..], sub), RegistrationsOf(subs), RegistrationOf(sub.req, sub.setter);
      assert live[1..] == RegistrationsOf(subs[1..]);
      if live[0] == reg {
        assert Remaining(subs, sub) == rest && Drop(live, reg) == Drop(live[1..], reg);
      } else {
        assert Remaining(subs, sub) == [subs[0]] + rest && ([subs[0]] + rest)[1..] == rest;
      }
    }
  }

  /** The setters of all subscriptions that want what this request wants, on its shard. */
  ghost function MembersLike(subs: seq<Subscription>, req: Request): seq<Setter> {
    if subs == [] then []
    else
      (if Alike(subs[0].req, req) && subs[0].req.shardID == req.shardID then [subs[0].setter] else [])
      + MembersLike(subs[1..], req)
  }

  /** The deliveries made on behalf of such subscriptions. */
  ghost function OnBehalf(out: seq<Delivery>, req: Request): seq<Setter> {
    if out == [] then []
    else
      (if Stands(out[0].filter, req) && out[0].shard == req.shardID then [out[0].setter] else [])
      + OnBehalf(out[1..], req)
  }

  lemma {:induction false} MembersAre(subs: seq<Subscription>, req: Request)
    ensures MembersLike(subs, req) == SettersOf(RegistrationsOf(subs), ConvertFilter(req), req.shardID)
  {
    hide Alike, ConvertFilter;
    if subs != [] {
      MembersAre(subs[1..], req);
      AlikeExact(subs[0].req, req);
      assert RegistrationsOf(subs)[1..] == RegistrationsOf(subs[1..]);
    }
  }

  lemma {:induction false} OnBehalfIs(out: seq<Delivery>, req: Request)
    ensures OnBehalf(out, req) == At(out, ConvertFilter(req), req.shardID)
  {
    hide Stands, ConvertFilter;
    if out != [] {
      OnBehalfIs(out[1..], req);
      StandsExact(out[0].filter, req);
    }
  }

  function Rounds(appID: string): nat { if appID == "" then 2 else 1 }

  // ----- What one setter gets through the empty shard -----

  function CountIn(setters: seq<Setter>, x: Setter): nat {
    if setters == [] then 0 else (if setters[0] == x then 1 else 0) + CountIn(setters[1..], x)
  }

  /** How often a setter is served as one without a shard. */
  function CopiesTo(out: seq<Delivery>, x: Setter): nat {
    if out == [] then 0 else (if out[0].shard == "" && out[0].setter == x then 1 else 0) + CopiesTo(out[1..], x)
  }

  /** How many of a setter's shard-less subscriptions want the envelope. */
  function Wanting(subs: seq<Subscription>, appID: string, isLog: bool, x: Setter): nat {
    if subs == [] then 0
    else
      (if subs[0].req.shardID == "" && subs[0].setter == x && Wants(subs[0].req, appID, isLog) then 1 else 0)
      + Wanting(subs[1..], appID, isLog, x)
  }

  lemma {:induction false} CopiesToAppend(a: seq<Delivery>, b: seq<Delivery>, x: Setter)
    ensures CopiesTo(a + b, x) == CopiesTo(a, x) + CopiesTo(b, x)
  {
    if a == [] {
      assert a + b == b;
    } else {
      assert (a + b)[1..] == a[1..] + b;
      CopiesToAppend(a[1..], b, x);
    }
  }

  lemma {:induction false} CopiesOfOne(out: seq<Delivery>, f: Filter, x: Setter)
    requires forall g :: g != f ==> At(out, g, "") == []
    ensures CopiesTo(out, x) == CountIn(At(out, f, ""), x)
  {
    if out != [] {
      assert out[0].shard == "" && out[0].filter != f ==> At(out, out[0].filter, "") == [];
      forall g | g != f ensures At(out[1..], g, "") == [] {
        assert At(out, g, "") == [];
      }
      CopiesOfOne(out[1..], f, x);
      var head := if out[0].filter == f && out[0].shard == "" then [out[0].setter] else [];
      assert At(out, f, "") == head + At(out[1..], f, "");
      CountHead(head, At(out[1..], f, ""), x);
    }
  }

  lemma CountHead(head: seq<Setter>, rest: seq<Setter>, x: Setter)
    requires |head| <= 1
    ensures CountIn(head + rest, x) == (if head == [x] then 1 else 0) + CountIn(rest, x)
  {
    if head == [] {
      assert head + rest == rest;
    } else {
      assert (head + rest)[1..] == rest;
    }
  }

  /** What the lookups of some filters owe a setter without a shard. */
  function SumFor(filters: seq<Filter>, live: seq<Registration>, x: Setter): nat {
    if filters == [] then 0
    else SumFor(filters[..|filters| - 1], live, x) + CountIn(SettersOf(live, filters[|filters| - 1], ""), x)
  }

  lemma SumForMore(filters: seq<Filter>, f: Filter, live: seq<Registration>, x: Setter)
    ensures SumFor(filters + [f], live, x) == SumFor(filters, live, x) + CountIn(SettersOf(live, f, ""), x)
  {
    assert (filters + [f])[..|filters|] == filters;
  }

  lemma {:induction false} SumForHead(filters: seq<Filter>, live: seq<Registration>, x: Setter)
    requires live != []
    ensures SumFor(filters, live, x) ==
      SumFor(filters, live[1..], x) + (if live[0].shard == "" && live[0].setter == x then Copies(filters, live[0].filter) else 0)
  {
    if filters != [] {
      var n := |filters| - 1;
      SumForHead(filters[..n], live, x);
      CopiesAppend(filters[..n], filters[n], live[0].filter);
      assert filters == filters[..n] + [filters[n]];
      var head := if live[0].filter == filters[n] && live[0].shard == "" then [live[0].setter] else [];
      assert SettersOf(live, filters[n], "") == head + SettersOf(live[1..], filters[n], "");
      CountHead(head, SettersOf(live[1..], filters[n], ""), x);
    }
  }

  lemma {:induction false} SumForNone(filters: seq<Filter>, x: Setter)
    ensures SumFor(filters, [], x) == 0
  {
    if filters != [] {
      SumForNone(filters[..|filters| - 1], x);
    }
  }

  /** The four lookups together owe a setter one copy for each of its subscriptions that wants the envelope. */
  lemma {:induction false} LookupsPayWants(subs: seq<Subscription>, appID: string, isLog: bool, x: Setter)
    ensures SumFor(TypedFilters(appID, isLog), RegistrationsOf(subs), x) == Rounds(appID) * Wanting(subs, appID, isLog, x)
  {
    hide TypedFilters, Matches, Wants, ConvertFilter, SumFor, Copies;
    var filters, live := TypedFilters(appID, isLog), RegistrationsOf(subs);
    if subs == [] {
      SumForNone(filters, x);
    } else {
      LookupsPayWants(subs[1..], appID, isLog, x);
      assert live[1..] == RegistrationsOf(subs[1..]);
      SumForHead(filters, live, x);
      LookupsAreScan(appID, isLog, live[0].filter);
      RegistrationMeans(subs[0].req, subs[0].setter, appID, isLog);
    }
  }

  class Router {
    var subscriptions: Index
    ghost var live: seq<Registration>
    /** The requests behind the live registrations. */
    ghost var requests: seq<Subscription>

    ghost predicate Valid()
      reads this
    {
      Tidy(subscriptions) && Agrees(subscriptions, live) && live == RegistrationsOf(requests)
    }

    constructor ()
      ensures Valid() && live == [] && requests == []
    {
      subscriptions := map[];
      live := [];
      requests := [];
    }

    method Register(req: Request, setter: Setter)
      requires Valid()
      modifies this
      ensures Valid() && live == old(live) + [RegistrationOf(req, setter)]
      ensures requests == old(requests) + [Subscription(req, setter)]
    {
      hide Agrees, RegistrationsOf, ConvertFilter, Lookup, Tidy;
      RegistrationsAppend(requests, Subscription(req, setter));
      var f := ConvertFilter(req);
      var m := if f in subscriptions then subscriptions[f] else map[];
      var setters := if req.shardID in m then m[req.shardID] else [];
      ghost var reg := RegistrationOf(req, setter);
      var after := subscriptions[f := m[req.shardID := setters + [setter]]];
      LookupAdded(subscriptions, reg, after);
      RegisterAgrees(subscriptions, live, reg, after);
      subscriptions := after;
      live := live + [reg];
      requests := requests + [Subscription(req, setter)];
    }

    /** The closure that `buildCleanup` returns. */
    method Cleanup(req: Request, setter: Setter)
      requires Valid()
      modifies this
      ensures Valid() && live == Drop(old(live), RegistrationOf(req, setter))
      ensures requests == Remaining(old(requests), Subscription(req, setter))
    {
      hide Agrees, Drop, Tidy, Filtered, Replaced, RegistrationsOf, Remaining;
      RemainingIsDrop(requests, Subscription(req, setter));
      ghost var reg := RegistrationOf(req, setter);
      var after := Strike(subscriptions, ConvertFilter(req), req.shardID, setter);
      CleanupAgrees(subscriptions, live, reg, after);
      subscriptions := after;
      live := Drop(live, reg);
      requests := Remaining(requests, Subscription(req, setter));
    }

    /** One lookup of `SendTo`: every shard under the filter, in whatever order the map yields. */
    method SendToFilter(f: Filter) returns (out: seq<Delivery>)
      requires Valid()
      ensures Owed(out, subscriptions, [f])
    {
      hide At, Agrees, Served;
      out := [];
      var rest := if f in subscriptions then subscriptions[f].Keys else {};
      forall g, shard { AtNone(g, shard); }
      forall shard | shard !in rest { ServedNone(shard, 1); }
      while rest != {}
        invariant rest <= (if f in subscriptions then subscriptions[f].Keys else {})
        invariant forall shard :: shard !in rest ==> Served(At(out, f, shard), Lookup(subscriptions, f, shard), shard, 1)
        invariant forall shard :: shard in rest ==> At(out, f, shard) == []
        invariant forall g, shard :: g != f ==> At(out, g, shard) == []
        decreases rest
      {
        var id :| id in rest;
        var more := WriteToShard(f, id, subscriptions[f][id]);
        forall g, shard
          ensures At(out + more, g, shard) == if g == f && shard == id then At(more, f, id) else At(out, g, shard)
        {
          AtAppend(out, more, g, shard);
        }
        out := out + more;
        rest := rest - {id};
      }
      forall g, shard ensures Served(At(out, g, shard), Lookup(subscriptions, g, shard), shard, Copies([f], g)) {
        assert Copies([f], g) == if g == f then 1 else 0;
        ServedZero(Lookup(subscriptions, g, shard), shard);
      }
    }

    /**
      `SendTo`, in terms of the requests registered. A setter is served, as one without a shard, once for each of its
      requests that wants the envelope. For the requests of one kind on a shard, one copy goes to one of their setters
      if they want it, and none if they do not. All of it twice for the empty app id.
     */
    method SendTo(appID: string, isLog: bool, marshalled: bool) returns (out: seq<Delivery>)
      requires Valid()
      ensures !marshalled ==> out == []
      ensures marshalled ==> forall x :: CopiesTo(out, x) == Rounds(appID) * Wanting(requests, appID, isLog, x)
      ensures marshalled ==> forall q: Request ::
        Served(OnBehalf(out, q), MembersLike(requests, q), q.shardID, if Wants(q, appID, isLog) then Rounds(appID) else 0)
      ensures marshalled ==> forall g, shard ::
        Served(At(out, g, shard), SettersOf(live, g, shard), shard, if Matches(g, appID, isLog) then Rounds(appID) else 0)
    {
      hide At, Served, Copies, Owed, Lookup, Matches, SettersOf, TypedFilters, Agrees, RegistrationsOf, SumFor, CopiesTo;
      out := [];
      if !marshalled {
        return;
      }
      var typed := TypedFilters(appID, isLog);
      NothingOwed(subscriptions);
      forall x { NothingYet(live, x); }
      var i := 0;
      while i < |typed|
        invariant 0 <= i <= |typed|
        invariant Owed(out, subscriptions, typed[..i])
        invariant forall x :: CopiesTo(out, x) == SumFor(typed[..i], live, x)
      {
        var more := SendToFilter(typed[i]);
        OwedMore(out, more, subscriptions, typed[..i], typed[i]);
        assert typed[..i + 1] == typed[..i] + [typed[i]];
        forall x ensures CopiesTo(out + more, x) == SumFor(typed[..i + 1], live, x) {
          CopiesToAppend(out, more, x);
          PaidOne(more, subscriptions, live, typed[i], x);
          SumForMore(typed[..i], typed[i], live, x);
        }
        out := out + more;
        i := i + 1;
      }
      assert typed[..i] == typed;
      forall x { LookupsPayWants(requests, appID, isLog, x); }
      PaidByScan(out, subscriptions, live, appID, isLog);
      PaidToRequests(out, live, requests, appID, isLog);
    }
  }

  lemma NothingYet(live: seq<Registration>, x: Setter)
    ensures CopiesTo([], x) == 0 && SumFor([], live, x) == 0
  {
  }

  lemma PaidOne(out: seq<Delivery>, index: Index, live: seq<Registration>, f: Filter, x: Setter)
    requires Owed(out, index, [f]) && Agrees(index, live)
    ensures CopiesTo(out, x) == CountIn(SettersOf(live, f, ""), x)
  {
    hide At, Lookup, SettersOf, CopiesTo, CountIn;
    forall g ensures At(out, g, "") == if g == f then SettersOf(live, f, "") else [] {
      assert Served(At(out, g, ""), Lookup(index, g, ""), "", Copies([f], g));
      assert Copies([f], g) == if g == f then 1 else 0;
      var setters := Lookup(index, g, "");
      assert Repeat(setters, 1) == [] + setters == setters;
    }
    CopiesOfOne(out, f, x);
  }

  lemma PaidToRequests(out: seq<Delivery>, live: seq<Registration>, requests: seq<Subscription>, appID: string, isLog: bool)
    requires live == RegistrationsOf(requests)
    requires forall g, shard ::
      Served(At(out, g, shard), SettersOf(live, g, shard), shard, if Matches(g, appID, isLog) then Rounds(appID) else 0)
    ensures forall q: Request ::
      Served(OnBehalf(out, q), MembersLike(requests, q), q.shardID, if Wants(q, appID, isLog) then Rounds(appID) else 0)
  {
    hide At, Served, Matches, SettersOf, Wants, ConvertFilter, OnBehalf, MembersLike, RegistrationsOf;
    forall q: Request
      ensures Served(OnBehalf(out, q), MembersLike(requests, q), q.shardID, if Wants(q, appID, isLog) then Rounds(appID) else 0)
    {
      OnBehalfIs(out, q);
      MembersAre(requests, q);
      RegistrationMeans(q, 0, appID, isLog);
    }
  }

  lemma AtNone(f: Filter, shard: string)
    ensures At([], f, shard) == []
  {
  }

  lemma ServedNone(shard: string, copies: nat)
    ensures Served([], [], shard, copies)
  {
    if copies > 0 {
      ServedNone(shard, copies - 1);
    }
  }

  lemma ServedZero(setters: seq<Setter>, shard: string)
    ensures Served([], setters, shard, 0)
  {
  }

  lemma NothingOwed(index: Index)
    ensures Owed([], index, [])
  {
    hide Lookup, Served;
    forall g, shard ensures Served(At([], g, shard), Lookup(index, g, shard), shard, Copies([], g)) {
      ServedZero(Lookup(index, g, shard), shard);
    }
  }

  lemma PaidByScan(out: seq<Delivery>, index: Index, live: seq<Registration>, appID: string, isLog: bool)
    requires Owed(out, index, TypedFilters(appID, isLog)) && Agrees(index, live)
    ensures forall g, shard ::
      Served(At(out, g, shard), SettersOf(live, g, shard), shard, if Matches(g, appID, isLog) then Rounds(appID) else 0)
  {
    hide At, Served, Copies, Lookup, Matches, SettersOf, TypedFilters;
    forall g, shard
      ensures Served(At(out, g, shard), SettersOf(live, g, shard), shard, if Matches(g, appID, isLog) then Rounds(appID) else 0)
    {
      LookupsAreScan(appID, isLog, g);
      assert Lookup(index, g, shard) == SettersOf(live, g, shard);
    }
  }

  /** The cleanup closure's work on the index. */
  method Strike(index: Index, f: Filter, shard: string, setter: Setter) returns (after: Index)
    requires Tidy(index)
    ensures Tidy(after) && Replaced(index, after, f, shard, Filtered(Lookup(index, f, shard), setter))
  {
    hide Tidy, Filtered, Replaced;
    var setters := Others(Lookup(index, f, shard), setter);
    if |setters| > 0 {
      Put(index, f, shard, setters);
      return index[f := index[f][shard := setters]];
    }
    if f !in index {
      Untouched(index, f, shard);
      return index;
    }
    TakeOut(index, f, shard);
    after := index[f := index[f] - {shard}];
    if |after[f]| == 0 {
      after := after - {f};
    }
  }

  /** The copying loop of the cleanup closure. */
  method Others(all: seq<Setter>, setter: Setter) returns (setters: seq<Setter>)
    ensures setters == Filtered(all, setter) && |setters| <= |all|
  {
    setters := [];
    var i := 0;
    while i < |all|
      invariant |setters| <= i <= |all| && Filtered(all, setter) == setters + Filtered(all[i..], setter)
    {
      if all[i] != setter {
        setters := setters + [all[i]];
      }
      assert all[i..][1..] == all[i + 1..];
      i := i + 1;
    }
  }

  /** `writeToShard`; the random pick is some member, defined because the list is not empty. */
  method WriteToShard(f: Filter, id: string, setters: seq<Setter>) returns (out: seq<Delivery>)
    requires setters != []
    ensures Served(At(out, f, id), setters, id, 1)
    ensures forall g, shard :: g != f || shard != id ==> At(out, g, shard) == []
  {
    if id == "" {
      out := [];
      var i := 0;
      while i < |setters|
        invariant 0 <= i <= |setters| && At(out, f, id) == setters[..i]
        invariant forall g, shard :: g != f || shard != id ==> At(out, g, shard) == []
      {
        forall g, shard ensures At(out + [Delivery(f, id, setters[i])], g, shard) ==
          At(out, g, shard) + (if g == f && shard == id then [setters[i]] else [])
        {
          AtAppend(out, [Delivery(f, id, setters[i])], g, shard);
        }
        out := out + [Delivery(f, id, setters[i])];
        i := i + 1;
      }
      assert Repeat(setters, 1) == [] + setters;
      return;
    }
    var pick :| 0 <= pick < |setters|;
    out := [Delivery(f, id, setters[pick])];
  }
}
