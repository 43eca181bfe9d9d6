/** The methods of the grouped sinks and of the sink manager, each proved to be a step of the sink registry. */
module SinkRegistryCode {
  import opened SinkRegistry
  import opened Wrappers

  function Chosen(wrappers: map<string, Wrapper>, errors: bool): set<nat> {
    set id | id in wrappers && (!errors || wrappers[id].sink.receivesErrors) :: wrappers[id].channel
  }

  /** The channels are open and no two wrappers share one. */
  ghost predicate Sound(wrappers: map<string, Wrapper>, channels: seq<Channel>) {
    && (forall id :: id in wrappers ==> wrappers[id].channel < |channels| && !channels[wrappers[id].channel].closed)
    && (forall a, b :: a in wrappers && b in wrappers && a != b ==> wrappers[a].channel != wrappers[b].channel)
  }

  lemma GroupSound(s: State, app: bool, group: string)
    requires Structure(s)
    ensures Sound(Members(if app then s.apps else s.fires, group), s.channels)
  {
    var wrappers := Members(if app then s.apps else s.fires, group);
    forall id | id in wrappers
      ensures wrappers[id].channel < |s.channels| && !s.channels[wrappers[id].channel].closed
    {
      assert PlaceRight(s, Place(app, group, id));
    }
    forall a, b | a in wrappers && b in wrappers && a != b ensures wrappers[a].channel != wrappers[b].channel {
      OneOwner(s, Place(app, group, a), Place(app, group, b));
    }
  }

  /** One more target. */
  lemma OneMore(channels: seq<Channel>, done: set<nat>, c: nat, msg: nat)
    requires c < |channels| && c !in done
    ensures OfferTo(channels, done, msg)[c := Offer(channels[c], msg)] == OfferTo(channels, done + {c}, msg)
    ensures |FullAmong(channels, done + {c})| == |FullAmong(channels, done)| + (if Full(channels[c]) then 1 else 0)
  {
    hide Offer;
    var a, b := FullAmong(channels, done), FullAmong(channels, done + {c});
    if Full(channels[c]) {
      assert b == a + {c};
    } else {
      assert b == a;
    }
  }

  lemma OneLess(channels: seq<Channel>, done: set<nat>, c: nat)
    requires c < |channels|
    ensures CloseAll(channels, done)[c := CloseAll(channels, done)[c].(closed := true)] == CloseAll(channels, done + {c})
  {
  }

  /** The pick of `randomWrapper`: a counting walk that stops at the drawn number and never falls through. */
  method RandomWrapper(wrappers: map<string, Wrapper>, r: nat) returns (id: Option<string>)
    requires wrappers != map[] ==> r < |wrappers|
    ensures wrappers == map[] ==> id.None?
    ensures wrappers != map[] ==> id.Some? && id.value in wrappers
  {
    if |wrappers| == 0 {
      return None;
    }
    var i := 0;
    var rest := wrappers.Keys;
    var k :| k in rest;
    while i < r
      invariant rest <= wrappers.Keys && k in rest && i <= r && i + |rest| == |wrappers.Keys| == |wrappers|
      decreases rest
    {
      rest := rest - {k};
      i := i + 1;
      assert |rest| > 0;
      k :| k in rest;
    }
    return Some(k);
  }

  class GroupedSinks {
    var apps: Registry
    var firehoses: Registry
    var channels: seq<Channel>
    var dropped: nat
    var errorsDropped: nat
    ghost var offers: nat
    ghost var received: nat

    /** A panic would be a failed precondition below, so the count of faults is 0. */
    ghost function Abs(): State
      reads this
    {
      State(apps, firehoses, channels, dropped, errorsDropped, offers, received, 0)
    }

    ghost predicate Valid()
      reads this
    {
      Inv(Abs())
    }

    constructor ()
      ensures Valid() && Abs() == Initial()
    {
      hide Inv;
      apps, firehoses, channels := map[], map[], [];
      dropped, errorsDropped, offers, received := 0, 0, 0, 0;
      new;
      InitialInv();
    }

    /** `close`, which must not find the channel closed. */
    method Close(c: nat)
      requires c < |channels| && !channels[c].closed
      modifies this`channels
      ensures channels == old(channels)[c := old(channels[c]).(closed := true)]
    {
      channels := channels[c := channels[c].(closed := true)];
    }

    /** A send that does not block, on a channel that must be open. */
    method Send(c: nat, msg: nat) returns (sent: bool)
      requires c < |channels| && !channels[c].closed
      modifies this`channels
      ensures channels == old(channels)[c := Offer(old(channels[c]), msg)] && sent == !Full(old(channels[c]))
    {
      sent := |channels[c].queue| < CHANNEL_SIZE;
      if sent {
        channels := channels[c := channels[c].(queue := channels[c].queue + [msg])];
      }
    }

    /** A sink's `Run` takes the next message off its channel. */
    method Receive(c: nat) returns (msg: nat)
      requires Valid() && c < |channels| && channels[c].queue != []
      modifies this
      ensures Valid() && Abs() == Apply(old(Abs()), SinkRegistry.Receive(c)) && msg == old(channels[c].queue[0])
    {
      hide Inv;
      ReceiveKept(Abs(), c);
      msg := channels[c].queue[0];
      channels := channels[c := channels[c].(queue := channels[c].queue[1..])];
      received := received + 1;
    }

    /** `SinkManager.RegisterSink` and `RegisterFirehoseSink`: a fresh channel, then the group's `AddSink`. */
    method Register(sink: Sink, app: bool) returns (ok: bool)
      requires Valid()
      modifies this
      ensures Valid() && Abs() == Registered(old(Abs()), sink, app)
      ensures ok == Acceptable(old(if app then apps else firehoses), sink, app)
    {
      hide Inv;
      RegisteredKept(Abs(), sink, app);
      var inputChan := |channels|;
      var registry: Registry := if app then apps else firehoses;
      ok := sink.appID != "" && !(app && sink.identifier == "")
        && !(sink.appID in registry && sink.identifier in registry[sink.appID]);
      channels := channels + [Channel([], false, ok)];
      if !ok {
        return;
      }
      var wrappers := if sink.appID in registry then registry[sink.appID] else map[];
      wrappers := wrappers[sink.identifier := Wrapper(inputChan, sink)];
      if app {
        apps := apps[sink.appID := wrappers];
      } else {
        firehoses := firehoses[sink.appID := wrappers];
      }
    }

    /** `CloseAndDelete` and `CloseAndDeleteFirehose`. */
    method CloseAndDelete(sink: Sink, app: bool) returns (removed: bool)
      requires Valid()
      modifies this
      ensures Valid() && Abs() == Unregistered(old(Abs()), sink, app)
      ensures removed == old(Find(if app then apps else firehoses, sink.appID, sink.identifier)).Some?
    {
      hide Inv, CloseAll;
      UnregisteredKept(Abs(), sink, app);
      var registry: Registry := if app then apps else firehoses;
      if sink.appID !in registry {
        return false;
      }
      removed := sink.identifier in registry[sink.appID];
      if removed {
        var c := registry[sink.appID][sink.identifier].channel;
        StandsOpen(Abs(), Place(app, sink.appID, sink.identifier));
        Close(c);
        assert channels == CloseAll(old(channels), {c});
        assert ClosedAmong(old(channels), {c}) == {};
      }
      var after := Remove(registry, sink.appID, sink.identifier);
      if app {
        apps := after;
      } else {
        firehoses := after;
      }
    }

    /** `AppGroup.BroadcastMessage` and `BroadcastError`: a walk over the wrappers in any order. */
    method BroadcastMembers(wrappers: map<string, Wrapper>, errors: bool, msg: nat) returns (lost: nat)
      requires Sound(wrappers, channels)
      modifies this`channels
      ensures channels == OfferTo(old(channels), Chosen(wrappers, errors), msg)
      ensures lost == |FullAmong(old(channels), Chosen(wrappers, errors))|
    {
      hide Offer, Full, Chosen, Sound, FullAmong;
      lost := 0;
      var rest := wrappers.Keys;
      ghost var done: set<nat> := {};
      NoneChosen(wrappers, errors, channels);
      while rest != {}
        invariant rest <= wrappers.Keys && done == Chosen(wrappers - rest, errors)
        invariant channels == OfferTo(old(channels), done, msg)
        invariant lost == |FullAmong(old(channels), done)|
        decreases rest
      {
        var id :| id in rest;
        var w := wrappers[id];
        ChosenGrows(wrappers, rest, id, errors, old(channels));
        rest := rest - {id};
        if !errors || w.sink.receivesErrors {
          OneMore(old(channels), done, w.channel, msg);
          var sent := Send(w.channel, msg);
          if !sent {
            lost := lost + 1;
          }
          done := done + {w.channel};
        }
      }
      assert wrappers - rest == wrappers;
    }

    /** `broadcastMessageToFirehoses`: one drawn member of every group, in any order of the groups. */
    method BroadcastFirehoses(msg: nat, draws: map<string, nat>) returns (lost: nat, picks: map<string, string>)
      requires Structure(Abs())
      requires forall g :: g in firehoses ==> g in draws && draws[g] < |firehoses[g]|
      modifies this`channels
      ensures PicksRight(old(Abs()), picks)
      ensures channels == OfferTo(old(channels), FireTargets(old(Abs()), picks), msg)
      ensures lost == |FullAmong(old(channels), FireTargets(old(Abs()), picks))|
    {
      hide Offer, Full, FullAmong, Structure, Picked;
      lost := 0;
      picks := map[];
      var rest := firehoses.Keys;
      ghost var done: set<nat> := {};
      NonePicked(firehoses, channels);
      while rest != {}
        invariant rest <= firehoses.Keys && picks.Keys == firehoses.Keys - rest
        invariant PartlyRight(firehoses, picks) && done == Picked(firehoses, picks)
        invariant channels == OfferTo(old(channels), done, msg)
        invariant lost == |FullAmong(old(channels), done)|
        decreases rest
      {
        var g :| g in rest;
        FireGroup(old(Abs()), g);
        var id := RandomWrapper(firehoses[g], draws[g]);
        PickGrows(old(Abs()), picks, g, id.value);
        var w := firehoses[g][id.value];
        OneMore(old(channels), done, w.channel, msg);
        var sent := Send(w.channel, msg);
        if !sent {
          lost := lost + 1;
        }
        done := done + {w.channel};
        picks := picks[g := id.value];
        rest := rest - {g};
      }
      AllPicked(old(Abs()), picks);
    }

    /** The app's part of `Broadcast` and `BroadcastError`. */
    method BroadcastToApp(appID: string, errors: bool, msg: nat)
      requires Valid()
      modifies this
      ensures Abs() == AppSent(old(Abs()), AppTargets(old(Abs()), appID, errors), errors, msg)
      ensures Framed(old(Abs()), Abs())
    {
      hide Inv, Structure, FullAmong, ClosedAmong, OfferTo, Sound;
      ghost var s := Abs();
      ghost var a := AppTargets(s, appID, errors);
      HasStructure(s);
      GroupSound(s, true, appID);
      AppOpen(s, appID, errors);
      OfferedRight(s, a, msg);
      NoFaults(s, a);
      var wrappers := Members(apps, appID);
      assert Chosen(wrappers, errors) == a;
      var lost := BroadcastMembers(wrappers, errors, msg);
      offers := offers + |a|;
      if errors {
        errorsDropped := errorsDropped + lost;
      } else {
        dropped := dropped + lost;
      }
    }

    /** `Broadcast` and `BroadcastError`. */
    method Broadcast(appID: string, errors: bool, msg: nat, draws: map<string, nat>) returns (picks: map<string, string>)
      requires Valid()
      requires forall g :: g in firehoses ==> g in draws && draws[g] < |firehoses[g]|
      modifies this
      ensures Valid() && PicksRight(old(Abs()), picks)
      ensures Abs() == Sent(old(Abs()), AppTargets(old(Abs()), appID, errors), FireTargets(old(Abs()), picks), errors, msg)
    {
      hide Inv, Structure, FullAmong, ClosedAmong, OfferTo, AppSent, Open, AppTargets;
      ghost var s := Abs();
      ghost var a := AppTargets(s, appID, errors);
      HasStructure(s);
      BroadcastToApp(appID, errors, msg);
      ghost var u := Abs();
      FramedKeeps(s, u);
      var lost;
      lost, picks := BroadcastFirehoses(msg, draws);
      ghost var f := FireTargets(s, picks);
      AppOpen(s, appID, errors);
      FireOpen(s, picks);
      FireOpen(u, picks);
      NoFaults(u, f);
      offers := offers + |f|;
      dropped := dropped + lost;
      SentKept(s, a, f, errors, msg);
    }

    /** `RemoveAllSinks` of one group. */
    method CloseMembers(wrappers: map<string, Wrapper>)
      requires Sound(wrappers, channels)
      modifies this`channels
      ensures channels == CloseAll(old(channels), Chosen(wrappers, false))
    {
      hide Chosen, Sound;
      var rest := wrappers.Keys;
      NoneChosen(wrappers, false, channels);
      assert channels == CloseAll(channels, {});
      while rest != {}
        invariant rest <= wrappers.Keys
        invariant channels == CloseAll(old(channels), Chosen(wrappers - rest, false))
        decreases rest
      {
        var id :| id in rest;
        ChosenGrows(wrappers, rest, id, false, old(channels));
        OneLess(old(channels), Chosen(wrappers - rest, false), wrappers[id].channel);
        Close(wrappers[id].channel);
        rest := rest - {id};
      }
      assert wrappers - rest == wrappers;
    }

    /** One of the two loops of `DeleteAll`, over the groups in any order. */
    method CloseGroups(app: bool)
      requires Structure(Abs())
      modifies this`channels
      ensures channels == CloseAll(old(channels), Everyone(old(if app then apps else firehoses)))
    {
      hide Structure, Everyone, Sound, Chosen;
      var registry: Registry := if app then apps else firehoses;
      var rest := registry.Keys;
      assert Everyone(registry - rest) == {} by { NoGroups(registry); }
      assert channels == CloseAll(channels, {});
      while rest != {}
        invariant rest <= registry.Keys
        invariant channels == CloseAll(old(channels), Everyone(registry - rest))
        decreases rest
      {
        var g :| g in rest;
        StillSound(old(Abs()), app, registry, rest, g, channels);
        EveryoneGrows(registry, rest, g);
        ghost var before := channels;
        CloseMembers(registry[g]);
        CloseTwice(old(channels), Everyone(registry - rest), Chosen(registry[g], false));
        rest := rest - {g};
      }
      assert registry - rest == registry;
    }

    method DeleteAll()
      requires Valid()
      modifies this
      ensures Valid() && Abs() == AllDeleted(old(Abs()))
    {
      hide Inv, Structure, Everyone, CloseAll, ClosedAmong;
      ghost var s := Abs();
      HasStructure(s);
      AllDeletedKept(s);
      NoDeleteFaults(s);
      CloseGroups(true);
      AppsClosed(s);
      apps := map[];
      CloseGroups(false);
      firehoses := map[];
    }
  }

  lemma HasStructure(s: State)
    requires Inv(s)
    ensures Structure(s)
  {
  }

  lemma NoFaults(s: State, targets: set<nat>)
    requires Open(s, targets)
    ensures ClosedAmong(s.channels, targets) == {}
  {
  }

  lemma NoDeleteFaults(s: State)
    requires Inv(s)
    ensures ClosedAmong(s.channels, Everyone(s.apps)) == {}
    ensures ClosedAmong(CloseAll(s.channels, Everyone(s.apps)), Everyone(s.fires)) == {}
  {
    hide Everyone, Structure;
    forall c: nat | c < |s.channels|
      ensures (c in Everyone(s.apps) || c in Everyone(s.fires) ==> !s.channels[c].closed)
      ensures !(c in Everyone(s.apps) && c in Everyone(s.fires))
    {
      EveryoneRight(s, c);
    }
  }

  /** With the apps gone and their channels closed, the firehoses still stand as they did. */
  lemma AppsClosed(s: State)
    requires Inv(s)
    ensures Structure(s.(apps := map[], channels := CloseAll(s.channels, Everyone(s.apps))))
  {
    hide Everyone, Structure;
    var t := s.(apps := map[], channels := CloseAll(s.channels, Everyone(s.apps)));
    var gone := iset p: Place | p.app && At(s, p).Some?;
    forall c: nat | c < |s.channels| ensures c in Everyone(s.apps) <==> Leaves(s, gone, c) {
      if c in Everyone(s.apps) {
        var p := OwnerOf(s, true, c);
        assert p in gone;
      }
      if Leaves(s, gone, c) {
        var p :| p in gone && At(s, p).Some? && At(s, p).value.channel == c;
        IsEveryone(s, p);
      }
    }
    assert Tidy(s.fires) by { TidyBoth(s); }
    StruckKeeps(s, t, gone);
  }

  lemma TidyBoth(s: State)
    requires Structure(s)
    ensures Tidy(s.apps) && Tidy(s.fires)
  {
  }

  lemma NoGroups(r: Registry)
    ensures Everyone(r - r.Keys) == {}
  {
  }

  lemma EveryoneGrows(r: Registry, rest: set<string>, g: string)
    requires g in rest && rest <= r.Keys
    ensures Everyone(r - (rest - {g})) == Everyone(r - rest) + Chosen(r[g], false)
  {
    var less, more := r - rest, r - (rest - {g});
    assert more == less[g := r[g]];
    forall c | c in Everyone(more) ensures c in Everyone(less) || c in Chosen(r[g], false) {
      var h, id :| h in more && id in more[h] && more[h][id].channel == c;
      assert h != g ==> h in less && less[h][id].channel == c;
    }
    forall c | c in Everyone(less) ensures c in Everyone(more) {
      var h, id :| h in less && id in less[h] && less[h][id].channel == c;
      assert h in more && more[h][id].channel == c;
    }
    forall c | c in Chosen(r[g], false) ensures c in Everyone(more) {
      var id :| id in r[g] && r[g][id].channel == c;
      assert g in more && more[g][id].channel == c;
    }
  }

  lemma CloseTwice(channels: seq<Channel>, a: set<nat>, b: set<nat>)
    ensures CloseAll(CloseAll(channels, a), b) == CloseAll(channels, a + b)
  {
  }

  /** A group not yet reached has none of the channels closed so far. */
  lemma StillSound(s: State, app: bool, r: Registry, rest: set<string>, g: string, channels: seq<Channel>)
    requires Structure(s) && r == (if app then s.apps else s.fires) && g in rest && rest <= r.Keys
    requires channels == CloseAll(s.channels, Everyone(r - rest))
    ensures Sound(r[g], channels)
  {
    hide Structure;
    GroupSound(s, app, g);
    forall id | id in r[g] ensures r[g][id].channel !in Everyone(r - rest) {
      if r[g][id].channel in Everyone(r - rest) {
        var h, jd :| h in r - rest && jd in (r - rest)[h] && (r - rest)[h][jd].channel == r[g][id].channel;
        OneOwner(s, Place(app, g, id), Place(app, h, jd));
      }
    }
  }

  // ----- Picks -----

  predicate PartlyRight(r: Registry, picks: map<string, string>) {
    forall g :: g in picks ==> g in r && picks[g] in r[g]
  }

  function Picked(r: Registry, picks: map<string, string>): set<nat>
    requires PartlyRight(r, picks)
  {
    set g | g in picks :: r[g][picks[g]].channel
  }

  lemma NonePicked(r: Registry, channels: seq<Channel>)
    ensures PartlyRight(r, map[]) && Picked(r, map[]) == {} && FullAmong(channels, {}) == {}
  {
  }

  lemma FireGroup(s: State, g: string)
    requires Structure(s) && g in s.fires
    ensures s.fires[g] != map[]
  {
  }

  lemma PickGrows(s: State, picks: map<string, string>, g: string, id: string)
    requires Structure(s) && PartlyRight(s.fires, picks) && g !in picks && g in s.fires && id in s.fires[g]
    ensures PartlyRight(s.fires, picks[g := id])
    ensures
      var c := s.fires[g][id].channel;
      && c !in Picked(s.fires, picks) && Picked(s.fires, picks[g := id]) == Picked(s.fires, picks) + {c}
      && c < |s.channels| && !s.channels[c].closed
  {
    hide Structure;
    var more, c := picks[g := id], s.fires[g][id].channel;
    GroupSound(s, false, g);
    if c in Picked(s.fires, picks) {
      var h :| h in picks && s.fires[h][picks[h]].channel == c;
      OneOwner(s, Place(false, g, id), Place(false, h, picks[h]));
    }
    forall x | x in Picked(s.fires, more) ensures x in Picked(s.fires, picks) || x == c {
      var h :| h in more && s.fires[h][more[h]].channel == x;
      assert h != g ==> h in picks && s.fires[h][picks[h]].channel == x;
    }
    forall x | x in Picked(s.fires, picks) ensures x in Picked(s.fires, more) {
      var h :| h in picks && s.fires[h][picks[h]].channel == x;
      assert h in more && s.fires[h][more[h]].channel == x;
    }
    assert g in more && s.fires[g][more[g]].channel == c;
  }

  lemma AllPicked(s: State, picks: map<string, string>)
    requires PartlyRight(s.fires, picks) && picks.Keys == s.fires.Keys
    ensures PicksRight(s, picks) && FireTargets(s, picks) == Picked(s.fires, picks)
  {
  }

  lemma NoneChosen(wrappers: map<string, Wrapper>, errors: bool, channels: seq<Channel>)
    ensures Chosen(wrappers - wrappers.Keys, errors) == {} && FullAmong(channels, {}) == {}
  {
  }

  lemma ChosenGrows(wrappers: map<string, Wrapper>, rest: set<string>, id: string, errors: bool, channels: seq<Channel>)
    requires id in wrappers && id in rest && rest <= wrappers.Keys && Sound(wrappers, channels)
    ensures wrappers[id].channel < |channels| && !channels[wrappers[id].channel].closed
    ensures wrappers[id].channel !in Chosen(wrappers - rest, errors)
    ensures Chosen(wrappers - (rest - {id}), errors) == Chosen(wrappers - rest, errors) +
      (if !errors || wrappers[id].sink.receivesErrors then {wrappers[id].channel} else {})
  {
    var less, more := wrappers - rest, wrappers - (rest - {id});
    assert more == less[id := wrappers[id]];
    forall x | x in Chosen(more, errors)
      ensures x in Chosen(less, errors) || (x == wrappers[id].channel && (!errors || wrappers[id].sink.receivesErrors))
    {
      var j :| j in more && (!errors || more[j].sink.receivesErrors) && more[j].channel == x;
      assert j != id ==> j in less && less[j].channel == x;
    }
    forall x | x in Chosen(less, errors) ensures x in Chosen(more, errors) {
      var j :| j in less && (!errors || less[j].sink.receivesErrors) && less[j].channel == x;
      assert j in more && more[j].channel == x;
    }
    assert id in more && more[id].channel == wrappers[id].channel;
  }

  lemma StandsOpen(s: State, p: Place)
    requires Inv(s) && At(s, p).Some?
    ensures At(s, p).value.channel < |s.channels| && !s.channels[At(s, p).value.channel].closed
  {
    assert PlaceRight(s, p);
  }
}
