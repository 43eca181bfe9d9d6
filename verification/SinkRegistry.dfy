/**
  The doppler's sink registry: doppler/internal/groupedsinks/grouped_sinks.go and firehose_group.go under
  doppler/internal/sinkserver/sinkmanager/sink_manager.go. Each registered sink owns an input channel; the
  registry closes it when the sink leaves and must never close it twice nor send on it afterwards.
 */
module SinkRegistry {
  import opened Wrappers

  const CHANNEL_SIZE: nat := 128

  /** A sink, known by its identity `object`; for a firehose sink `appID` is its subscription id. */
  datatype Sink = Sink(object: nat, appID: string, identifier: string, receivesErrors: bool)

  datatype Wrapper = Wrapper(channel: nat, sink: Sink)

  /** `accepted` once a registration succeeded with the channel. */
  datatype Channel = Channel(queue: seq<nat>, closed: bool, accepted: bool)

  type Registry = map<string, map<string, Wrapper>>

  /**
    `offers` counts the sends tried, `received` the messages that sinks took off their channels, and `faults` what
    Go answers with a panic: closing a closed channel or sending on one.
   */
  datatype State = State(apps: Registry, fires: Registry, channels: seq<Channel>,
                         dropped: nat, errorsDropped: nat, offers: nat, received: nat, faults: nat)

  datatype Step =
    | RegisterApp(sink: Sink)
    | RegisterFirehose(sink: Sink)
    | UnregisterApp(sink: Sink)
    | UnregisterFirehose(sink: Sink)
    | Broadcast(appID: string, msg: nat, picks: map<string, string>)
    | BroadcastError(appID: string, msg: nat, picks: map<string, string>)
    | DeleteAll
    | Receive(channel: nat)

  // ----- One registry -----

  function Find(r: Registry, group: string, id: string): Option<Wrapper> {
    if group in r && id in r[group] then Some(r[group][id]) else None
  }

  function Members(r: Registry, group: string): map<string, Wrapper> {
    if group in r then r[group] else map[]
  }

  function Add(r: Registry, w: Wrapper): Registry {
    r[w.sink.appID := Members(r, w.sink.appID)[w.sink.identifier := w]]
  }

  /** `removeSink` and the deletion of a group it leaves empty. */
  function Remove(r: Registry, group: string, id: string): Registry {
    if group !in r then r
    else if r[group] - {id} == map[] then r - {group}
    else r[group := r[group] - {id}]
  }

  ghost predicate Tidy(r: Registry) {
    forall g :: g in r ==> r[g] != map[]
  }

  lemma FindAdd(r: Registry, w: Wrapper, g: string, id: string)
    ensures Find(Add(r, w), g, id) == if g == w.sink.appID && id == w.sink.identifier then Some(w) else Find(r, g, id)
    ensures Tidy(r) ==> Tidy(Add(r, w))
  {
    var m := Members(r, w.sink.appID)[w.sink.identifier := w];
    assert w.sink.identifier in m;
  }

  lemma FindRemove(r: Registry, group: string, id: string, g: string, i: string)
    requires Tidy(r)
    ensures Find(Remove(r, group, id), g, i) == if g == group && i == id then None else Find(r, g, i)
    ensures Tidy(Remove(r, group, id))
  {
    assert group in r && i != id ==> (i in r[group] <==> i in r[group] - {id});
  }

  // ----- Channels -----

  function Full(c: Channel): bool { |c.queue| >= CHANNEL_SIZE }

  function Offer(c: Channel, msg: nat): Channel {
    if Full(c) then c else c.(queue := c.queue + [msg])
  }

  function OfferTo(channels: seq<Channel>, targets: set<nat>, msg: nat): (r: seq<Channel>)
    ensures |r| == |channels| && forall i :: 0 <= i < |r| ==> r[i] == if i in targets then Offer(channels[i], msg) else channels[i]
  {
    seq(|channels|, i requires 0 <= i < |channels| => if i in targets then Offer(channels[i], msg) else channels[i])
  }

  function CloseAll(channels: seq<Channel>, targets: set<nat>): (r: seq<Channel>)
    ensures |r| == |channels| && forall i :: 0 <= i < |r| ==> r[i] == if i in targets then channels[i].(closed := true) else channels[i]
  {
    seq(|channels|, i requires 0 <= i < |channels| => if i in targets then channels[i].(closed := true) else channels[i])
  }

  function FullAmong(channels: seq<Channel>, targets: set<nat>): set<nat> {
    set i | i in targets && i < |channels| && Full(channels[i])
  }

  function ClosedAmong(channels: seq<Channel>, targets: set<nat>): set<nat> {
    set i | i in targets && i < |channels| && channels[i].closed
  }

  // ----- Steps -----

  function Initial(): State { State(map[], map[], [], 0, 0, 0, 0, 0) }

  /** The channels of an app's sinks: all of them, or those that take errors. */
  function AppTargets(s: State, appID: string, errors: bool): set<nat> {
    set id | id in Members(s.apps, appID) && (!errors || s.apps[appID][id].sink.receivesErrors) :: s.apps[appID][id].channel
  }

  /** One member of each firehose subscription, as picked. */
  predicate PicksRight(s: State, picks: map<string, string>) {
    picks.Keys == s.fires.Keys && forall g :: g in picks ==> g in s.fires && picks[g] in s.fires[g]
  }

  function FireTargets(s: State, picks: map<string, string>): set<nat>
    requires PicksRight(s, picks)
  {
    set g | g in picks :: s.fires[g][picks[g]].channel
  }

  predicate Enabled(s: State, step: Step) {
    match step
    case Broadcast(_, _, picks) => PicksRight(s, picks)
    case BroadcastError(_, _, picks) => PicksRight(s, picks)
    case Receive(c) => c < |s.channels| && s.channels[c].queue != []
    case _ => true
  }

  function Offered(s: State, targets: set<nat>, msg: nat): State {
    s.(channels := OfferTo(s.channels, targets, msg), offers := s.offers + |targets|,
       faults := s.faults + |ClosedAmong(s.channels, targets)|)
  }

  function AppSent(s: State, targets: set<nat>, errors: bool, msg: nat): State {
    var lost := |FullAmong(s.channels, targets)|;
    var t := Offered(s, targets, msg);
    if errors then t.(errorsDropped := s.errorsDropped + lost) else t.(dropped := s.dropped + lost)
  }

  function FireSent(s: State, targets: set<nat>, msg: nat): State {
    Offered(s, targets, msg).(dropped := s.dropped + |FullAmong(s.channels, targets)|)
  }

  function Sent(s: State, appTargets: set<nat>, fireTargets: set<nat>, errors: bool, msg: nat): State {
    FireSent(AppSent(s, appTargets, errors, msg), fireTargets, msg)
  }

  predicate Acceptable(r: Registry, sink: Sink, app: bool) {
    sink.appID != "" && (app ==> sink.identifier != "") && Find(r, sink.appID, sink.identifier).None?
  }

  function Registered(s: State, sink: Sink, app: bool): State {
    var n := |s.channels|;
    var r := if app then s.apps else s.fires;
    if !Acceptable(r, sink, app) then s.(channels := s.channels + [Channel([], false, false)])
    else
      var t := s.(channels := s.channels + [Channel([], false, true)]);
      var after := Add(r, Wrapper(n, sink));
      if app then t.(apps := after) else t.(fires := after)
  }

  /** Removal goes by app id and identifier, whichever sink object holds them. */
  function Unregistered(s: State, sink: Sink, app: bool): State {
    var r := if app then s.apps else s.fires;
    var found := Find(r, sink.appID, sink.identifier);
    var after := Remove(r, sink.appID, sink.identifier);
    var t := if app then s.(apps := after) else s.(fires := after);
    if found.None? then t
    else
      var targets := {found.value.channel};
      t.(channels := CloseAll(s.channels, targets), faults := s.faults + |ClosedAmong(s.channels, targets)|)
  }

  function Everyone(r: Registry): set<nat> {
    set g, id | g in r && id in r[g] :: r[g][id].channel
  }

  function AllDeleted(s: State): State {
    var a, f := Everyone(s.apps), Everyone(s.fires);
    var t := s.(apps := map[], channels := CloseAll(s.channels, a), faults := s.faults + |ClosedAmong(s.channels, a)|);
    t.(fires := map[], channels := CloseAll(t.channels, f), faults := t.faults + |ClosedAmong(t.channels, f)|)
  }

  function Apply(s: State, step: Step): State
    requires Enabled(s, step)
  {
    match step
    case RegisterApp(sink) => Registered(s, sink, true)
    case RegisterFirehose(sink) => Registered(s, sink, false)
    case UnregisterApp(sink) => Unregistered(s, sink, true)
    case UnregisterFirehose(sink) => Unregistered(s, sink, false)
    case Broadcast(a, msg, picks) => Sent(s, AppTargets(s, a, false), FireTargets(s, picks), false, msg)
    case BroadcastError(a, msg, picks) => Sent(s, AppTargets(s, a, true), FireTargets(s, picks), true, msg)
    case DeleteAll => AllDeleted(s)
    case Receive(c) =>
      s.(channels := s.channels[c := s.channels[c].(queue := s.channels[c].queue[1..])], received := s.received + 1)
  }

  ghost predicate Next(s: State, step: Step, t: State) {
    Enabled(s, step) && t == Apply(s, step)
  }

  ghost predicate IsRun(states: seq<State>, steps: seq<Step>) {
    && |states| == |steps| + 1 && states[0] == Initial()
    && forall i :: 0 <= i < |steps| ==> Next(states[i], steps[i], states[i + 1])
  }

  // ----- The invariant -----

  /** A place in the registry: in the apps or in the firehoses, by group and identifier. */
  datatype Place = Place(app: bool, group: string, id: string)

  function At(s: State, p: Place): Option<Wrapper> {
    Find(if p.app then s.apps else s.fires, p.group, p.id)
  }

  ghost predicate PlaceRight(s: State, p: Place) {
    var w := At(s, p);
    w.Some? ==>
      && w.value.sink.appID == p.group && w.value.sink.identifier == p.id
      && w.value.channel < |s.channels|
      && !s.channels[w.value.channel].closed && s.channels[w.value.channel].accepted
  }

  /** No channel has two owners. */
  ghost predicate Sole(s: State, p: Place, q: Place) {
    p != q && At(s, p).Some? && At(s, q).Some? ==> At(s, p).value.channel != At(s, q).value.channel
  }

  /** An accepted channel that is still open is some registered sink's. */
  ghost predicate Owned(s: State, c: nat) {
    c < |s.channels| && s.channels[c].accepted && !s.channels[c].closed ==>
      exists p :: At(s, p).Some? && At(s, p).value.channel == c
  }

  ghost predicate Structure(s: State) {
    && Tidy(s.apps) && Tidy(s.fires)
    && (forall p :: PlaceRight(s, p))
    && (forall p, q :: Sole(s, p, q))
    && (forall c: nat :: Owned(s, c))
  }

  /** The messages waiting in all channels together. */
  function Waiting(channels: seq<Channel>): nat {
    if channels == [] then 0 else Waiting(channels[..|channels| - 1]) + |channels[|channels| - 1].queue|
  }

  /** Every message offered is received, still waiting in a channel, or counted as dropped. */
  ghost predicate Conserved(s: State) {
    s.offers == s.received + Waiting(s.channels) + s.dropped + s.errorsDropped
  }

  ghost predicate Inv(s: State) {
    Structure(s) && s.faults == 0 && Conserved(s)
  }

  /** The registries are the same and so is each channel's standing. */
  ghost predicate Framed(s: State, t: State) {
    && t.apps == s.apps && t.fires == s.fires && |t.channels| == |s.channels|
    && forall i :: 0 <= i < |s.channels| ==>
         t.channels[i].closed == s.channels[i].closed && t.channels[i].accepted == s.channels[i].accepted
  }

  lemma FramedKeeps(s: State, t: State)
    requires Structure(s) && Framed(s, t)
    ensures Structure(t)
  {
    hide Find;
    forall p ensures At(t, p) == At(s, p) && PlaceRight(t, p) {
      assert PlaceRight(s, p);
    }
    forall p, q ensures Sole(t, p, q) {
      assert Sole(s, p, q);
    }
    forall c: nat ensures Owned(t, c) {
      assert Owned(s, c);
    }
  }

  // ----- Offers -----

  /** Targets are open channels. */
  ghost predicate Open(s: State, targets: set<nat>) {
    forall c :: c in targets ==> c < |s.channels| && !s.channels[c].closed
  }

  lemma AppOpen(s: State, appID: string, errors: bool)
    requires Structure(s)
    ensures Open(s, AppTargets(s, appID, errors))
  {
    forall c | c in AppTargets(s, appID, errors) ensures c < |s.channels| && !s.channels[c].closed {
      var id :| id in Members(s.apps, appID) && s.apps[appID][id].channel == c;
      assert PlaceRight(s, Place(true, appID, id));
    }
  }

  lemma FireOpen(s: State, picks: map<string, string>)
    requires Structure(s) && PicksRight(s, picks)
    ensures Open(s, FireTargets(s, picks))
  {
    forall c | c in FireTargets(s, picks) ensures c < |s.channels| && !s.channels[c].closed {
      var g :| g in picks && s.fires[g][picks[g]].channel == c;
      assert PlaceRight(s, Place(false, g, picks[g]));
    }
  }

  lemma OfferedRight(s: State, targets: set<nat>, msg: nat)
    requires Open(s, targets)
    ensures
      var t := Offered(s, targets, msg);
      && Framed(s, t) && t.faults == s.faults && t.received == s.received
      && Waiting(t.channels) == Waiting(s.channels) + (t.offers - s.offers) - |FullAmong(s.channels, targets)|
      && t.dropped == s.dropped && t.errorsDropped == s.errorsDropped
  {
    assert ClosedAmong(s.channels, targets) == {};
    OfferedWaiting(s.channels, targets, msg);
  }

  /** Each target that is not full holds one message more, and nothing else changes. */
  lemma {:induction false} OfferedWaiting(channels: seq<Channel>, targets: set<nat>, msg: nat)
    requires forall c :: c in targets ==> c < |channels|
    ensures Waiting(OfferTo(channels, targets, msg)) == Waiting(channels) + |targets| - |FullAmong(channels, targets)|
  {
    hide Offer, Full, FullAmong, OfferTo, Waiting;
    if channels == [] {
      assert targets == {};
      NoneFull(OfferTo(channels, targets, msg));
    } else {
      var n := |channels| - 1;
      var after := OfferTo(channels, targets, msg);
      OfferedWaiting(channels[..n], targets - {n}, msg);
      OfferPrefix(channels, targets, msg);
      WaitingLast(channels);
      WaitingLast(after);
      FullSplit(channels, targets);
      OfferLength(channels[n], msg);
      if n in targets {
        assert targets == (targets - {n}) + {n};
      } else {
        assert targets - {n} == targets;
      }
    }
  }

  lemma OfferPrefix(channels: seq<Channel>, targets: set<nat>, msg: nat)
    requires channels != []
    ensures
      var n := |channels| - 1;
      OfferTo(channels, targets, msg)[..n] == OfferTo(channels[..n], targets - {n}, msg)
  {
    hide Offer;
  }

  lemma WaitingLast(channels: seq<Channel>)
    requires channels != []
    ensures Waiting(channels) == Waiting(channels[..|channels| - 1]) + |channels[|channels| - 1].queue|
  {
  }

  lemma NoneFull(after: seq<Channel>)
    requires after == []
    ensures FullAmong([], {}) == {} && Waiting(after) == Waiting([]) == 0
  {
  }

  lemma OfferLength(c: Channel, msg: nat)
    ensures |Offer(c, msg).queue| == |c.queue| + (if Full(c) then 0 else 1)
  {
  }

  lemma FullSplit(channels: seq<Channel>, targets: set<nat>)
    requires channels != [] && forall c :: c in targets ==> c < |channels|
    ensures
      var n := |channels| - 1;
      |FullAmong(channels, targets)| ==
        |FullAmong(channels[..n], targets - {n})| + (if n in targets && Full(channels[n]) then 1 else 0)
  {
    hide Full;
    var n := |channels| - 1;
    var less := FullAmong(channels[..n], targets - {n});
    if n in targets && Full(channels[n]) {
      assert FullAmong(channels, targets) == less + {n};
    } else {
      assert FullAmong(channels, targets) == less;
    }
  }

  lemma {:induction false} WaitingUpdate(channels: seq<Channel>, i: nat, c: Channel)
    requires i < |channels|
    ensures Waiting(channels[i := c]) == Waiting(channels) - |channels[i].queue| + |c.queue|
  {
    var n := |channels| - 1;
    if i == n {
      assert channels[i := c][..n] == channels[..n];
    } else {
      assert channels[i := c][..n] == channels[..n][i := c];
      WaitingUpdate(channels[..n], i, c);
    }
  }

  lemma {:induction false} WaitingSame(a: seq<Channel>, b: seq<Channel>)
    requires |a| == |b| && forall i :: 0 <= i < |a| ==> a[i].queue == b[i].queue
    ensures Waiting(a) == Waiting(b)
  {
    if a != [] {
      WaitingSame(a[..|a| - 1], b[..|b| - 1]);
    }
  }

  lemma WaitingMore(channels: seq<Channel>, c: Channel)
    ensures Waiting(channels + [c]) == Waiting(channels) + |c.queue|
  {
    assert (channels + [c])[..|channels|] == channels;
  }

  lemma SentKept(s: State, appTargets: set<nat>, fireTargets: set<nat>, errors: bool, msg: nat)
    requires Inv(s) && Open(s, appTargets) && Open(s, fireTargets)
    ensures Inv(Sent(s, appTargets, fireTargets, errors, msg))
  {
    hide Structure, FullAmong, ClosedAmong, Offered, Waiting;
    OfferedRight(s, appTargets, msg);
    OfferedRight(AppSent(s, appTargets, errors, msg), fireTargets, msg);
    FramedKeeps(s, Sent(s, appTargets, fireTargets, errors, msg));
  }

  // ----- Registration -----

  lemma RegisteredKept(s: State, sink: Sink, app: bool)
    requires Inv(s)
    ensures Inv(Registered(s, sink, app))
  {
    var t := Registered(s, sink, app);
    var n := |s.channels|;
    var r := if app then s.apps else s.fires;
    var w := Wrapper(n, sink);
    var here := Place(app, sink.appID, sink.identifier);
    forall p ensures At(t, p) == (if Acceptable(r, sink, app) && p == here then Some(w) else At(s, p)) {
      FindAdd(r, w, p.group, p.id);
    }
    FindAdd(r, w, "", "");
    WaitingMore(s.channels, t.channels[n]);
    RegisteredStructure(s, t, here, w, Acceptable(r, sink, app));
  }

  lemma RegisteredStructure(s: State, t: State, here: Place, w: Wrapper, added: bool)
    requires Structure(s) && w.channel == |s.channels|
    requires w.sink.appID == here.group && w.sink.identifier == here.id
    requires Tidy(t.apps) && Tidy(t.fires)
    requires t.channels == s.channels + [Channel([], false, added)]
    requires added ==> At(s, here).None?
    requires forall p :: At(t, p) == if added && p == here then Some(w) else At(s, p)
    ensures Structure(t)
  {
    hide At, Tidy;
    forall p ensures PlaceRight(t, p) {
      assert PlaceRight(s, p);
    }
    forall p, q ensures Sole(t, p, q) {
      assert Sole(s, p, q) && PlaceRight(s, p) && PlaceRight(s, q);
    }
    forall c: nat ensures Owned(t, c) {
      assert Owned(s, c);
      if c == |s.channels| && added {
        assert At(t, here).Some? && At(t, here).value.channel == c;
      } else if c < |s.channels| && s.channels[c].accepted && !s.channels[c].closed {
        var p :| At(s, p).Some? && At(s, p).value.channel == c;
        assert At(t, p) == At(s, p);
      }
    }
  }

  // ----- Removal -----

  /** `t` is `s` without the places in `gone`, whose channels, and no others, are closed. */
  ghost predicate Struck(s: State, t: State, gone: iset<Place>) {
    && Tidy(t.apps) && Tidy(t.fires) && |t.channels| == |s.channels|
    && (forall p :: At(t, p) == if p in gone then None else At(s, p))
    && (forall c :: 0 <= c < |s.channels| ==> t.channels[c].accepted == s.channels[c].accepted)
    && (forall c :: 0 <= c < |s.channels| ==>
          (t.channels[c].closed <==> s.channels[c].closed || Leaves(s, gone, c)))
  }

  ghost predicate Leaves(s: State, gone: iset<Place>, c: int) {
    exists p :: p in gone && At(s, p).Some? && At(s, p).value.channel == c
  }

  lemma StruckKeeps(s: State, t: State, gone: iset<Place>)
    requires Structure(s) && Struck(s, t, gone)
    ensures Structure(t)
  {
    hide At, Tidy;
    forall p ensures PlaceRight(t, p) {
      assert PlaceRight(s, p);
      if At(t, p).Some? {
        assert forall q :: q in gone ==> Sole(s, p, q);
        assert !Leaves(s, gone, At(s, p).value.channel);
      }
    }
    forall p, q ensures Sole(t, p, q) {
      assert Sole(s, p, q);
    }
    forall c: nat ensures Owned(t, c) {
      assert Owned(s, c);
      if c < |t.channels| && t.channels[c].accepted && !t.channels[c].closed {
        var p :| At(s, p).Some? && At(s, p).value.channel == c;
        assert p !in gone;
        assert At(t, p) == At(s, p);
      }
    }
  }

  lemma UnregisteredKept(s: State, sink: Sink, app: bool)
    requires Inv(s)
    ensures Inv(Unregistered(s, sink, app))
  {
    var t := Unregistered(s, sink, app);
    var r := if app then s.apps else s.fires;
    var here := Place(app, sink.appID, sink.identifier);
    forall p ensures At(t, p) == (if p == here then None else At(s, p)) {
      FindRemove(r, sink.appID, sink.identifier, p.group, p.id);
    }
    FindRemove(r, sink.appID, sink.identifier, "", "");
    assert PlaceRight(s, here);
    assert At(s, here) == Find(r, sink.appID, sink.identifier);
    if At(s, here).Some? {
      assert ClosedAmong(s.channels, {At(s, here).value.channel}) == {};
    }
    UnregisteredStruck(s, t, here);
    WaitingSame(s.channels, t.channels);
    StruckKeeps(s, t, iset{here});
  }

  lemma UnregisteredStruck(s: State, t: State, here: Place)
    requires Tidy(t.apps) && Tidy(t.fires)
    requires forall p :: At(t, p) == if p == here then None else At(s, p)
    requires t.channels == if At(s, here).None? then s.channels else CloseAll(s.channels, {At(s, here).value.channel})
    ensures Struck(s, t, iset{here})
  {
    hide At, Tidy;
    forall c | 0 <= c < |s.channels|
      ensures t.channels[c].closed <==> s.channels[c].closed || Leaves(s, iset{here}, c)
    {
      assert here in iset{here};
    }
  }

  lemma OwnerOf(s: State, app: bool, c: nat) returns (p: Place)
    requires Structure(s) && c in Everyone(if app then s.apps else s.fires)
    ensures p.app == app && At(s, p).Some? && At(s, p).value.channel == c && c < |s.channels| && !s.channels[c].closed
  {
    var r: Registry := if app then s.apps else s.fires;
    var g, id :| g in r && id in r[g] && r[g][id].channel == c;
    p := Place(app, g, id);
    assert PlaceRight(s, p);
  }

  lemma EveryoneRight(s: State, c: nat)
    requires Structure(s) && c < |s.channels|
    ensures c in Everyone(s.apps) || c in Everyone(s.fires) ==> !s.channels[c].closed
    ensures !(c in Everyone(s.apps) && c in Everyone(s.fires))
    ensures c in Everyone(s.apps) || c in Everyone(s.fires) <==> Leaves(s, Registrations(s), c)
  {
    hide Structure, Everyone, PlaceRight, Sole, Owned;
    if c in Everyone(s.apps) {
      var p := OwnerOf(s, true, c);
      assert p in Registrations(s);
      if c in Everyone(s.fires) {
        var q := OwnerOf(s, false, c);
        OneOwner(s, p, q);
      }
    } else if c in Everyone(s.fires) {
      var q := OwnerOf(s, false, c);
      assert q in Registrations(s);
    }
    if Leaves(s, Registrations(s), c) {
      var p :| p in Registrations(s) && At(s, p).Some? && At(s, p).value.channel == c;
      IsEveryone(s, p);
    }
  }

  lemma OneOwner(s: State, p: Place, q: Place)
    requires Structure(s) && p != q && At(s, p).Some? && At(s, q).Some?
    ensures At(s, p).value.channel != At(s, q).value.channel
  {
    assert Sole(s, p, q);
  }

  lemma IsEveryone(s: State, p: Place)
    requires At(s, p).Some?
    ensures At(s, p).value.channel in Everyone(if p.app then s.apps else s.fires)
  {
  }

  ghost function Registrations(s: State): iset<Place> {
    iset p | At(s, p).Some?
  }

  lemma AllDeletedKept(s: State)
    requires Inv(s)
    ensures Inv(AllDeleted(s))
    ensures forall c: nat :: c < |s.channels| && s.channels[c].accepted ==> AllDeleted(s).channels[c].closed
  {
    hide Structure, Everyone, PlaceRight, Sole, Leaves;
    var t := AllDeleted(s);
    var a, f := Everyone(s.apps), Everyone(s.fires);
    forall c: nat | c < |s.channels|
      ensures (c in a || c in f ==> !s.channels[c].closed) && !(c in a && c in f)
      ensures c in a || c in f <==> Leaves(s, Registrations(s), c)
    {
      EveryoneRight(s, c);
    }
    assert ClosedAmong(s.channels, a) == {};
    assert ClosedAmong(CloseAll(s.channels, a), f) == {};
    assert Struck(s, t, Registrations(s));
    WaitingSame(s.channels, t.channels);
    StruckKeeps(s, t, Registrations(s));
    forall c: nat | c < |s.channels| && s.channels[c].accepted ensures t.channels[c].closed {
      StillOwned(t, c);
    }
  }

  lemma StillOwned(s: State, c: nat)
    requires Structure(s)
    ensures Owned(s, c)
  {
  }

  // ----- Runs -----

  lemma StepKept(s: State, step: Step)
    requires Inv(s) && Enabled(s, step)
    ensures Inv(Apply(s, step))
  {
    hide Inv, Registered, Unregistered, Sent, AllDeleted;
    match step
    case RegisterApp(sink) => RegisteredKept(s, sink, true);
    case RegisterFirehose(sink) => RegisteredKept(s, sink, false);
    case UnregisterApp(sink) => UnregisteredKept(s, sink, true);
    case UnregisterFirehose(sink) => UnregisteredKept(s, sink, false);
    case Broadcast(a, msg, picks) =>
      TargetsOpen(s, a, false, picks);
      SentKept(s, AppTargets(s, a, false), FireTargets(s, picks), false, msg);
    case BroadcastError(a, msg, picks) =>
      TargetsOpen(s, a, true, picks);
      SentKept(s, AppTargets(s, a, true), FireTargets(s, picks), true, msg);
    case DeleteAll => AllDeletedKept(s);
    case Receive(c) => ReceiveKept(s, c);
  }

  lemma TargetsOpen(s: State, appID: string, errors: bool, picks: map<string, string>)
    requires Inv(s) && PicksRight(s, picks)
    ensures Open(s, AppTargets(s, appID, errors)) && Open(s, FireTargets(s, picks))
  {
    AppOpen(s, appID, errors);
    FireOpen(s, picks);
  }

  lemma ReceiveKept(s: State, c: nat)
    requires Inv(s) && Enabled(s, Receive(c))
    ensures Inv(Apply(s, Receive(c)))
  {
    hide Structure;
    WaitingUpdate(s.channels, c, Apply(s, Receive(c)).channels[c]);
    FramedKeeps(s, Apply(s, Receive(c)));
  }

  /**
    Over every run: no channel is closed twice and none is sent on after it was closed (`faults` stays 0),
    no empty group stays behind, a channel has one owner, and every offer was received, is still waiting in some
    channel, or is counted as dropped.
   */
  lemma {:induction false} Always(states: seq<State>, steps: seq<Step>, i: nat)
    requires IsRun(states, steps) && i < |states|
    ensures Inv(states[i])
  {
    hide Inv, Apply;
    if i > 0 {
      Always(states, steps, i - 1);
      assert Next(states[i - 1], steps[i - 1], states[i]);
      StepKept(states[i - 1], steps[i - 1]);
    } else {
      InitialInv();
    }
  }

  lemma InitialInv()
    ensures Inv(Initial())
  {
  }

  /** A broadcast offers the message once to every sink of the app and once to one sink of each subscription. */
  lemma BroadcastReaches(s: State, appID: string, msg: nat, picks: map<string, string>, c: nat)
    requires Inv(s) && PicksRight(s, picks) && c < |s.channels|
    ensures
      var t := Apply(s, Broadcast(appID, msg, picks));
      t.channels[c] ==
        if c in AppTargets(s, appID, false) || c in FireTargets(s, picks) then Offer(s.channels[c], msg) else s.channels[c]
    ensures Apply(s, Broadcast(appID, msg, picks)).offers == s.offers + |Members(s.apps, appID)| + |s.fires|
  {
    hide Structure, PlaceRight;
    var a, f := AppTargets(s, appID, false), FireTargets(s, picks);
    assert c in a && c in f ==> false by { AppNotFire(s, appID, picks, c); }
    AppCount(s, appID);
    FireCount(s, picks);
  }

  lemma AppNotFire(s: State, appID: string, picks: map<string, string>, c: nat)
    requires Inv(s) && PicksRight(s, picks)
    ensures !(c in AppTargets(s, appID, false) && c in FireTargets(s, picks))
  {
    if c in AppTargets(s, appID, false) && c in FireTargets(s, picks) {
      var id :| id in Members(s.apps, appID) && s.apps[appID][id].channel == c;
      var g :| g in picks && s.fires[g][picks[g]].channel == c;
      OneOwner(s, Place(true, appID, id), Place(false, g, picks[g]));
    }
  }

  lemma {:induction false} ImageSize(keys: set<string>, image: map<string, nat>)
    requires keys == image.Keys
    requires forall a, b :: a in keys && b in keys && image[a] == image[b] ==> a == b
    ensures |set k | k in keys :: image[k]| == |keys|
  {
    if keys != {} {
      var k :| k in keys;
      ImageSize(keys - {k}, image - {k});
      var rest := set j | j in keys - {k} :: (image - {k})[j];
      var whole := set j | j in keys :: image[j];
      forall x ensures x in whole <==> x in rest || x == image[k] {
        if x in whole {
          var j :| j in keys && image[j] == x;
          assert j != k ==> j in keys - {k} && (image - {k})[j] == x;
        }
      }
      assert whole == rest + {image[k]};
    } else {
      assert (set k | k in keys :: image[k]) == {};
    }
  }

  lemma AppCount(s: State, appID: string)
    requires Inv(s)
    ensures |AppTargets(s, appID, false)| == |Members(s.apps, appID)|
  {
    var m := Members(s.apps, appID);
    var image := map id | id in m :: m[id].channel;
    forall a, b | a in m && b in m && image[a] == image[b] ensures a == b {
      assert Sole(s, Place(true, appID, a), Place(true, appID, b));
    }
    ImageSize(m.Keys, image);
    assert AppTargets(s, appID, false) == set k | k in m.Keys :: image[k];
  }

  lemma FireCount(s: State, picks: map<string, string>)
    requires Inv(s) && PicksRight(s, picks)
    ensures |FireTargets(s, picks)| == |s.fires|
  {
    var image := map g | g in picks :: s.fires[g][picks[g]].channel;
    forall a, b | a in picks && b in picks && image[a] == image[b] ensures a == b {
      assert Sole(s, Place(false, a, picks[a]), Place(false, b, picks[b]));
    }
    ImageSize(picks.Keys, image);
    assert FireTargets(s, picks) == set k | k in picks.Keys :: image[k];
    assert |picks.Keys| == |s.fires.Keys|;
  }

  // ----- Whose channel a removal closes -----

  /** Does removing this sink close a channel only if it is that very sink's? */
  ghost predicate ClosesOwn(s: State, sink: Sink, app: bool) {
    forall p ::
      At(s, p).Some? && At(s, p).value.channel < |s.channels| ==>
      Unregistered(s, sink, app).channels[At(s, p).value.channel].closed ==> At(s, p).value.sink == sink
  }

  /** Exactly when its place is free or still held by the sink itself. */
  lemma ClosesOwnExact(s: State, sink: Sink, app: bool)
    requires Inv(s)
    ensures ClosesOwn(s, sink, app) <==>
      (At(s, Place(app, sink.appID, sink.identifier)).None? || At(s, Place(app, sink.appID, sink.identifier)).value.sink == sink)
  {
    var here := Place(app, sink.appID, sink.identifier);
    assert PlaceRight(s, here);
    forall p | At(s, p).Some? && At(s, p).value.channel < |s.channels|
      ensures Unregistered(s, sink, app).channels[At(s, p).value.channel].closed <==> p == here
    {
      assert PlaceRight(s, p) && Sole(s, p, here);
    }
  }

  /**
    It is not always so: a sink that was removed, replaced under its identifier and then, its run over,
    unregistered once more closes the channel of its running successor.
   */
  lemma SuccessorClosed(first: Sink, second: Sink) returns (states: seq<State>, steps: seq<Step>)
    requires first != second && first.appID == second.appID != "" && first.identifier == second.identifier != ""
    ensures IsRun(states, steps)
    ensures steps == [RegisterApp(first), UnregisterApp(first), RegisterApp(second), UnregisterApp(first)]
    ensures states[3].apps == map[second.appID := map[second.identifier := Wrapper(1, second)]]
    ensures |states[4].channels| == 2 && !states[3].channels[1].closed && states[4].channels[1].closed
  {
    var s0 := Initial();
    var s1 := Registered(s0, first, true);
    var s2 := Unregistered(s1, first, true);
    var s3 := Registered(s2, second, true);
    var s4 := Unregistered(s3, first, true);
    states, steps := [s0, s1, s2, s3, s4], [RegisterApp(first), UnregisterApp(first), RegisterApp(second), UnregisterApp(first)];
    assert s1.apps[first.appID] - {first.identifier} == map[];
    assert s2.apps == map[];
    assert Next(s0, steps[0], s1) && Next(s1, steps[1], s2) && Next(s2, steps[2], s3) && Next(s3, steps[3], s4);
  }
}
