/** What each operation of the sink registry does, place by place and queue by queue. */
module SinkFacts {
  import opened Wrappers
  import opened SinkRegistry

  // ----- Registration and removal -----

  /** A sink is registered exactly if it has an app id, an app sink also an identifier, and its place is free. */
  lemma RegisterExact(s: State, sink: Sink, app: bool, p: Place)
    requires Inv(s)
    ensures
      var t := Apply(s, if app then RegisterApp(sink) else RegisterFirehose(sink));
      var here := Place(app, sink.appID, sink.identifier);
      var ok := sink.appID != "" && (app ==> sink.identifier != "") && At(s, here).None?;
      && At(t, p) == (if ok && p == here then Some(Wrapper(|s.channels|, sink)) else At(s, p))
      && t.channels == s.channels + [Channel([], false, ok)]
  {
    hide Structure;
    FindAdd(if app then s.apps else s.fires, Wrapper(|s.channels|, sink), p.group, p.id);
  }

  /** Removal frees the place and closes its channel, and touches nothing else. */
  lemma UnregisterExact(s: State, sink: Sink, app: bool, p: Place, c: nat)
    requires Inv(s) && c < |s.channels|
    ensures
      var t := Apply(s, if app then UnregisterApp(sink) else UnregisterFirehose(sink));
      var here := Place(app, sink.appID, sink.identifier);
      && |t.channels| == |s.channels|
      && At(t, p) == (if p == here then None else At(s, p))
      && t.channels[c] ==
         (if At(s, here).Some? && At(s, here).value.channel == c then s.channels[c].(closed := true) else s.channels[c])
  {
    TidyOf(s);
    hide Inv;
    FindRemove(if app then s.apps else s.fires, sink.appID, sink.identifier, p.group, p.id);
  }

  lemma TidyOf(s: State)
    requires Inv(s)
    ensures Tidy(s.apps) && Tidy(s.fires)
  {
  }

  // ----- Broadcast -----

  function BroadcastStep(appID: string, errors: bool, msg: nat, picks: map<string, string>): Step {
    if errors then BroadcastError(appID, msg, picks) else Broadcast(appID, msg, picks)
  }

  /** Is the sink at this place one that the message is for? */
  predicate Reached(p: Place, w: Wrapper, appID: string, errors: bool, picks: map<string, string>) {
    if p.app then p.group == appID && (!errors || w.sink.receivesErrors)
    else p.group in picks && picks[p.group] == p.id
  }

  lemma InAppTargets(s: State, p: Place, appID: string, errors: bool)
    requires Inv(s) && At(s, p).Some?
    ensures At(s, p).value.channel in AppTargets(s, appID, errors) <==>
      p.app && p.group == appID && (!errors || At(s, p).value.sink.receivesErrors)
  {
    hide PlaceRight, Owned;
    if At(s, p).value.channel in AppTargets(s, appID, errors) {
      var id :| id in Members(s.apps, appID) && (!errors || s.apps[appID][id].sink.receivesErrors)
        && s.apps[appID][id].channel == At(s, p).value.channel;
      if p != Place(true, appID, id) {
        OneOwner(s, p, Place(true, appID, id));
      }
    }
  }

  lemma InFireTargets(s: State, p: Place, picks: map<string, string>)
    requires Inv(s) && PicksRight(s, picks) && At(s, p).Some?
    ensures At(s, p).value.channel in FireTargets(s, picks) <==> !p.app && p.group in picks && picks[p.group] == p.id
  {
    hide PlaceRight, Owned;
    if At(s, p).value.channel in FireTargets(s, picks) {
      var g :| g in picks && s.fires[g][picks[g]].channel == At(s, p).value.channel;
      if p != Place(false, g, picks[g]) {
        OneOwner(s, p, Place(false, g, picks[g]));
      }
    }
  }

  /**
    A broadcast appends the message to the queue of every sink it is for that has fewer than 128 waiting: every sink
    of the app, or of those the ones that take errors, and the picked one of each subscription. No other queue changes.
   */
  lemma BroadcastExact(s: State, appID: string, errors: bool, msg: nat, picks: map<string, string>, p: Place)
    requires Inv(s) && PicksRight(s, picks) && At(s, p).Some?
    ensures
      var t := Apply(s, BroadcastStep(appID, errors, msg, picks));
      var w := At(s, p).value;
      && t.apps == s.apps && t.fires == s.fires && |t.channels| == |s.channels| && w.channel < |s.channels|
      && t.channels[w.channel].queue ==
         (if Reached(p, w, appID, errors, picks) && |s.channels[w.channel].queue| < 128
          then s.channels[w.channel].queue + [msg] else s.channels[w.channel].queue)
  {
    hide Inv, At, AppTargets, FireTargets, Apply, BroadcastStep;
    StandsAt(s, p);
    InAppTargets(s, p, appID, errors);
    InFireTargets(s, p, picks);
    BroadcastQueue(s, appID, errors, msg, picks, At(s, p).value.channel);
  }

  lemma BroadcastQueue(s: State, appID: string, errors: bool, msg: nat, picks: map<string, string>, c: nat)
    requires PicksRight(s, picks) && c < |s.channels|
    requires !(c in AppTargets(s, appID, errors) && c in FireTargets(s, picks))
    ensures
      var t := Apply(s, BroadcastStep(appID, errors, msg, picks));
      && t.apps == s.apps && t.fires == s.fires && |t.channels| == |s.channels|
      && t.channels[c].queue ==
         (if (c in AppTargets(s, appID, errors) || c in FireTargets(s, picks)) && |s.channels[c].queue| < 128
          then s.channels[c].queue + [msg] else s.channels[c].queue)
  {
    hide AppTargets, FireTargets, PicksRight;
  }

  lemma StandsAt(s: State, p: Place)
    requires Inv(s) && At(s, p).Some?
    ensures At(s, p).value.channel < |s.channels|
  {
    assert PlaceRight(s, p);
  }

  /** A channel without an owner is never offered anything. */
  lemma OthersUntouched(s: State, appID: string, errors: bool, msg: nat, picks: map<string, string>, c: nat)
    requires Inv(s) && PicksRight(s, picks) && c < |s.channels|
    requires forall p :: At(s, p).Some? ==> At(s, p).value.channel != c
    ensures Apply(s, BroadcastStep(appID, errors, msg, picks)).channels[c] == s.channels[c]
  {
    hide Structure, AppTargets, FireTargets, At;
    if c in AppTargets(s, appID, errors) || c in FireTargets(s, picks) {
      TargetOwned(s, appID, errors, picks, c);
    }
  }

  lemma TargetOwned(s: State, appID: string, errors: bool, picks: map<string, string>, c: nat)
    requires PicksRight(s, picks) && (c in AppTargets(s, appID, errors) || c in FireTargets(s, picks))
    ensures exists p :: At(s, p).Some? && At(s, p).value.channel == c
  {
    if c in AppTargets(s, appID, errors) {
      var id :| id in Members(s.apps, appID) && s.apps[appID][id].channel == c;
      assert At(s, Place(true, appID, id)).value.channel == c;
    } else {
      var g :| g in picks && s.fires[g][picks[g]].channel == c;
      assert At(s, Place(false, g, picks[g])).value.channel == c;
    }
  }

  // ----- Which drops go to which metric -----

  /** The app's sinks that the message is for and that have 128 waiting. */
  function FullSinks(s: State, appID: string, errors: bool): set<string> {
    set id | id in Members(s.apps, appID) && (!errors || s.apps[appID][id].sink.receivesErrors)
             && s.apps[appID][id].channel < |s.channels| && |s.channels[s.apps[appID][id].channel].queue| >= 128
  }

  /** The subscriptions whose picked sink has 128 waiting. */
  function FullPicks(s: State, picks: map<string, string>): set<string>
    requires PicksRight(s, picks)
  {
    set g | g in picks && s.fires[g][picks[g]].channel < |s.channels| && |s.channels[s.fires[g][picks[g]].channel].queue| >= 128
  }

  lemma AppDrops(s: State, appID: string, errors: bool)
    requires Inv(s)
    ensures |FullAmong(s.channels, AppTargets(s, appID, errors))| == |FullSinks(s, appID, errors)|
  {
    hide Structure;
    var ids := FullSinks(s, appID, errors);
    var image := map id | id in ids :: s.apps[appID][id].channel;
    forall a, b | a in ids && b in ids && image[a] == image[b] ensures a == b {
      if a != b { OneOwner(s, Place(true, appID, a), Place(true, appID, b)); }
    }
    ImageSize(ids, image);
    AppFull(s, appID, errors, ids, image);
  }

  lemma AppFull(s: State, appID: string, errors: bool, ids: set<string>, image: map<string, nat>)
    requires ids == FullSinks(s, appID, errors) == image.Keys && forall id :: id in ids ==> image[id] == s.apps[appID][id].channel
    ensures FullAmong(s.channels, AppTargets(s, appID, errors)) == set k | k in ids :: image[k]
  {
    var full, shown := FullAmong(s.channels, AppTargets(s, appID, errors)), set k | k in ids :: image[k];
    forall c | c in full ensures c in shown {
      var id :| id in Members(s.apps, appID) && (!errors || s.apps[appID][id].sink.receivesErrors) && s.apps[appID][id].channel == c;
      assert id in ids && image[id] == c;
    }
    forall c | c in shown ensures c in full {
      var id :| id in ids && image[id] == c;
    }
  }

  lemma FireFull(s: State, picks: map<string, string>, gs: set<string>, image: map<string, nat>)
    requires PicksRight(s, picks) && gs == FullPicks(s, picks) == image.Keys
    requires forall g :: g in gs ==> image[g] == s.fires[g][picks[g]].channel
    ensures FullAmong(s.channels, FireTargets(s, picks)) == set k | k in gs :: image[k]
  {
    var full, shown := FullAmong(s.channels, FireTargets(s, picks)), set k | k in gs :: image[k];
    forall c | c in full ensures c in shown {
      var g :| g in picks && s.fires[g][picks[g]].channel == c;
      assert g in gs && image[g] == c;
    }
    forall c | c in shown ensures c in full {
      var g :| g in gs && image[g] == c;
    }
  }

  lemma FireDrops(s: State, picks: map<string, string>)
    requires Inv(s) && PicksRight(s, picks)
    ensures |FullAmong(s.channels, FireTargets(s, picks))| == |FullPicks(s, picks)|
  {
    hide Structure;
    var gs := FullPicks(s, picks);
    var image := map g | g in gs :: s.fires[g][picks[g]].channel;
    forall a, b | a in gs && b in gs && image[a] == image[b] ensures a == b {
      if a != b { OneOwner(s, Place(false, a, picks[a]), Place(false, b, picks[b])); }
    }
    ImageSize(gs, image);
    FireFull(s, picks, gs, image);
  }

  /** Offers to the app's sinks do not fill a firehose channel. */
  lemma SameFull(s: State, appID: string, errors: bool, msg: nat, picks: map<string, string>)
    requires Inv(s) && PicksRight(s, picks)
    ensures
      var u := AppSent(s, AppTargets(s, appID, errors), errors, msg);
      FullAmong(u.channels, FireTargets(s, picks)) == FullAmong(s.channels, FireTargets(s, picks))
  {
    hide Structure;
    var u := AppSent(s, AppTargets(s, appID, errors), errors, msg);
    forall c | c in FireTargets(s, picks) && c < |s.channels| ensures u.channels[c] == s.channels[c] {
      AppNotFire(s, appID, picks, c);
      assert c in AppTargets(s, appID, errors) ==> c in AppTargets(s, appID, false);
    }
  }

  /** Lost errors of app sinks are counted apart; everything else that is lost counts as dropped. */
  lemma DropsCounted(s: State, appID: string, errors: bool, msg: nat, picks: map<string, string>)
    requires Inv(s) && PicksRight(s, picks)
    ensures
      var t := Apply(s, BroadcastStep(appID, errors, msg, picks));
      var app, fire := |FullSinks(s, appID, errors)|, |FullPicks(s, picks)|;
      && t.errorsDropped == s.errorsDropped + (if errors then app else 0)
      && t.dropped == s.dropped + fire + (if errors then 0 else app)
  {
    hide Inv, FullAmong, AppTargets, FireTargets, FullSinks, FullPicks, OfferTo, ClosedAmong;
    AppDrops(s, appID, errors);
    FireDrops(s, picks);
    SameFull(s, appID, errors, msg, picks);
  }

  // ----- Runs -----

  ghost predicate Bounded(s: State) {
    forall c :: 0 <= c < |s.channels| ==> |s.channels[c].queue| <= 128
  }

  /** No channel ever holds more than it was made for. */
  lemma {:induction false} BoundedAlways(states: seq<State>, steps: seq<Step>, i: nat)
    requires IsRun(states, steps) && i < |states|
    ensures Bounded(states[i])
  {
    hide Bounded, Apply;
    if i == 0 {
      assert Bounded(states[0]) by { BoundedStart(); }
    } else {
      BoundedAlways(states, steps, i - 1);
      assert Next(states[i - 1], steps[i - 1], states[i]);
      BoundedStep(states[i - 1], steps[i - 1]);
    }
  }

  lemma BoundedStart()
    ensures Bounded(Initial())
  {
  }

  lemma BoundedStep(s: State, step: Step)
    requires Bounded(s) && Enabled(s, step)
    ensures Bounded(Apply(s, step))
  {
    hide Find, Remove, Add, Members, AppTargets, FireTargets, Everyone, ClosedAmong, FullAmong, Acceptable;
    if step.Broadcast? {
      SentBounded(s, AppTargets(s, step.appID, false), FireTargets(s, step.picks), false, step.msg);
    } else if step.BroadcastError? {
      SentBounded(s, AppTargets(s, step.appID, true), FireTargets(s, step.picks), true, step.msg);
    }
  }

  lemma OfferedBounded(s: State, targets: set<nat>, msg: nat)
    requires Bounded(s)
    ensures Bounded(Offered(s, targets, msg))
  {
  }

  lemma SentBounded(s: State, appTargets: set<nat>, fireTargets: set<nat>, errors: bool, msg: nat)
    requires Bounded(s)
    ensures Bounded(Sent(s, appTargets, fireTargets, errors, msg))
  {
    hide Offered, FullAmong;
    OfferedBounded(s, appTargets, msg);
    OfferedBounded(AppSent(s, appTargets, errors, msg), fireTargets, msg);
  }
}
