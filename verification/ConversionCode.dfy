/** The two translators as they are written: envelopes filled in and tag maps edited step by step. */
module ConversionCode {
  import opened Wrappers
  import opened Envelopes
  import opened RoundTrip
  import Uuids
  import Floats
  import Strings = Text

  // ----- ToV2 -----

  function SetTag(v: V2, k: Key, text: string): V2 {
    if v.tags.Some? then v.(tags := Some(v.tags.value[k := text])) else v.(deprecated := v.deprecated[k := Text(text)])
  }

  function UnsetTag(v: V2, k: Key): V2 {
    v.(deprecated := v.deprecated - {k}, tags := if v.tags.Some? then Some(v.tags.value - {k}) else None)
  }

  lemma SetCarries(v: V2, all: Tags, k: Key, text: string)
    requires Carries(v, all)
    ensures Carries(SetTag(v, k, text), all[k := text]) && SameBut(v, SetTag(v, k, text))
  {
  }

  /** Only the tag map of the mode differs. */
  ghost predicate SameBut(v: V2, r: V2) {
    r == v.(deprecated := r.deprecated, tags := r.tags) && r.tags.Some? == v.tags.Some?
  }

  lemma UnsetCarries(v: V2, all: Tags, k: Key)
    requires Carries(v, all)
    ensures Carries(UnsetTag(v, k), all - {k}) && SameBut(v, UnsetTag(v, k))
  {
    assert AsText(all) - {k} == AsText(all - {k});
  }

  /** `initTags`: share the v1 map, or copy it tag by tag in whatever order the map yields. */
  method InitTags(v: V2, e: V1, preferred: bool) returns (r: V2)
    ensures Carries(r, e.tags) && r.tags.Some? == preferred
    ensures r == v.(deprecated := r.deprecated, tags := r.tags)
  {
    if preferred {
      return v.(deprecated := map[], tags := Some(e.tags));
    }
    r := v.(deprecated := map[], tags := None);
    var rest := e.tags.Keys;
    while rest != {}
      invariant rest <= e.tags.Keys && r.tags.None?
      invariant r.deprecated == AsText(e.tags - rest)
      invariant r == v.(deprecated := r.deprecated, tags := None)
      decreases rest
    {
      var k :| k in rest;
      r := SetTag(r, k, e.tags[k]);
      rest := rest - {k};
    }
    assert e.tags - {} == e.tags;
  }

  function Picked(keys: seq<Key>, more: Tags): Tags { map k | k in keys && k in more :: more[k] }

  /** Stores one text per key, one `setV2Tag` call after the other. */
  method SetAll(v: V2, ghost all: Tags, keys: seq<Key>, more: Tags) returns (r: V2)
    requires Carries(v, all) && forall i :: 0 <= i < |keys| ==> keys[i] in more
    ensures Carries(r, all + Picked(keys, more)) && SameBut(v, r)
  {
    hide SetTag, Carries;
    r := v;
    ghost var cur := all;
    var i := 0;
    while i < |keys|
      invariant 0 <= i <= |keys| && Carries(r, cur) && SameBut(v, r)
      invariant cur == all + Picked(keys[..i], more)
    {
      SetCarries(r, cur, keys[i], more[keys[i]]);
      r := SetTag(r, keys[i], more[keys[i]]);
      cur := cur[keys[i] := more[keys[i]]];
      assert keys[..i + 1] == keys[..i] + [keys[i]];
      assert cur == all + Picked(keys[..i + 1], more);
      i := i + 1;
    }
    assert keys[..i] == keys;
  }

  const BASE_ORDER: seq<Key> := [Origin, Deployment, Job, Index, Ip, V1Type]

  function OwnOrder(e: Event): seq<Key> {
    if e.HttpStartStop? then
      [RequestId, PeerType, Method, Uri, RemoteAddress, UserAgent, StatusCode, ContentLength, InstanceIndexTag,
       RoutingInstanceId, ForwardedTag]
    else if e.LogMessage? then [SourceType]
    else if e.Error? then [Source, Code]
    else []
  }

  /** `ToV2`: base tags, then the two ids taken out of the tags, then what the event adds. */
  method ConvertToV2(e: V1, preferred: bool) returns (v: V2)
    ensures v == ToV2(e, preferred)
  {
    hide OwnTags, OwnOrder, BaseTags, UnsetTag, SourceOf, InstanceOf, MessageOf;
    v := V2(e.timestamp, "", "", map[], None, NoMessage);
    v := InitTags(v, e, preferred);
    Ordered(e);
    v := SetAll(v, e.tags, BASE_ORDER, BaseTags(e));
    ghost var all := e.tags + BaseTags(e);
    v := v.(sourceId := if SourceId in e.tags then e.tags[SourceId] else e.deployment + "/" + e.job);
    UnsetCarries(v, all, SourceId);
    v := UnsetTag(v, SourceId);
    v := v.(instanceId := if InstanceId in e.tags then e.tags[InstanceId] else "");
    UnsetCarries(v, all - {SourceId}, InstanceId);
    v := UnsetTag(v, InstanceId);
    assert all - {SourceId} - {InstanceId} == all - {SourceId, InstanceId};
    v := ConvertEvent(v, e);
    v := SetAll(v, all - {SourceId, InstanceId}, OwnOrder(e.event), OwnTags(e.event));
  }

  /** What the six `convert` functions put in the envelope besides tags. */
  method ConvertEvent(v: V2, e: V1) returns (r: V2)
    requires v.sourceId == TaggedSource(e) && v.instanceId == (if InstanceId in e.tags then e.tags[InstanceId] else "")
    ensures r == v.(sourceId := SourceOf(e), instanceId := InstanceOf(e), message := MessageOf(e.event))
  {
    var t := e.event;
    if t.LogMessage? {
      r := v.(instanceId := t.sourceInstance, sourceId := ConvertAppId(t.appId, v.sourceId), message := Log(t.message, t.messageType));
    } else if t.HttpStartStop? {
      r := v.(sourceId := ConvertAppUuid(t.applicationId, v.sourceId), message := Timer("http", t.start, t.stop));
    } else if t.ValueMetric? {
      r := v.(message := Gauge(map[t.name := Some(GaugeValue(t.unit, t.value))]));
    } else if t.CounterEvent? {
      r := v.(message := Counter(t.counter, Total(t.total)));
    } else if t.Error? {
      r := v.(message := Log(t.text, OUT));
    } else {
      var metrics := SixMetrics(t);
      r := v.(sourceId := ConvertAppId(t.app, v.sourceId), message := Gauge(metrics));
    }
  }

  function ConvertAppId(appId: string, sourceId: string): string { if appId == "" then sourceId else appId }

  function ConvertAppUuid(appId: Uuids.Uuid, sourceId: string): string {
    if appId.low == 0 && appId.high == 0 then sourceId else Uuids.Print(appId)
  }

  method SixMetrics(t: Event) returns (metrics: map<Metric, Option<GaugeValue>>)
    requires t.ContainerMetric?
    ensures metrics == map m | m in CONTAINER :: Some(Reading(t, m))
  {
    metrics := map[
      MInstanceIndex := Some(GaugeValue("index", t.index as real)),
      MCpu := Some(GaugeValue("percentage", t.cpu)),
      MMemory := Some(GaugeValue("bytes", Floats.ToDouble(t.memory) as real)),
      MDisk := Some(GaugeValue("bytes", Floats.ToDouble(t.disk) as real)),
      MMemoryQuota := Some(GaugeValue("bytes", Floats.ToDouble(t.memoryQuota) as real)),
      MDiskQuota := Some(GaugeValue("bytes", Floats.ToDouble(t.diskQuota) as real))];
    assert metrics.Keys == CONTAINER;
  }

  lemma Ordered(e: V1)
    ensures Picked(BASE_ORDER, BaseTags(e)) == BaseTags(e) && forall i :: 0 <= i < |BASE_ORDER| ==> BASE_ORDER[i] in BaseTags(e)
    ensures var keys, own := OwnOrder(e.event), OwnTags(e.event);
      Picked(keys, own) == own && forall i :: 0 <= i < |keys| ==> keys[i] in own
  {
    assert forall k :: k in BASE_ORDER <==> k in BASE_KEYS;
    assert forall k :: k in OwnOrder(e.event) <==> k in OwnKeys(e.event);
  }

  // ----- ToV1 -----

  /** `convertTags`: merge the deprecated tags into the preferred map, in whatever order. */
  method ConvertTags(v: V2) returns (tags: Tags)
    ensures tags == (if v.tags.Some? then v.tags.value else map[]) + Rendered(v.deprecated)
  {
    hide Render;
    ghost var start: Tags := if v.tags.Some? then v.tags.value else map[];
    tags := if v.tags.Some? then v.tags.value else map[];
    var rest := v.deprecated.Keys;
    while rest != {}
      invariant rest <= v.deprecated.Keys
      invariant tags == start + Rendered(v.deprecated - rest)
      decreases rest
    {
      var k :| k in rest;
      if Render(v.deprecated[k]).Some? {
        tags := tags[k := Render(v.deprecated[k]).value];
      }
      rest := rest - {k};
    }
    assert v.deprecated - {} == v.deprecated;
  }

  /** The deletions and insertions of `createBaseV1` on the merged map. */
  method EditTags(v: V2) returns (tags: Tags)
    ensures tags == TagsDown(v)
  {
    hide Rendered;
    tags := ConvertTags(v);
    ghost var merged := tags;
    tags := tags - {V1Type} - {Origin} - {Deployment} - {Job} - {Index} - {Ip};
    SixGone(merged);
    if v.sourceId != "" {
      tags := tags[SourceId := v.sourceId];
    }
    if v.instanceId != "" {
      tags := tags[InstanceId := v.instanceId];
    }
    assert tags == merged - BASE_KEYS + Ids(v);
  }

  lemma SixGone(tags: Tags)
    ensures tags - {V1Type} - {Origin} - {Deployment} - {Job} - {Index} - {Ip} == tags - BASE_KEYS
  {
  }

  /** `createBaseV1`: the base envelope, and the v2 envelope as the in-place edits leave it. */
  method CreateBaseV1(v: V2, event: Event) returns (b: V1, w: V2)
    ensures b == Base(v, {}, event) && b.tags == TagsDown(v) && b.event == event
    ensures w == AfterBase(v) && w.sourceId == v.sourceId
  {
    hide GetTag, TagsDown;
    var tags := EditTags(v);
    assert tags - {} == tags;
    b := V1(GetTag(v, Origin), GetTag(v, Deployment), GetTag(v, Job), GetTag(v, Index), GetTag(v, Ip), v.timestamp, tags, event);
    w := if v.tags.Some? then v.(tags := Some(tags)) else v;
  }

  lemma Settled(t: Tags, d: Tags, ids: Tags)
    requires ids.Keys <= ID_KEYS
    ensures var once := t + d - BASE_KEYS + ids; once + d - BASE_KEYS + ids == once
  {
    var once := t + d - BASE_KEYS + ids;
    var twice := once + d - BASE_KEYS + ids;
    assert twice.Keys == once.Keys;
    assert forall k :: k in once ==> twice[k] == once[k];
  }

  lemma TagsSettled(v: V2)
    ensures v.tags.Some? ==> TagsDown(AfterBase(v)) == TagsDown(v)
  {
    if v.tags.Some? {
      assert Ids(AfterBase(v)) == Ids(v);
      assert Ids(v).Keys <= ID_KEYS;
      Settled(v.tags.value, Rendered(v.deprecated), Ids(v));
    }
  }

  /** Once edited, the v2 envelope looks the same to every further `createBaseV1`. */
  lemma BaseStable(v: V2)
    ensures AfterBase(AfterBase(v)) == AfterBase(v)
  {
    TagsSettled(v);
  }

  /** The metrics walked so far, those outside `rest`, each have their envelope, once. */
  ghost predicate Walked(v: V2, metrics: map<Metric, Option<GaugeValue>>, rest: set<Metric>, r: seq<V1>) {
    && rest <= metrics.Keys && |r| == |metrics.Keys| - |rest|
    && (forall m :: m in metrics && m !in rest ==> metrics[m].Some? && Names(r, m))
    && (forall i :: 0 <= i < |r| ==>
          && r[i].event.ValueMetric? && r[i].event.name in metrics && r[i].event.name !in rest
          && r[i] == MetricOf(v, r[i].event.name, metrics[r[i].event.name].value))
  }

  lemma WalkedMore(v: V2, metrics: map<Metric, Option<GaugeValue>>, rest: set<Metric>, r: seq<V1>, m: Metric)
    requires Walked(v, metrics, rest, r) && m in rest && metrics[m].Some?
    ensures Walked(v, metrics, rest - {m}, r + [MetricOf(v, m, metrics[m].value)])
  {
    hide GetTag, TagsDown;
    var more := r + [MetricOf(v, m, metrics[m].value)];
    assert more[|r|].event.name == m;
    forall n | n in metrics && n !in rest - {m} ensures metrics[n].Some? && Names(more, n) {
      if n != m {
        assert Names(r, n);
        var i :| 0 <= i < |r| && r[i].event.ValueMetric? && r[i].event.name == n;
        assert more[i] == r[i];
      }
    }
  }

  lemma WalkedAll(v: V2, metrics: map<Metric, Option<GaugeValue>>, r: seq<V1>)
    requires Walked(v, metrics, {}, r)
    ensures OnePerMetric(v, metrics, r)
  {
    hide Base;
  }

  /** The loop of `convertGauge` over the metrics, in whatever order the map yields. */
  method ConvertMetrics(v: V2, metrics: map<Metric, Option<GaugeValue>>) returns (r: seq<V1>)
    requires AfterBase(v) == v
    ensures OnePerMetric(v, metrics, r)
  {
    hide Base, AfterBase, TagsDown, Walked, Names;
    r := [];
    var rest := metrics.Keys;
    var w := v;
    assert Walked(v, metrics, rest, r) by { NoneWalked(v, metrics); }
    while rest != {}
      invariant rest <= metrics.Keys && w == v && Walked(v, metrics, rest, r)
      decreases rest
    {
      var m :| m in rest;
      if metrics[m].None? {
        return [];
      }
      var g := metrics[m].value;
      var b;
      b, w := CreateBaseV1(w, ValueMetric(m, g.unit, g.value));
      WalkedMore(v, metrics, rest, r, m);
      r := r + [b];
      rest := rest - {m};
    }
    WalkedAll(v, metrics, r);
  }

  lemma NoneWalked(v: V2, metrics: map<Metric, Option<GaugeValue>>)
    ensures Walked(v, metrics, metrics.Keys, [])
  {
  }

  /** The base envelope with its event filled in and that event's tags deleted. */
  lemma Filled(v: V2, blank: Event, dropped: set<Key>, event: Event)
    ensures Base(v, {}, blank).(tags := TagsDown(v) - dropped, event := event) == Base(v, dropped, event)
  {
  }

  method ConvertToV1(v: V2) returns (r: seq<V1>)
    ensures IsToV1(v, r)
  {
    hide Base, AfterBase, GetTag, TagsDown, HttpOf, ContainerOf, Atoi;
    var blank := CounterEvent("", 0, 0);
    var b, w := CreateBaseV1(v, blank);
    match v.message
    case Log(payload, logType) =>
      if GetTag(w, V1Type) == "Error" {
        var event := Error(GetTag(w, Source), Wrap32(Atoi(GetTag(w, Code))), payload);
        Filled(v, blank, {Source, Code}, event);
        r := [b.(tags := b.tags - {Source, Code}, event := event)];
      } else {
        var event := LogMessage(payload, logType, v.timestamp, v.sourceId, GetTag(w, SourceType), v.instanceId);
        Filled(v, blank, {SourceType}, event);
        r := [b.(tags := b.tags - {SourceType}, event := event)];
      }
    case Counter(name, count) =>
      var event := CounterEvent(name, 0, if count.Total? then count.total else 0);
      Filled(v, blank, {}, event);
      assert b.tags - {} == b.tags;
      r := [b.(event := event)];
    case Timer(_, start, stop) =>
      var event := ConvertTimer(w, v.sourceId, start, stop);
      Filled(v, blank, HTTP_KEYS, event);
      ElevenGone(b.tags);
      r := [b.(tags := b.tags - {PeerType} - {Method} - {RequestId} - {Uri} - {RemoteAddress} - {UserAgent}
                       - {StatusCode} - {ContentLength} - {InstanceIndexTag} - {RoutingInstanceId} - {ForwardedTag},
               event := event)];
    case Gauge(metrics) =>
      r := ConvertGauge(v, w, metrics);
    case NoMessage =>
      r := [];
  }

  lemma ElevenGone(tags: Tags)
    ensures tags - {PeerType} - {Method} - {RequestId} - {Uri} - {RemoteAddress} - {UserAgent} - {StatusCode} - {ContentLength}
      - {InstanceIndexTag} - {RoutingInstanceId} - {ForwardedTag} == tags - HTTP_KEYS
  {
  }

  /** `convertTimer`, field by field from the tags. */
  method ConvertTimer(w: V2, sourceId: string, start: Int64, stop: Int64) returns (event: Event)
    ensures event == HttpOf(w, sourceId, start, stop)
  {
    hide GetTag, Wrap32;
    var verb, peerType := GetTag(w, Method), GetTag(w, PeerType);
    var requestId, applicationId := Uuids.Convert(GetTag(w, RequestId)), Uuids.Convert(sourceId);
    var statusCode, httpIndex := Wrap32(Atoi(GetTag(w, StatusCode))), Wrap32(Atoi(GetTag(w, InstanceIndexTag)));
    var forwarded := Strings.Split(GetTag(w, ForwardedTag), '\n');
    event := HttpStartStop(start, stop, requestId, peerType, verb, GetTag(w, Uri), GetTag(w, RemoteAddress),
                           GetTag(w, UserAgent), statusCode, Atoi(GetTag(w, ContentLength)), applicationId, httpIndex,
                           GetTag(w, RoutingInstanceId), forwarded);
  }

  const REQUIRED: seq<Metric> := [MInstanceIndex, MCpu, MMemory, MDisk, MMemoryQuota, MDiskQuota]

  /** `tryConvertContainerMetric` up to the envelope: a loop over the six names. */
  method HasContainerMetrics(metrics: map<Metric, Option<GaugeValue>>) returns (all: bool)
    ensures all == IsContainer(metrics)
  {
    if |metrics| == 1 {
      return false;
    }
    assert forall m :: m in CONTAINER <==> m in REQUIRED;
    var i := 0;
    while i < |REQUIRED|
      invariant 0 <= i <= |REQUIRED|
      invariant forall j :: 0 <= j < i ==> REQUIRED[j] in metrics && metrics[REQUIRED[j]].Some?
    {
      if REQUIRED[i] !in metrics || metrics[REQUIRED[i]].None? {
        assert REQUIRED[i] in CONTAINER;
        return false;
      }
      i := i + 1;
    }
    return true;
  }

  /** `convertGauge`, called after `ToV1` has already built one base envelope. */
  method ConvertGauge(ghost v: V2, w: V2, metrics: map<Metric, Option<GaugeValue>>) returns (r: seq<V1>)
    requires w == AfterBase(v)
    ensures if IsContainer(metrics) then r == [Base(w, {}, ContainerOf(w.sourceId, metrics))] else OnePerMetric(w, metrics, r)
  {
    hide Base, AfterBase, GetTag, TagsDown, TruncInt32, TruncUint64;
    BaseStable(v);
    var blank := CounterEvent("", 0, 0);
    var c, x := CreateBaseV1(w, blank);
    var all := HasContainerMetrics(metrics);
    if !all {
      r := ConvertMetrics(x, metrics);
      return;
    }
    var event := ContainerMetric(w.sourceId, TruncInt32(metrics[MInstanceIndex].value.value), metrics[MCpu].value.value,
                                 TruncUint64(metrics[MMemory].value.value), TruncUint64(metrics[MDisk].value.value),
                                 TruncUint64(metrics[MMemoryQuota].value.value), TruncUint64(metrics[MDiskQuota].value.value));
    Filled(w, blank, {}, event);
    assert c.tags - {} == c.tags;
    r := [c.(event := event)];
  }

  /** Up and down again with the code itself, for every envelope and both modes. */
  method UpAndDown(e: V1, preferred: bool) returns (r: seq<V1>)
    ensures r == [e] <==> RoundTrip.RoundTrips(e, preferred)
  {
    hide RoundTrip.RoundTrips, IsToV1, ToV2;
    var v := ConvertToV2(e, preferred);
    r := ConvertToV1(v);
    RoundTrip.RoundTripExact(e, preferred, r);
  }
}
