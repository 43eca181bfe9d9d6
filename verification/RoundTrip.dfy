/** When a v1 envelope survives the trip up to v2 and back, in both tag modes: an exact condition. */
module RoundTrip {
  import opened Wrappers
  import opened Text
  import opened Uuids
  import opened Floats
  import opened Envelopes

  // ----- The condition, on the v1 envelope alone -----

  /** No tag uses a name the translators keep for themselves. */
  ghost predicate TagsFree(e: V1) {
    e.tags.Keys !! BASE_KEYS + OwnKeys(e.event)
  }

  /** The source_id and instance_id tags say what the body says. */
  ghost predicate IdsAgree(e: V1) {
    && SourceOf(e) != "" && SourceId in e.tags && e.tags[SourceId] == SourceOf(e)
    && (if InstanceOf(e) == "" then InstanceId !in e.tags
        else InstanceId in e.tags && e.tags[InstanceId] == InstanceOf(e))
  }

  ghost predicate BodySurvives(e: V1) {
    match e.event
    case HttpStartStop(_, _, _, _, _, _, _, _, _, _, applicationId, _, _, forwarded) =>
      && (applicationId == Uuid(0, 0) ==> Uuids.Convert(SourceOf(e)) == Uuid(0, 0))
      && forwarded != [] && (forall f :: f in forwarded ==> '\n' !in f)
    case LogMessage(_, _, logTime, appId, _, _) => appId != "" && logTime == e.timestamp
    case CounterEvent(_, delta, _) => delta == 0
    case ContainerMetric(app, _, _, memory, disk, memoryQuota, diskQuota) =>
      && app != ""
      && Representable(memory) && Representable(disk) && Representable(memoryQuota) && Representable(diskQuota)
    case _ => true
  }

  /**
    What the in-place edit of a preferred tag map costs: the type marker of an error is gone before it is
    read, and a gauge reads the five base tags after they were deleted.
   */
  ghost predicate ModeSurvives(e: V1, preferred: bool) {
    preferred ==>
      && !e.event.Error?
      && (e.event.ValueMetric? || e.event.ContainerMetric? ==>
            e.origin == "" && e.deployment == "" && e.job == "" && e.index == "" && e.ip == "")
  }

  ghost predicate RoundTrips(e: V1, preferred: bool) {
    TagsFree(e) && IdsAgree(e) && BodySurvives(e) && ModeSurvives(e, preferred)
  }

  // ----- Tag maps, apart from any envelope -----

  const ID_KEYS: set<Key> := {SourceId, InstanceId}

  /** Both modes of the v2 envelope carry the same tags. */
  ghost predicate Carries(v: V2, all: Tags) {
    || (v.tags == Some(all) && v.deprecated == map[])
    || (v.tags == None && v.deprecated == AsText(all))
  }

  function Lookup(all: Tags, k: Key): string { if k in all then all[k] else "" }

  lemma Read(v: V2, all: Tags, k: Key)
    requires Carries(v, all)
    ensures GetTag(v, k) == Lookup(all, k)
  {
  }

  lemma Down(v: V2, all: Tags)
    requires Carries(v, all)
    ensures TagsDown(v) == all - BASE_KEYS + Ids(v)
  {
    assert Rendered(AsText(all)) == all;
    assert Rendered(map[]) == map[];
    assert map[] + all == all && all + map[] == all;
  }

  /** After `createBaseV1` a preferred map has lost its base tags; a deprecated one is untouched. */
  lemma After(v: V2, all: Tags)
    requires Carries(v, all)
    ensures Carries(AfterBase(v), if v.tags.Some? then all - BASE_KEYS + Ids(v) else all)
  {
    Down(v, all);
  }

  /** Adding the base and event tags and deleting them again leaves the other tags and the ids. */
  lemma Strip(tags: Tags, base: Tags, own: Tags, ids: Tags)
    requires base.Keys == BASE_KEYS && own.Keys !! ID_KEYS && ids.Keys <= ID_KEYS
    ensures (tags + base - ID_KEYS + own) - BASE_KEYS + ids - own.Keys == tags - BASE_KEYS - own.Keys - ID_KEYS + ids
  {
    var l := (tags + base - ID_KEYS + own) - BASE_KEYS + ids - own.Keys;
    var r := tags - BASE_KEYS - own.Keys - ID_KEYS + ids;
    assert l.Keys == r.Keys;
    assert forall k :: k in l ==> l[k] == r[k];
  }

  function IdTags(source: string, instance: string): Tags {
    (if source != "" then map[SourceId := source] else map[]) + (if instance != "" then map[InstanceId := instance] else map[])
  }

  ghost predicate Agrees(tags: Tags, k: Key, id: string) {
    if id == "" then k !in tags else k in tags && tags[k] == id
  }

  /** The stripped map is the original exactly when it used no reserved name and its ids agree. */
  lemma StripExact(tags: Tags, own: set<Key>, source: string, instance: string)
    requires own !! ID_KEYS
    ensures tags - BASE_KEYS - own - ID_KEYS + IdTags(source, instance) == tags
      <==> tags.Keys !! BASE_KEYS + own && Agrees(tags, SourceId, source) && Agrees(tags, InstanceId, instance)
  {
    var ids := IdTags(source, instance);
    var r := tags - BASE_KEYS - own - ID_KEYS + ids;
    assert SourceId in ids <==> source != "";
    assert InstanceId in ids <==> instance != "";
    assert ids.Keys <= ID_KEYS;
    assert forall k :: k in r <==> k in ids || (k in tags && k !in BASE_KEYS && k !in own && k !in ID_KEYS);
    if r == tags {
      assert SourceId in r <==> SourceId in ids;
      assert InstanceId in r <==> InstanceId in ids;
    } else if tags.Keys !! BASE_KEYS + own && Agrees(tags, SourceId, source) && Agrees(tags, InstanceId, instance) {
      assert r.Keys == tags.Keys;
      assert forall k :: k in r ==> r[k] == tags[k];
      assert false;
    }
  }

  // ----- The envelope's tags -----

  lemma OwnApart(e: Event)
    ensures OwnKeys(e) !! ID_KEYS && OwnKeys(e) !! BASE_KEYS && OwnTags(e).Keys == OwnKeys(e)
  {
  }

  lemma Up(e: V1, preferred: bool)
    ensures Carries(ToV2(e, preferred), TagsUp(e))
    ensures Ids(ToV2(e, preferred)) == IdTags(SourceOf(e), InstanceOf(e))
  {
  }

  /** The tag map that comes back, whatever the mode. */
  function Restored(e: V1): Tags {
    e.tags - BASE_KEYS - OwnKeys(e.event) - ID_KEYS + IdTags(SourceOf(e), InstanceOf(e))
  }

  lemma TagsBack(e: V1, preferred: bool)
    ensures TagsDown(ToV2(e, preferred)) - OwnKeys(e.event) == Restored(e)
  {
    Up(e, preferred);
    OwnApart(e.event);
    Down(ToV2(e, preferred), TagsUp(e));
    assert BaseTags(e).Keys == BASE_KEYS;
    Strip(e.tags, BaseTags(e), OwnTags(e.event), IdTags(SourceOf(e), InstanceOf(e)));
  }

  lemma RestoredExact(e: V1)
    ensures Restored(e) == e.tags <==> TagsFree(e) && IdsAgree(e)
  {
    OwnApart(e.event);
    SourceTagged(e);
    StripExact(e.tags, OwnKeys(e.event), SourceOf(e), InstanceOf(e));
  }

  /** An empty source id can only come from an empty source_id tag. */
  lemma SourceTagged(e: V1)
    ensures SourceOf(e) == "" ==> SourceId in e.tags
  {
    if e.event.HttpStartStop? { Uuids.Pieces(e.event.applicationId); }
  }

  lemma ReadAfter(v: V2, all: Tags, k: Key)
    requires Carries(v, all) && k in all && k !in BASE_KEYS && k !in ID_KEYS
    ensures GetTag(AfterBase(v), k) == all[k]
  {
    After(v, all);
    assert k !in Ids(v);
    Read(AfterBase(v), if v.tags.Some? then all - BASE_KEYS + Ids(v) else all, k);
  }

  /** Reading back a tag that holds one of the event's own fields, after `createBaseV1`. */
  lemma OwnRead(e: V1, preferred: bool, k: Key)
    requires k in OwnKeys(e.event)
    ensures GetTag(AfterBase(ToV2(e, preferred)), k) == OwnText(e.event, k)
  {
    hide GetTag, AfterBase, Carries, OwnText;
    Up(e, preferred);
    OwnApart(e.event);
    ReadAfter(ToV2(e, preferred), TagsUp(e), k);
  }

  // ----- Base fields -----

  lemma BaseUp(e: V1, k: Key)
    requires k in BASE_KEYS
    ensures k in TagsUp(e) && TagsUp(e)[k] == BaseText(e, k)
  {
    OwnApart(e.event);
    assert k !in ID_KEYS;
  }

  lemma BaseRead(e: V1, preferred: bool, k: Key)
    requires k in BASE_KEYS
    ensures GetTag(ToV2(e, preferred), k) == BaseText(e, k)
  {
    Up(e, preferred);
    BaseUp(e, k);
    Read(ToV2(e, preferred), TagsUp(e), k);
  }

  lemma MarkerRead(e: V1, preferred: bool)
    ensures GetTag(AfterBase(ToV2(e, preferred)), V1Type) == if preferred then "" else TypeName(e.event)
  {
    if preferred { BaseGone(e, V1Type); } else { BaseRead(e, false, V1Type); }
  }

  lemma GoneFrom(v: V2, all: Tags, k: Key)
    requires Carries(v, all) && v.tags.Some? && k in BASE_KEYS
    ensures GetTag(AfterBase(v), k) == ""
  {
    After(v, all);
    Read(AfterBase(v), all - BASE_KEYS + Ids(v), k);
  }

  lemma BaseGone(e: V1, k: Key)
    requires k in BASE_KEYS
    ensures GetTag(AfterBase(ToV2(e, true)), k) == ""
  {
    Up(e, true);
    GoneFrom(ToV2(e, true), TagsUp(e), k);
  }

  lemma Assemble(v: V2, dropped: set<Key>, event: Event, e: V1)
    requires GetTag(v, Origin) == e.origin && GetTag(v, Deployment) == e.deployment && GetTag(v, Job) == e.job
    requires GetTag(v, Index) == e.index && GetTag(v, Ip) == e.ip && v.timestamp == e.timestamp
    ensures Base(v, dropped, event) == e.(tags := TagsDown(v) - dropped, event := event)
  {
  }

  lemma BaseBack(e: V1, preferred: bool, event: Event)
    ensures Base(ToV2(e, preferred), OwnKeys(e.event), event) == e.(tags := Restored(e), event := event)
  {
    forall k | k in BASE_KEYS ensures GetTag(ToV2(e, preferred), k) == BaseText(e, k) { BaseRead(e, preferred, k); }
    Assemble(ToV2(e, preferred), OwnKeys(e.event), event, e);
    TagsBack(e, preferred);
  }

  /** A second `createBaseV1` finds the base tags of a preferred map deleted. */
  lemma BaseAgain(e: V1, preferred: bool, event: Event)
    requires OwnKeys(e.event) == {}
    ensures Base(AfterBase(ToV2(e, preferred)), {}, event) ==
      if preferred then V1("", "", "", "", "", e.timestamp, Restored(e), event)
      else e.(tags := Restored(e), event := event)
  {
    if preferred {
      var w := AfterBase(ToV2(e, true));
      forall k | k in BASE_KEYS ensures GetTag(w, k) == "" { BaseGone(e, k); }
      Assemble(w, {}, event, V1("", "", "", "", "", e.timestamp, e.tags, event));
      TagsTwice(e);
    } else {
      BaseBack(e, false, event);
    }
  }

  lemma DownTwice(v: V2, all: Tags)
    requires Carries(v, all) && v.tags.Some?
    ensures TagsDown(AfterBase(v)) == TagsDown(v)
  {
    After(v, all);
    Down(v, all);
    Down(AfterBase(v), all - BASE_KEYS + Ids(v));
    assert Ids(AfterBase(v)) == Ids(v);
    assert all - BASE_KEYS + Ids(v) - BASE_KEYS + Ids(v) == all - BASE_KEYS + Ids(v);
  }

  lemma TagsTwice(e: V1)
    requires OwnKeys(e.event) == {}
    ensures TagsDown(AfterBase(ToV2(e, true))) - {} == Restored(e)
  {
    Up(e, true);
    DownTwice(ToV2(e, true), TagsUp(e));
    TagsBack(e, true);
  }

  // ----- Event by event -----

  /** The event that comes back when the mode does not get in the way. */
  function EventBack(e: V1): Event {
    match e.event
    case HttpStartStop(_, _, _, _, _, _, _, _, _, _, _, _, _, forwarded) =>
      e.event.(applicationId := Uuids.Convert(SourceOf(e)), forwarded := Split(Join(forwarded, '\n'), '\n'))
    case LogMessage(_, _, _, _, _, _) => e.event.(logTime := e.timestamp, appId := SourceOf(e))
    case CounterEvent(_, _, _) => e.event.(delta := 0)
    case ContainerMetric(_, _, _, memory, disk, memoryQuota, diskQuota) =>
      e.event.(app := SourceOf(e), memory := There(memory), disk := There(disk), memoryQuota := There(memoryQuota), diskQuota := There(diskQuota))
    case _ => e.event
  }

  function There(n: Uint64): Uint64 {
    var f := ToUint64(ToDouble(n));
    if f < TWO64 then f else 0
  }

  lemma TruncBack(n: Uint64)
    ensures TruncUint64(ToDouble(n) as real) == There(n)
  {
  }

  lemma IndexBack(i: Int32)
    ensures TruncInt32(i as real) == i
  {
  }

  lemma AtoiBack(i: Int64)
    ensures Atoi(PrintInt(i)) == i
  {
    ParsePrinted(i);
  }

  lemma WrapBack(i: Int32)
    ensures Wrap32(Atoi(PrintInt(i))) == i
  {
    AtoiBack(i);
  }

  /** The numbers and the request id of an HTTP event, parsed back from their tags. */
  lemma HttpParsed(h: Event)
    requires h.HttpStartStop?
    ensures Uuids.Convert(HttpText(h, RequestId)) == h.requestId
    ensures Wrap32(Atoi(HttpText(h, StatusCode))) == h.statusCode
    ensures Atoi(HttpText(h, ContentLength)) == h.contentLength
    ensures Wrap32(Atoi(HttpText(h, InstanceIndexTag))) == h.httpIndex
  {
    hide Uuids.Convert, Uuids.Print, Atoi, PrintInt;
    Uuids.RoundTrip(h.requestId);
    WrapBack(h.statusCode);
    WrapBack(h.httpIndex);
    AtoiBack(h.contentLength);
  }

  lemma HttpFrom(w: V2, h: Event, source: string)
    requires h.HttpStartStop? && forall k :: k in HTTP_KEYS ==> GetTag(w, k) == HttpText(h, k)
    ensures HttpOf(w, source, h.start, h.stop) ==
      h.(applicationId := Uuids.Convert(source), forwarded := Split(HttpText(h, ForwardedTag), '\n'))
  {
    hide Uuids.Convert, Uuids.Print, Atoi, PrintInt, Split, Join, GetTag;
    HttpParsed(h);
  }

  lemma HttpBack(e: V1, preferred: bool)
    requires e.event.HttpStartStop?
    ensures TimerDown(ToV2(e, preferred)) == TripYields(e, preferred)
  {
    hide Uuids.Convert, Uuids.Print, PrintInt, Split, Join, GetTag, Base, AfterBase, HttpOf, SourceOf, TagsUp, InstanceOf, Restored;
    var w := AfterBase(ToV2(e, preferred));
    forall k | k in HTTP_KEYS ensures GetTag(w, k) == HttpText(e.event, k) { OwnRead(e, preferred, k); }
    HttpFrom(w, e.event, SourceOf(e));
    BaseBack(e, preferred, EventBack(e));
  }

  /** What the trip yields, mode included. */
  ghost function TripYields(e: V1, preferred: bool): V1 {
    if preferred && e.event.Error? then
      Base(ToV2(e, true), {SourceType}, LogMessage(e.event.text, OUT, e.timestamp, SourceOf(e), GetTag(AfterBase(ToV2(e, true)), SourceType), InstanceOf(e)))
    else if preferred && (e.event.ValueMetric? || e.event.ContainerMetric?) then
      V1("", "", "", "", "", e.timestamp, Restored(e), EventBack(e))
    else e.(tags := Restored(e), event := EventBack(e))
  }

  lemma ContainerFrom(e: Event, source: string)
    requires e.ContainerMetric?
    ensures var m := MessageOf(e).metrics;
      && IsContainer(m)
      && ContainerOf(source, m) == e.(app := source, memory := There(e.memory), disk := There(e.disk),
                                      memoryQuota := There(e.memoryQuota), diskQuota := There(e.diskQuota))
  {
    var m := MessageOf(e).metrics;
    assert m.Keys == CONTAINER && |m| == |m.Keys| == 6;
    IndexBack(e.index);
    TruncBack(e.memory);
    TruncBack(e.disk);
    TruncBack(e.memoryQuota);
    TruncBack(e.diskQuota);
  }

  lemma ContainerBack(e: V1, preferred: bool, r: seq<V1>)
    requires e.event.ContainerMetric? && IsToV1(ToV2(e, preferred), r)
    ensures r == [TripYields(e, preferred)]
  {
    ContainerFrom(e.event, SourceOf(e));
    BaseAgain(e, preferred, EventBack(e));
  }

  lemma OneMetric(w: V2, name: Metric, g: GaugeValue, r: seq<V1>)
    requires OnePerMetric(w, map[name := Some(g)], r)
    ensures r == [MetricOf(w, name, g)]
  {
    var m := map[name := Some(g)];
    assert m.Keys == {name} && |m| == |m.Keys| == 1;
    assert r[0].event.name in m;
  }

  lemma ValueBack(e: V1, preferred: bool, r: seq<V1>)
    requires e.event.ValueMetric? && IsToV1(ToV2(e, preferred), r)
    ensures r == [TripYields(e, preferred)]
  {
    var m := MessageOf(e.event).metrics;
    assert m.Keys == {e.event.name} && |m| == |m.Keys| == 1;
    OneMetric(AfterBase(ToV2(e, preferred)), e.event.name, GaugeValue(e.event.unit, e.event.value), r);
    BaseAgain(e, preferred, e.event);
  }

  lemma LogBack(e: V1, preferred: bool)
    requires e.event.LogMessage?
    ensures LogDown(ToV2(e, preferred)) == TripYields(e, preferred)
  {
    hide GetTag, Base, AfterBase, SourceOf, TagsUp, Restored;
    MarkerRead(e, preferred);
    BaseBack(e, preferred, EventBack(e));
    OwnRead(e, preferred, SourceType);
  }

  lemma ErrorBack(e: V1, preferred: bool)
    requires e.event.Error?
    ensures LogDown(ToV2(e, preferred)) == TripYields(e, preferred)
  {
    hide GetTag, AfterBase, SourceOf, TagsUp, Restored, PrintInt, Atoi;
    MarkerRead(e, preferred);
    if !preferred {
      BaseBack(e, preferred, EventBack(e));
      OwnRead(e, preferred, Source);
      OwnRead(e, preferred, Code);
      WrapBack(e.event.code);
    }
  }

  lemma CounterBack(e: V1, preferred: bool)
    requires e.event.CounterEvent?
    ensures CounterDown(ToV2(e, preferred)) == TripYields(e, preferred)
  {
    BaseBack(e, preferred, EventBack(e));
  }

  lemma Trip(e: V1, preferred: bool, r: seq<V1>)
    requires IsToV1(ToV2(e, preferred), r)
    ensures r == [TripYields(e, preferred)]
  {
    match e.event
    case HttpStartStop(_, _, _, _, _, _, _, _, _, _, _, _, _, _) => HttpBack(e, preferred);
    case LogMessage(_, _, _, _, _, _) => LogBack(e, preferred);
    case CounterEvent(_, _, _) => CounterBack(e, preferred);
    case Error(_, _, _) => ErrorBack(e, preferred);
    case ValueMetric(_, _, _) => ValueBack(e, preferred, r);
    case ContainerMetric(_, _, _, _, _, _, _) => ContainerBack(e, preferred, r);
  }

  lemma EventExact(e: V1)
    requires IdsAgree(e)
    ensures EventBack(e) == e.event <==> BodySurvives(e)
  {
    match e.event
    case HttpStartStop(_, _, _, _, _, _, _, _, _, _, applicationId, _, _, forwarded) =>
      SplitJoinExact(forwarded, '\n');
      if applicationId != Uuid(0, 0) { Uuids.RoundTrip(applicationId); }
    case ContainerMetric(_, _, _, memory, disk, memoryQuota, diskQuota) =>
      ThereAndBack(memory);
      ThereAndBack(disk);
      ThereAndBack(memoryQuota);
      ThereAndBack(diskQuota);
    case _ =>
  }

  /** For every v1 envelope and both modes: the trip gives the envelope back exactly under the stated condition. */
  lemma RoundTripExact(e: V1, preferred: bool, r: seq<V1>)
    requires IsToV1(ToV2(e, preferred), r)
    ensures r == [e] <==> RoundTrips(e, preferred)
  {
    hide SourceOf, InstanceOf, GetTag, IsToV1, ToV2;
    Trip(e, preferred, r);
    RestoredExact(e);
    if TagsFree(e) && IdsAgree(e) {
      EventExact(e);
    }
    assert r == [e] <==> TripYields(e, preferred) == e;
  }

  /** Preferred tags: an error comes back as a log message, a gauge without origin, deployment, job, index and ip. */
  lemma PreferredLoses(e: V1, r: seq<V1>)
    requires IsToV1(ToV2(e, true), r)
    ensures |r| == 1
    ensures e.event.Error? ==> r[0].event.LogMessage?
    ensures e.event.ValueMetric? || e.event.ContainerMetric? ==>
      r[0].origin == "" && r[0].deployment == "" && r[0].job == "" && r[0].index == "" && r[0].ip == ""
  {
    hide IsToV1, ToV2, GetTag, SourceOf;
    Trip(e, true, r);
  }
}
