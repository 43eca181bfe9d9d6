/**
  What the two translators promise beyond the round trip, in terms of the envelopes alone: numbers and texts that only
  a foreign v2 envelope carries, which of two tags of one name wins, and what a v2 consumer sees.
 */
module ConversionFacts {
  import opened Wrappers
  import opened Envelopes
  import Strings = Text
  import Uuids

  // ----- Down -----

  /** A tag that none of the translator's own names: neither base, nor id, nor a field of the event it came with. */
  ghost predicate Ordinary(k: Key, e: Event) {
    k !in BASE_KEYS && k != SourceId && k != InstanceId && k !in OwnKeys(e)
  }

  lemma TagsOfBase(v: V2, dropped: set<Key>, event: Event, k: Key)
    requires k !in BASE_KEYS && k !in dropped && k != SourceId && k != InstanceId
    ensures k in v.deprecated && Render(v.deprecated[k]).Some? ==>
      k in Base(v, dropped, event).tags && Base(v, dropped, event).tags[k] == Render(v.deprecated[k]).value
    ensures k !in v.deprecated && v.tags.Some? && k in v.tags.value ==>
      k in Base(v, dropped, event).tags && Base(v, dropped, event).tags[k] == v.tags.value[k]
  {
  }

  lemma EditedKeeps(v: V2, k: Key)
    requires k !in BASE_KEYS && k != SourceId && k != InstanceId
    ensures AfterBase(v).deprecated == v.deprecated
    ensures k in v.deprecated && Render(v.deprecated[k]).Some? ==> GetTag(AfterBase(v), k) == Render(v.deprecated[k]).value
    ensures k !in v.deprecated && v.tags.Some? && k in v.tags.value ==> GetTag(AfterBase(v), k) == v.tags.value[k]
    ensures k !in v.deprecated && v.tags.Some? ==> (k in v.tags.value <==> k in AfterBase(v).tags.value)
    ensures v.tags.Some? && k in v.tags.value && k !in v.deprecated ==> AfterBase(v).tags.value[k] == v.tags.value[k]
  {
  }

  lemma BaseEvent(v: V2, dropped: set<Key>, event: Event)
    ensures Base(v, dropped, event).event == event && Base(v, dropped, event).timestamp == v.timestamp
  {
    hide GetTag, TagsDown;
  }

  /** Every v1 envelope that comes out is a base envelope, less the tags of its event's own fields. */
  lemma EachIsBase(v: V2, r: seq<V1>, j: nat) returns (x: V2)
    requires IsToV1(v, r) && j < |r|
    ensures x == (if v.message.Gauge? then AfterBase(v) else v) && r[j] == Base(x, OwnKeys(r[j].event), r[j].event)
  {
    hide Base, AfterBase, GetTag, HttpOf, ContainerOf, Atoi, Wrap32;
    x := if v.message.Gauge? then AfterBase(v) else v;
    match v.message
    case Log(_, _) =>
      var w := AfterBase(v);
      BaseEvent(v, {Source, Code}, Error(GetTag(w, Source), Wrap32(Atoi(GetTag(w, Code))), v.message.payload));
      BaseEvent(v, {SourceType},
                LogMessage(v.message.payload, v.message.logType, v.timestamp, v.sourceId, GetTag(w, SourceType), v.instanceId));
    case Counter(name, count) =>
      BaseEvent(v, {}, CounterEvent(name, 0, if count.Total? then count.total else 0));
    case Timer(_, start, stop) =>
      var event := HttpOf(AfterBase(v), v.sourceId, start, stop);
      assert event.HttpStartStop? by { IsHttp(AfterBase(v), v.sourceId, start, stop); }
      BaseEvent(v, HTTP_KEYS, event);
    case Gauge(metrics) =>
      if IsContainer(metrics) {
        var event := ContainerOf(v.sourceId, metrics);
        assert event.ContainerMetric? by { IsContainerEvent(v.sourceId, metrics); }
        BaseEvent(x, {}, event);
      } else {
        var name := r[j].event.name;
        BaseEvent(x, {}, ValueMetric(name, metrics[name].value.unit, metrics[name].value.value));
      }
    case NoMessage =>
  }

  lemma IsHttp(w: V2, sourceId: string, start: Int64, stop: Int64)
    ensures HttpOf(w, sourceId, start, stop).HttpStartStop?
  {
    hide GetTag, Atoi, Wrap32;
  }

  lemma IsContainerEvent(sourceId: string, metrics: map<Metric, Option<GaugeValue>>)
    requires IsContainer(metrics)
    ensures ContainerOf(sourceId, metrics).ContainerMetric?
  {
    hide TruncInt32, TruncUint64;
  }

  /** Every ordinary deprecated tag, of whatever type, is in each v1 envelope that comes out. */
  lemma DeprecatedStays(v: V2, r: seq<V1>, j: nat, k: Key)
    requires IsToV1(v, r) && j < |r| && Ordinary(k, r[j].event) && k in v.deprecated && !v.deprecated[k].Unset?
    ensures k in r[j].tags && Some(r[j].tags[k]) == Render(v.deprecated[k])
  {
    hide IsToV1, Base, AfterBase, Render, OwnKeys;
    Renders(v.deprecated[k]);
    var x := EachIsBase(v, r, j);
    EditedKeeps(v, k);
    TagsOfBase(x, OwnKeys(r[j].event), r[j].event, k);
  }

  lemma Renders(x: Value)
    ensures !x.Unset? ==> Render(x).Some?
  {
  }

  /** An integer tag that stays in the v1 map is its decimal text: it parses back to the integer. */
  lemma IntegerTagParses(v: V2, r: seq<V1>, j: nat, k: Key, i: Int64)
    requires IsToV1(v, r) && j < |r| && Ordinary(k, r[j].event) && k in v.deprecated && v.deprecated[k] == Integer(i)
    ensures k in r[j].tags && Strings.ParseInt(r[j].tags[k]) == Some(i)
  {
    hide IsToV1;
    DeprecatedStays(v, r, j, k);
    Strings.ParsePrinted(i);
  }

  /** A text or decimal tag that stays is its own text. */
  lemma TextTagStays(v: V2, r: seq<V1>, j: nat, k: Key, text: string)
    requires IsToV1(v, r) && j < |r| && Ordinary(k, r[j].event) && k in v.deprecated
    requires v.deprecated[k] == Text(text) || v.deprecated[k] == Decimal(text)
    ensures k in r[j].tags && r[j].tags[k] == text
  {
    hide IsToV1;
    DeprecatedStays(v, r, j, k);
  }

  /** A preferred tag with no deprecated one of its name stays as it is. */
  lemma PreferredTagStays(v: V2, r: seq<V1>, j: nat, k: Key)
    requires IsToV1(v, r) && j < |r| && Ordinary(k, r[j].event)
    requires v.tags.Some? && k in v.tags.value && k !in v.deprecated
    ensures k in r[j].tags && r[j].tags[k] == v.tags.value[k]
  {
    hide IsToV1, Base, AfterBase, Render, OwnKeys;
    var x := EachIsBase(v, r, j);
    EditedKeeps(v, k);
    assert x.tags.Some? && k in x.tags.value && x.tags.value[k] == v.tags.value[k] by { EditedPreferred(v, k); }
    TagsOfBase(x, OwnKeys(r[j].event), r[j].event, k);
  }

  lemma EditedPreferred(v: V2, k: Key)
    requires k !in BASE_KEYS && k != SourceId && k != InstanceId && v.tags.Some? && k in v.tags.value && k !in v.deprecated
    ensures AfterBase(v).tags.Some? && k in AfterBase(v).tags.value && AfterBase(v).tags.value[k] == v.tags.value[k]
  {
    hide GetTag;
  }

  /** The integers of a timer come down as numbers, whatever their size. */
  lemma TimerIntegers(v: V2, r: seq<V1>, i: Int64)
    requires v.message.Timer? && IsToV1(v, r)
    ensures |r| == 1 && r[0].event.HttpStartStop?
    ensures ContentLength in v.deprecated && v.deprecated[ContentLength] == Integer(i) ==> r[0].event.contentLength == i
    ensures -0x8000_0000 <= i < 0x8000_0000 && StatusCode in v.deprecated && v.deprecated[StatusCode] == Integer(i) ==>
      r[0].event.statusCode == i
    ensures -0x8000_0000 <= i < 0x8000_0000 && InstanceIndexTag in v.deprecated && v.deprecated[InstanceIndexTag] == Integer(i) ==>
      r[0].event.httpIndex == i
  {
    hide GetTag, AfterBase, Base, Wrap32, Atoi;
    var x, w := v.message, AfterBase(v);
    BaseEvent(v, HTTP_KEYS, HttpOf(w, v.sourceId, x.start, x.stop));
    NumberTag(v, ContentLength, i);
    NumberTag(v, StatusCode, i);
    NumberTag(v, InstanceIndexTag, i);
    SmallNumber(i);
  }

  lemma NumberTag(v: V2, k: Key, i: Int64)
    requires k !in BASE_KEYS && k != SourceId && k != InstanceId
    ensures k in v.deprecated && v.deprecated[k] == Integer(i) ==> Atoi(GetTag(AfterBase(v), k)) == i
  {
    hide GetTag, AfterBase, Strings.PrintInt, Strings.ParseInt;
    EditedKeeps(v, k);
    Strings.ParsePrinted(i);
  }

  lemma SmallNumber(i: Int64)
    ensures -0x8000_0000 <= i < 0x8000_0000 ==> Wrap32(i) == i
  {
  }

  /** Text fields of a timer and of a log message are their tags. */
  lemma TextFields(v: V2, r: seq<V1>, text: string)
    requires IsToV1(v, r) && |r| == 1
    ensures v.message.Timer? && Uri in v.deprecated && v.deprecated[Uri] == Text(text) ==>
      r[0].event.HttpStartStop? && r[0].event.uri == text
    ensures v.message.Log? && r[0].event.LogMessage? && SourceType in v.deprecated && v.deprecated[SourceType] == Text(text) ==>
      r[0].event.sourceType == text
  {
    hide GetTag, AfterBase, Base, Wrap32, Atoi;
    var w := AfterBase(v);
    EditedKeeps(v, Uri);
    EditedKeeps(v, SourceType);
    if v.message.Timer? {
      BaseEvent(v, HTTP_KEYS, HttpOf(w, v.sourceId, v.message.start, v.message.stop));
    } else if v.message.Log? {
      BaseEvent(v, {Source, Code}, Error(GetTag(w, Source), Wrap32(Atoi(GetTag(w, Code))), v.message.payload));
      BaseEvent(v, {SourceType},
                LogMessage(v.message.payload, v.message.logType, v.timestamp, v.sourceId, GetTag(w, SourceType), v.instanceId));
    }
  }

  /** The type marker decides: a log that says it was an error comes down as one, with its code as a number. */
  lemma LogOrError(v: V2, r: seq<V1>, i: Int64)
    requires v.message.Log? && IsToV1(v, r) && v.tags.None? && V1Type in v.deprecated && v.deprecated[V1Type].Text?
    ensures |r| == 1
    ensures v.deprecated[V1Type].text == "Error" <==> r[0].event.Error?
    ensures v.deprecated[V1Type].text != "Error" <==> r[0].event.LogMessage?
    ensures r[0].event.Error? && -0x8000_0000 <= i < 0x8000_0000 && Code in v.deprecated && v.deprecated[Code] == Integer(i) ==>
      r[0].event.code == i
  {
    hide Base, Wrap32, Atoi;
    var w := AfterBase(v);
    NumberTag(v, Code, i);
    SmallNumber(i);
    BaseEvent(v, {Source, Code}, Error(GetTag(w, Source), Wrap32(Atoi(GetTag(w, Code))), v.message.payload));
    BaseEvent(v, {SourceType},
              LogMessage(v.message.payload, v.message.logType, v.timestamp, v.sourceId, GetTag(w, SourceType), v.instanceId));
  }

  ghost predicate Plain(v: V2) { v.message.Log? || v.message.Counter? || v.message.Timer? }

  /** Base fields are read before the two tag maps are merged: there a preferred tag wins over a deprecated one. */
  lemma PreferredBaseWins(v: V2, r: seq<V1>, k: Key)
    requires Plain(v) && IsToV1(v, r) && v.tags.Some? && k in v.tags.value
    ensures |r| == 1
    ensures k == Origin ==> r[0].origin == v.tags.value[k]
    ensures k == Deployment ==> r[0].deployment == v.tags.value[k]
    ensures k == Job ==> r[0].job == v.tags.value[k]
    ensures k == Index ==> r[0].index == v.tags.value[k]
    ensures k == Ip ==> r[0].ip == v.tags.value[k]
  {
    hide TagsDown, HttpOf, Atoi;
  }

  /** The merged map, and every field read after the merge, take the deprecated one instead. */
  lemma DeprecatedWins(v: V2, r: seq<V1>, j: nat, k: Key, text: string)
    requires IsToV1(v, r) && j < |r| && Ordinary(k, r[j].event) && k in v.deprecated && v.deprecated[k] == Text(text)
    requires v.tags.Some? && k in v.tags.value && v.tags.value[k] != text
    ensures k in r[j].tags && r[j].tags[k] == text != v.tags.value[k]
  {
    hide IsToV1;
    TextTagStays(v, r, j, k, text);
  }

  /** A counter keeps its name and total; one that was sent as a delta comes down with total 0. */
  lemma CounterTotals(v: V2, r: seq<V1>)
    requires v.message.Counter? && IsToV1(v, r)
    ensures |r| == 1
    ensures v.message.count.Total? ==> r[0].event == CounterEvent(v.message.name, 0, v.message.count.total)
    ensures !v.message.count.Total? ==> r[0].event == CounterEvent(v.message.name, 0, 0)
  {
    hide GetTag, TagsDown;
  }

  /** The ids become tags, and an envelope without a message comes down as nothing. */
  lemma IdsBecomeTags(v: V2, r: seq<V1>, j: nat)
    requires IsToV1(v, r) && j < |r|
    ensures !v.message.NoMessage?
    ensures v.sourceId != "" ==> SourceId in r[j].tags && r[j].tags[SourceId] == v.sourceId
    ensures v.instanceId != "" ==> InstanceId in r[j].tags && r[j].tags[InstanceId] == v.instanceId
    ensures r[j].timestamp == v.timestamp
  {
    hide IsToV1, Base, AfterBase;
    assert !v.message.NoMessage? by { NothingDown(v, r); }
    var x := EachIsBase(v, r, j);
    assert x.sourceId == v.sourceId && x.instanceId == v.instanceId && x.timestamp == v.timestamp by { EditedIds(v); }
    IdsInBase(x, OwnKeys(r[j].event), r[j].event);
    BaseEvent(x, OwnKeys(r[j].event), r[j].event);
  }

  lemma NothingDown(v: V2, r: seq<V1>)
    requires IsToV1(v, r)
    ensures v.message.NoMessage? ==> r == []
  {
    hide Base, AfterBase, GetTag;
  }

  lemma EditedIds(v: V2)
    ensures AfterBase(v) == v.(tags := AfterBase(v).tags)
  {
    hide TagsDown;
  }

  lemma IdsInBase(v: V2, dropped: set<Key>, event: Event)
    requires SourceId !in dropped && InstanceId !in dropped
    ensures v.sourceId != "" ==> SourceId in Base(v, dropped, event).tags && Base(v, dropped, event).tags[SourceId] == v.sourceId
    ensures v.instanceId != "" ==> InstanceId in Base(v, dropped, event).tags && Base(v, dropped, event).tags[InstanceId] == v.instanceId
  {
    hide GetTag, Rendered;
  }

  // ----- Up -----

  /** Reads a tag of the v2 envelope where its mode keeps it. */
  function TagOf(v: V2, preferred: bool, k: Key): Option<string> {
    if preferred then (if v.tags.Some? && k in v.tags.value then Some(v.tags.value[k]) else None)
    else if k in v.deprecated && v.deprecated[k].Text? then Some(v.deprecated[k].text) else None
  }

  /** Whose envelope it is: the application of the event, else the source_id tag, else deployment and job. */
  lemma SourceUp(e: V1, preferred: bool)
    ensures
      var v := ToV2(e, preferred);
      && (e.event.LogMessage? && e.event.appId != "" ==> v.sourceId == e.event.appId)
      && (e.event.ContainerMetric? && e.event.app != "" ==> v.sourceId == e.event.app)
      && (e.event.HttpStartStop? && e.event.applicationId != Uuids.Uuid(0, 0) ==> v.sourceId == Uuids.Print(e.event.applicationId))
      && (e.event.ValueMetric? || e.event.CounterEvent? || e.event.Error? ==>
            v.sourceId == if SourceId in e.tags then e.tags[SourceId] else e.deployment + "/" + e.job)
      && (e.event.LogMessage? ==> v.instanceId == e.event.sourceInstance)
      && (!e.event.LogMessage? && InstanceId in e.tags ==> v.instanceId == e.tags[InstanceId])
      && TagOf(v, preferred, SourceId).None? && TagOf(v, preferred, InstanceId).None?
  {
    hide TagsUp, AsText, MessageOf;
    NoIdTags(e);
  }

  lemma NoIdTags(e: V1)
    ensures SourceId !in TagsUp(e) && InstanceId !in TagsUp(e)
    ensures SourceId !in AsText(TagsUp(e)) && InstanceId !in AsText(TagsUp(e))
  {
    hide OwnTags, BaseTags;
    OwnKeysAre(e.event);
  }

  lemma OwnKeysAre(e: Event)
    ensures OwnTags(e).Keys == OwnKeys(e) && SourceId !in OwnKeys(e) && InstanceId !in OwnKeys(e) && OwnKeys(e) !! BASE_KEYS
  {
    hide OwnTags;
    OwnTagKeys(e);
  }

  lemma OwnTagKeys(e: Event)
    ensures OwnTags(e).Keys == OwnKeys(e)
  {
    hide OwnText, OwnKeys;
  }

  /** What a v2 consumer of metrics sees: names, units and values. */
  lemma MetricsUp(e: V1, preferred: bool)
    ensures
      var m := ToV2(e, preferred).message;
      && (e.event.ValueMetric? ==> m == Gauge(map[e.event.name := Some(GaugeValue(e.event.unit, e.event.value))]))
      && (e.event.CounterEvent? ==> m == Counter(e.event.counter, Total(e.event.total)))
      && (e.event.ContainerMetric? ==>
            && m.Gauge? && m.metrics.Keys == {MInstanceIndex, MCpu, MMemory, MDisk, MMemoryQuota, MDiskQuota}
            && m.metrics[MInstanceIndex] == Some(GaugeValue("index", e.event.index as real))
            && m.metrics[MCpu] == Some(GaugeValue("percentage", e.event.cpu))
            && (forall x :: x in {MMemory, MDisk, MMemoryQuota, MDiskQuota} ==> m.metrics[x].Some? && m.metrics[x].value.unit == "bytes"))
  {
    hide TagsUp, SourceOf, InstanceOf, AsText;
  }

  /** ... and of logs, errors and requests. */
  lemma LogsUp(e: V1, preferred: bool)
    ensures
      var v := ToV2(e, preferred);
      && v.timestamp == e.timestamp
      && (e.event.LogMessage? ==> v.message == Log(e.event.message, e.event.messageType))
      && (e.event.Error? ==> v.message == Log(e.event.text, OUT))
      && (e.event.HttpStartStop? ==> v.message == Timer("http", e.event.start, e.event.stop))
  {
    hide TagsUp, SourceOf, InstanceOf, AsText;
  }

  lemma TagUp(e: V1, preferred: bool, k: Key)
    ensures TagOf(ToV2(e, preferred), preferred, k) == if k in TagsUp(e) then Some(TagsUp(e)[k]) else None
  {
    hide TagsUp, SourceOf, InstanceOf, MessageOf;
  }

  /** The v1 type is spelled out in a tag, and other tags of the envelope go up as they are. */
  lemma TagsGoUp(e: V1, preferred: bool, k: Key)
    ensures
      var v := ToV2(e, preferred);
      && (e.event.HttpStartStop? ==> TagOf(v, preferred, V1Type) == Some("HttpStartStop"))
      && (e.event.LogMessage? ==> TagOf(v, preferred, V1Type) == Some("LogMessage"))
      && (e.event.ValueMetric? ==> TagOf(v, preferred, V1Type) == Some("ValueMetric"))
      && (e.event.CounterEvent? ==> TagOf(v, preferred, V1Type) == Some("CounterEvent"))
      && (e.event.Error? ==> TagOf(v, preferred, V1Type) == Some("Error"))
      && (e.event.ContainerMetric? ==> TagOf(v, preferred, V1Type) == Some("ContainerMetric"))
      && TagOf(v, preferred, Origin) == Some(e.origin) && TagOf(v, preferred, Deployment) == Some(e.deployment)
      && TagOf(v, preferred, Job) == Some(e.job) && TagOf(v, preferred, Index) == Some(e.index)
      && TagOf(v, preferred, Ip) == Some(e.ip)
      && (Ordinary(k, e.event) ==> TagOf(v, preferred, k) == if k in e.tags then Some(e.tags[k]) else None)
  {
    hide TagOf, ToV2, TagsUp, TypeName;
    UpMap(e, k);
    TagUp(e, preferred, V1Type);
    TagUp(e, preferred, Origin);
    TagUp(e, preferred, Deployment);
    TagUp(e, preferred, Job);
    TagUp(e, preferred, Index);
    TagUp(e, preferred, Ip);
    TagUp(e, preferred, k);
    TypeNames(e.event);
  }

  lemma TypeNames(e: Event)
    ensures e.HttpStartStop? ==> TypeName(e) == "HttpStartStop"
    ensures e.LogMessage? ==> TypeName(e) == "LogMessage"
    ensures e.ValueMetric? ==> TypeName(e) == "ValueMetric"
    ensures e.CounterEvent? ==> TypeName(e) == "CounterEvent"
    ensures e.Error? ==> TypeName(e) == "Error"
    ensures e.ContainerMetric? ==> TypeName(e) == "ContainerMetric"
  {
  }

  lemma UpMap(e: V1, k: Key)
    ensures
      var up := TagsUp(e);
      && (forall b :: b in BASE_KEYS ==> b in up && up[b] == BaseText(e, b))
      && (Ordinary(k, e.event) ==> (k in up <==> k in e.tags) && (k in up ==> up[k] == e.tags[k]))
  {
    hide OwnTags, BaseTags, OwnKeys;
    OwnKeysAre(e.event);
    assert BaseTags(e).Keys == BASE_KEYS && forall b :: b in BASE_KEYS ==> BaseTags(e)[b] == BaseText(e, b) by { BaseMap(e); }
  }

  lemma BaseMap(e: V1)
    ensures BaseTags(e).Keys == BASE_KEYS && forall b :: b in BASE_KEYS ==> BaseTags(e)[b] == BaseText(e, b)
  {
    hide BaseText;
  }
}
