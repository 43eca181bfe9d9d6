/**
  The v1 and v2 envelopes of plumbing/conversion and what the two translators compute.

  A v1 envelope is given by what its getters return, so an unset protobuf field is its default.
  Tag and metric names that the translators treat specially are constructors of their own.
 */
module Envelopes {
  import opened Wrappers
  import opened Text
  import opened Uuids
  import opened Floats

  type Int32 = i: int | -0x8000_0000 <= i < 0x8000_0000
  type Int64 = i: int | INT64_MIN <= i <= INT64_MAX

  datatype Key =
    | Origin | Deployment | Job | Index | Ip | V1Type
    | SourceId | InstanceId
    | SourceType
    | Source | Code
    | PeerType | Method | RequestId | Uri | RemoteAddress | UserAgent | StatusCode | ContentLength
    | InstanceIndexTag | RoutingInstanceId | ForwardedTag
    | OtherTag(name: string)

  type Tags = map<Key, string>

  // ----- v1 -----

  datatype LogType = OUT | ERR

  datatype Event =
    | HttpStartStop(start: Int64, stop: Int64, requestId: Uuid, peerType: string, httpMethod: string, uri: string,
                    remoteAddress: string, userAgent: string, statusCode: Int32, contentLength: Int64,
                    applicationId: Uuid, httpIndex: Int32, httpInstance: string, forwarded: seq<string>)
    | LogMessage(message: string, messageType: LogType, logTime: Int64, appId: string, sourceType: string,
                 sourceInstance: string)
    | ValueMetric(name: Metric, unit: string, value: real)
    | CounterEvent(counter: string, delta: Uint64, total: Uint64)
    | Error(source: string, code: Int32, text: string)
    | ContainerMetric(app: string, index: Int32, cpu: real, memory: Uint64, disk: Uint64, memoryQuota: Uint64,
                      diskQuota: Uint64)

  datatype V1 = V1(origin: string, deployment: string, job: string, index: string, ip: string, timestamp: Int64,
                   tags: Tags, event: Event)

  // ----- v2 -----

  /** A deprecated tag value; a decimal is given by its `%f` rendering. */
  datatype Value = Text(text: string) | Integer(i: Int64) | Decimal(rendered: string) | Unset

  datatype Metric = MInstanceIndex | MCpu | MMemory | MDisk | MMemoryQuota | MDiskQuota | OtherMetric(text: string)

  datatype GaugeValue = GaugeValue(unit: string, value: real)

  datatype CounterValue = Delta(delta: Uint64) | Total(total: Uint64) | NoValue

  datatype Message =
    | Log(payload: string, logType: LogType)
    | Counter(name: string, count: CounterValue)
    | Gauge(metrics: map<Metric, Option<GaugeValue>>)
    | Timer(timer: string, start: Int64, stop: Int64)
    | NoMessage

  /** `tags` is None when the v2 tag map is nil. */
  datatype V2 = V2(timestamp: Int64, sourceId: string, instanceId: string, deprecated: map<Key, Value>,
                   tags: Option<Tags>, message: Message)

  // ----- Up: ToV2 -----

  function TypeName(e: Event): string {
    match e
    case HttpStartStop(_, _, _, _, _, _, _, _, _, _, _, _, _, _) => "HttpStartStop"
    case LogMessage(_, _, _, _, _, _) => "LogMessage"
    case ValueMetric(_, _, _) => "ValueMetric"
    case CounterEvent(_, _, _) => "CounterEvent"
    case Error(_, _, _) => "Error"
    case ContainerMetric(_, _, _, _, _, _, _) => "ContainerMetric"
  }

  const BASE_KEYS: set<Key> := {Origin, Deployment, Job, Index, Ip, V1Type}

  function BaseText(e: V1, k: Key): string {
    match k
    case Origin => e.origin
    case Deployment => e.deployment
    case Job => e.job
    case Index => e.index
    case Ip => e.ip
    case _ => TypeName(e.event)
  }

  function BaseTags(e: V1): Tags { map k | k in BASE_KEYS :: BaseText(e, k) }

  const HTTP_KEYS: set<Key> :=
    {PeerType, Method, RequestId, Uri, RemoteAddress, UserAgent, StatusCode, ContentLength, InstanceIndexTag,
     RoutingInstanceId, ForwardedTag}

  /** The tags an event's own fields are stored in. */
  function OwnKeys(e: Event): set<Key> {
    if e.HttpStartStop? then HTTP_KEYS
    else if e.LogMessage? then {SourceType}
    else if e.Error? then {Source, Code}
    else {}
  }

  function HttpText(e: Event, k: Key): string
    requires e.HttpStartStop?
  {
    match k
    case RequestId => Uuids.Print(e.requestId)
    case PeerType => e.peerType
    case Method => e.httpMethod
    case Uri => e.uri
    case RemoteAddress => e.remoteAddress
    case UserAgent => e.userAgent
    case StatusCode => PrintInt(e.statusCode)
    case ContentLength => PrintInt(e.contentLength)
    case InstanceIndexTag => PrintInt(e.httpIndex)
    case RoutingInstanceId => e.httpInstance
    case _ => Join(e.forwarded, '\n')
  }

  function OwnText(e: Event, k: Key): string
    requires k in OwnKeys(e)
  {
    if e.HttpStartStop? then HttpText(e, k)
    else if e.LogMessage? then e.sourceType
    else if k == Source then e.source
    else PrintInt(e.code)
  }

  function OwnTags(e: Event): Tags { map k | k in OwnKeys(e) :: OwnText(e, k) }

  function OrElse(id: string, fallback: string): string { if id == "" then fallback else id }

  /** The source id from the tags, or "deployment/job". */
  function TaggedSource(e: V1): string {
    if SourceId in e.tags then e.tags[SourceId] else e.deployment + "/" + e.job
  }

  function SourceOf(e: V1): string {
    match e.event
    case HttpStartStop(_, _, _, _, _, _, _, _, _, _, applicationId, _, _, _) =>
      if applicationId == Uuid(0, 0) then TaggedSource(e) else Uuids.Print(applicationId)
    case LogMessage(_, _, _, appId, _, _) => OrElse(appId, TaggedSource(e))
    case ContainerMetric(app, _, _, _, _, _, _) => OrElse(app, TaggedSource(e))
    case _ => TaggedSource(e)
  }

  function InstanceOf(e: V1): string {
    if e.event.LogMessage? then e.event.sourceInstance
    else if InstanceId in e.tags then e.tags[InstanceId]
    else ""
  }

  function MessageOf(e: Event): Message {
    match e
    case HttpStartStop(start, stop, _, _, _, _, _, _, _, _, _, _, _, _) => Timer("http", start, stop)
    case LogMessage(message, messageType, _, _, _, _) => Log(message, messageType)
    case ValueMetric(name, unit, value) => Gauge(map[name := Some(GaugeValue(unit, value))])
    case CounterEvent(counter, _, total) => Counter(counter, Total(total))
    case Error(_, _, text) => Log(text, OUT)
    case ContainerMetric(_, _, _, _, _, _, _) =>
      Gauge(map m | m in CONTAINER :: Some(Reading(e, m)))
  }

  const CONTAINER: set<Metric> := {MInstanceIndex, MCpu, MMemory, MDisk, MMemoryQuota, MDiskQuota}

  function Reading(e: Event, m: Metric): GaugeValue
    requires e.ContainerMetric?
  {
    match m
    case MInstanceIndex => GaugeValue("index", e.index as real)
    case MCpu => GaugeValue("percentage", e.cpu)
    case MMemory => GaugeValue("bytes", ToDouble(e.memory) as real)
    case MDisk => GaugeValue("bytes", ToDouble(e.disk) as real)
    case MMemoryQuota => GaugeValue("bytes", ToDouble(e.memoryQuota) as real)
    case _ => GaugeValue("bytes", ToDouble(e.diskQuota) as real)
  }

  function TagsUp(e: V1): Tags { e.tags + BaseTags(e) - {SourceId, InstanceId} + OwnTags(e.event) }

  function AsText(tags: Tags): map<Key, Value> { map k | k in tags :: Text(tags[k]) }

  function ToV2(e: V1, preferred: bool): V2 {
    var tags := TagsUp(e);
    V2(e.timestamp, SourceOf(e), InstanceOf(e), if preferred then map[] else AsText(tags),
       if preferred then Some(tags) else None, MessageOf(e.event))
  }

  // ----- Down: ToV1 -----

  function Render(v: Value): Option<string> {
    match v
    case Text(text) => Some(text)
    case Integer(i) => Some(PrintInt(i))
    case Decimal(rendered) => Some(rendered)
    case Unset => None
  }

  /** `getV2Tag`: the preferred map first, then the deprecated one, else empty. */
  function GetTag(v: V2, k: Key): string {
    if v.tags.Some? && k in v.tags.value then v.tags.value[k]
    else if k in v.deprecated && Render(v.deprecated[k]).Some? then Render(v.deprecated[k]).value
    else ""
  }

  function Rendered(deprecated: map<Key, Value>): Tags {
    map k | k in deprecated && Render(deprecated[k]).Some? :: Render(deprecated[k]).value
  }

  function Ids(v: V2): Tags {
    (if v.sourceId != "" then map[SourceId := v.sourceId] else map[])
    + (if v.instanceId != "" then map[InstanceId := v.instanceId] else map[])
  }

  /** The tag map `createBaseV1` ends with. */
  function TagsDown(v: V2): Tags {
    (if v.tags.Some? then v.tags.value else map[]) + Rendered(v.deprecated) - BASE_KEYS + Ids(v)
  }

  /** `createBaseV1`, with the event and its tag deletions still to come. */
  function Base(v: V2, dropped: set<Key>, event: Event): V1 {
    V1(GetTag(v, Origin), GetTag(v, Deployment), GetTag(v, Job), GetTag(v, Index), GetTag(v, Ip), v.timestamp,
       TagsDown(v) - dropped, event)
  }

  /** `createBaseV1` edits a non-nil v2 tag map in place: this is the v2 envelope afterwards. */
  function AfterBase(v: V2): V2 {
    if v.tags.Some? then v.(tags := Some(TagsDown(v))) else v
  }

  function Atoi(s: string): int { if ParseInt(s).Some? then ParseInt(s).value else 0 }

  /** Conversion to a 32-bit integer keeps the low 32 bits. */
  function Wrap32(i: int): Int32 {
    var m := i % 0x1_0000_0000;
    if m < 0x8000_0000 then m else m - 0x1_0000_0000
  }

  function HttpOf(v: V2, sourceId: string, start: Int64, stop: Int64): Event {
    HttpStartStop(start, stop, Uuids.Convert(GetTag(v, RequestId)), GetTag(v, PeerType), GetTag(v, Method), GetTag(v, Uri),
                  GetTag(v, RemoteAddress), GetTag(v, UserAgent), Wrap32(Atoi(GetTag(v, StatusCode))),
                  Atoi(GetTag(v, ContentLength)), Uuids.Convert(sourceId), Wrap32(Atoi(GetTag(v, InstanceIndexTag))),
                  GetTag(v, RoutingInstanceId), Split(GetTag(v, ForwardedTag), '\n'))
  }

  /** Truncation of a double toward zero; out of range the processor's overflow value. */
  function TruncInt32(f: real): Int32 {
    var t := if f < 0.0 then -((-f).Floor) else f.Floor;
    if -0x8000_0000 <= t < 0x8000_0000 then t else -0x8000_0000
  }

  function TruncUint64(f: real): Uint64 {
    if 0.0 <= f && f.Floor < TWO64 then f.Floor else 0x8000_0000_0000_0000
  }

  predicate IsContainer(metrics: map<Metric, Option<GaugeValue>>) {
    |metrics| != 1 && forall m :: m in CONTAINER ==> m in metrics && metrics[m].Some?
  }

  function ContainerOf(sourceId: string, metrics: map<Metric, Option<GaugeValue>>): Event
    requires IsContainer(metrics)
  {
    ContainerMetric(sourceId, TruncInt32(metrics[MInstanceIndex].value.value), metrics[MCpu].value.value,
                    TruncUint64(metrics[MMemory].value.value), TruncUint64(metrics[MDisk].value.value),
                    TruncUint64(metrics[MMemoryQuota].value.value), TruncUint64(metrics[MDiskQuota].value.value))
  }

  function MetricOf(v: V2, name: Metric, g: GaugeValue): V1 {
    Base(v, {}, ValueMetric(name, g.unit, g.value))
  }

  ghost predicate Names(r: seq<V1>, m: Metric) {
    exists i :: 0 <= i < |r| && r[i].event.ValueMetric? && r[i].event.name == m
  }

  /** One value metric per gauge entry, in some order; nothing at all when an entry is nil. */
  ghost predicate OnePerMetric(v: V2, metrics: map<Metric, Option<GaugeValue>>, r: seq<V1>) {
    if exists m :: m in metrics && metrics[m].None? then r == []
    else
      && |r| == |metrics|
      && (forall i :: 0 <= i < |r| ==>
            && r[i].event.ValueMetric? && r[i].event.name in metrics
            && r[i] == MetricOf(v, r[i].event.name, metrics[r[i].event.name].value))
      && (forall m :: m in metrics ==> Names(r, m))
  }

  /** `convertLog`: an error if the type marker says so, else a log message. */
  function LogDown(v: V2): V1
    requires v.message.Log?
  {
    var w := AfterBase(v);
    if GetTag(w, V1Type) == "Error" then
      Base(v, {Source, Code}, Error(GetTag(w, Source), Wrap32(Atoi(GetTag(w, Code))), v.message.payload))
    else
      Base(v, {SourceType},
           LogMessage(v.message.payload, v.message.logType, v.timestamp, v.sourceId, GetTag(w, SourceType), v.instanceId))
  }

  function CounterDown(v: V2): V1
    requires v.message.Counter?
  {
    var count := v.message.count;
    Base(v, {}, CounterEvent(v.message.name, 0, if count.Total? then count.total else 0))
  }

  function TimerDown(v: V2): V1
    requires v.message.Timer?
  {
    Base(v, HTTP_KEYS, HttpOf(AfterBase(v), v.sourceId, v.message.start, v.message.stop))
  }

  /** What `ToV1` may return; only the order of several value metrics is left open. */
  ghost predicate IsToV1(v: V2, r: seq<V1>) {
    match v.message
    case Log(_, _) => r == [LogDown(v)]
    case Counter(_, _) => r == [CounterDown(v)]
    case Timer(_, _, _) => r == [TimerDown(v)]
    case Gauge(metrics) =>
      if IsContainer(metrics) then r == [Base(AfterBase(v), {}, ContainerOf(v.sourceId, metrics))]
      else OnePerMetric(AfterBase(v), metrics, r)
    case NoMessage => r == []
  }
}
