/**
  The counter tables of metron: metron/internal/egress/v2/counteraggregator.go, which starts over when the
  table has grown too large, and metron/internal/egress/v1/message_aggregator.go, which never does.
 */
module Counters {
  import opened TagHash
  import opened Wrappers

  const WORD_LIMIT: int := 0x1_0000_0000_0000_0000
  /** The v2 table is reset before an update that finds more keys than this. */
  const TABLE_LIMIT: nat := 10000

  /** A counter event: `origin` is "" in v2, and `tags` are the tag values as rendered. */
  datatype Event = Event(origin: string, name: string, tags: map<string, string>, delta: nat)

  datatype ID = ID(origin: string, name: string, tagsHash: string)

  /** The totals kept, and the events counted since the table was last emptied. */
  datatype Table = Table(totals: map<ID, nat>, since: seq<Event>)

  ghost function IdOf(e: Event, digest: string -> string): ID {
    ID(e.origin, e.name, HashOf(e.tags, digest))
  }

  function Get(totals: map<ID, nat>, id: ID): nat {
    if id in totals then totals[id] else 0
  }

  predicate Full(t: Table, limit: Option<nat>) {
    limit.Some? && |t.totals| > limit.value
  }

  /** One counter through the table; a missing limit is the v1 form. */
  ghost function Count(t: Table, e: Event, limit: Option<nat>, digest: string -> string): Table {
    var u := if Full(t, limit) then Table(map[], []) else t;
    var id := IdOf(e, digest);
    Table(u.totals[id := (Get(u.totals, id) + e.delta) % WORD_LIMIT], u.since + [e])
  }

  // ----- What a table means -----

  ghost function SumById(since: seq<Event>, id: ID, digest: string -> string): nat {
    if since == [] then 0
    else
      var n := |since| - 1;
      SumById(since[..n], id, digest) + (if IdOf(since[n], digest) == id then since[n].delta else 0)
  }

  predicate Same(a: Event, b: Event) {
    a.origin == b.origin && a.name == b.name && a.tags == b.tags
  }

  /** All deltas of the same origin, name and tag map. */
  function SumOf(since: seq<Event>, e: Event): nat {
    if since == [] then 0
    else
      var n := |since| - 1;
      SumOf(since[..n], e) + (if Same(since[n], e) then since[n].delta else 0)
  }

  ghost predicate TableRight(t: Table, limit: Option<nat>, digest: string -> string) {
    && (forall id :: Get(t.totals, id) == SumById(t.since, id, digest) % WORD_LIMIT)
    && (limit.Some? ==> |t.totals| <= limit.value + 1)
  }

  lemma CountKept(t: Table, e: Event, limit: Option<nat>, digest: string -> string)
    requires TableRight(t, limit, digest)
    ensures TableRight(Count(t, e, limit, digest), limit, digest)
  {
    hide IdOf;
    var u := if Full(t, limit) then Table(map[], []) else t;
    var after := Count(t, e, limit, digest);
    assert after.since[..|u.since|] == u.since;
    forall id ensures Get(after.totals, id) == SumById(after.since, id, digest) % WORD_LIMIT {
      assert Get(u.totals, id) == SumById(u.since, id, digest) % WORD_LIMIT;
      AddWraps(SumById(u.since, id, digest), e.delta);
    }
    KeysGrow(u.totals, IdOf(e, digest), after.totals[IdOf(e, digest)]);
  }

  lemma AddWraps(a: nat, b: nat)
    ensures (a % WORD_LIMIT + b) % WORD_LIMIT == (a + b) % WORD_LIMIT && a % WORD_LIMIT % WORD_LIMIT == a % WORD_LIMIT
  {
  }

  lemma KeysGrow(m: map<ID, nat>, id: ID, n: nat)
    ensures |m[id := n]| <= |m| + 1
  {
    assert m[id := n].Keys == m.Keys + {id};
    assert |m.Keys + {id}| <= |m.Keys| + 1;
    assert |m[id := n]| == |m[id := n].Keys| && |m| == |m.Keys|;
  }

  /** Every tag string of the events is told apart by the digest. */
  ghost predicate Clear(since: seq<Event>, digest: string -> string, width: nat, strings: set<string>) {
    && Distinguishes(digest, width, strings)
    && forall i :: 0 <= i < |since| ==> TagStrings(since[i].tags) <= strings
  }

  lemma {:induction false} SumsAgree(since: seq<Event>, e: Event, digest: string -> string, width: nat, strings: set<string>)
    requires Clear(since, digest, width, strings) && TagStrings(e.tags) <= strings
    ensures SumById(since, IdOf(e, digest), digest) == SumOf(since, e)
  {
    hide HashOf, TagStrings, Distinguishes;
    if since != [] {
      var n := |since| - 1;
      SumsAgree(since[..n], e, digest, width, strings);
      Fewer(digest, width, strings, TagStrings(since[n].tags) + TagStrings(e.tags));
      HashIdentifies(since[n].tags, e.tags, digest, width);
    }
  }

  // ----- Envelopes -----

  datatype TagValue = Text(text: string) | Integer(i: int) | Decimal(d: real)

  type Uint64 = n: int | 0 <= n < 0x1_0000_0000_0000_0000

  datatype CounterValue = Delta(delta: Uint64) | Total(total: nat) | Unset

  datatype Counter = Counter(name: string, value: CounterValue)

  datatype Envelope = Envelope(tags: map<string, string>, deprecated: map<string, TagValue>,
                               counter: Option<Counter>, rest: nat)

  /** `GetDelta`: 0 unless the delta is set. */
  function DeltaOf(c: Counter): nat {
    if c.value.Delta? then c.value.delta else 0
  }

  function Rendered(tags: map<string, TagValue>, render: TagValue -> string): map<string, string> {
    map k | k in tags :: render(tags[k])
  }

  function EventOf(e: Envelope, render: TagValue -> string): Event
    requires e.counter.Some?
  {
    Event("", e.counter.value.name, Rendered(e.deprecated, render), DeltaOf(e.counter.value))
  }

  /** An injective rendering of tag values loses nothing. */
  lemma RenderedIdentifies(a: map<string, TagValue>, b: map<string, TagValue>, render: TagValue -> string)
    requires forall k, l :: k in a && l in b && render(a[k]) == render(b[l]) ==> a[k] == b[l]
    ensures Rendered(a, render) == Rendered(b, render) <==> a == b
  {
    var ra, rb := Rendered(a, render), Rendered(b, render);
    if ra == rb {
      assert a.Keys == ra.Keys && b.Keys == rb.Keys;
      forall k | k in a ensures k in b && a[k] == b[k] {
        assert k in ra && ra[k] == rb[k];
      }
    }
  }

  /** How the pipeline is configured: Go's SHA-1 in hexadecimal and its rendering of tag values. */
  datatype Config = Config(digest: string -> string, render: TagValue -> string)

  /** One envelope through `CounterAggregator.Write`. */
  ghost function Absorb(t: Table, e: Envelope, c: Config): Table {
    if e.counter.None? then t else Count(t, EventOf(e, c.render), Some(TABLE_LIMIT), c.digest)
  }

  ghost function After(t: Table, es: seq<Envelope>, c: Config): Table {
    if es == [] then t else Absorb(After(t, es[..|es| - 1], c), es[|es| - 1], c)
  }

  /** The envelope with its running total, read off the table just updated. */
  ghost function Stamp(t: Table, e: Envelope, c: Config): Envelope {
    if e.counter.None? then e
    else e.(counter := Some(e.counter.value.(value := Total(Get(t.totals, IdOf(EventOf(e, c.render), c.digest))))))
  }

  ghost function Stamped(t: Table, es: seq<Envelope>, c: Config): (r: seq<Envelope>)
    ensures |r| == |es|
  {
    if es == [] then []
    else Stamped(t, es[..|es| - 1], c) + [Stamp(After(t, es, c), es[|es| - 1], c)]
  }

  lemma {:induction false} InBatches(t: Table, a: seq<Envelope>, b: seq<Envelope>, c: Config)
    ensures After(t, a + b, c) == After(After(t, a, c), b, c)
    ensures Stamped(t, a + b, c) == Stamped(t, a, c) + Stamped(After(t, a, c), b, c)
  {
    hide Absorb, Stamp;
    if b == [] {
      assert a + b == a;
    } else {
      var n := |b| - 1;
      InBatches(t, a, b[..n], c);
      assert (a + b)[..|a + b| - 1] == a + b[..n];
    }
  }

  lemma {:induction false} AfterRight(t: Table, es: seq<Envelope>, c: Config)
    requires TableRight(t, Some(TABLE_LIMIT), c.digest)
    ensures TableRight(After(t, es, c), Some(TABLE_LIMIT), c.digest)
  {
    hide TableRight, Count;
    if es != [] {
      AfterRight(t, es[..|es| - 1], c);
      var u, e := After(t, es[..|es| - 1], c), es[|es| - 1];
      if e.counter.Some? {
        CountKept(u, EventOf(e, c.render), Some(TABLE_LIMIT), c.digest);
      }
    }
  }

  lemma {:induction false} StampedAt(t: Table, es: seq<Envelope>, c: Config, i: nat)
    requires i < |es|
    ensures Stamped(t, es, c)[i] == Stamp(After(t, es[..i + 1], c), es[i], c)
  {
    hide Stamp, After;
    if i + 1 == |es| {
      assert es[..i + 1] == es;
    } else {
      StampedAt(t, es[..|es| - 1], c, i);
      assert es[..|es| - 1][..i + 1] == es[..i + 1];
    }
  }

  /**
    Every counter leaves with the sum, modulo 2^64, of all deltas of its name and tag map since the table
    was last emptied, its own included; the table never exceeds 10001 keys.
   */
  lemma TotalsExact(t: Table, es: seq<Envelope>, c: Config, i: nat, width: nat, strings: set<string>)
    requires TableRight(t, Some(TABLE_LIMIT), c.digest) && i < |es| && es[i].counter.Some?
    requires Clear(After(t, es[..i + 1], c).since, c.digest, width, strings)
    ensures
      var u := After(t, es[..i + 1], c);
      && Stamped(t, es, c)[i] ==
         es[i].(counter := Some(es[i].counter.value.(value := Total(SumOf(u.since, EventOf(es[i], c.render)) % WORD_LIMIT))))
      && |u.totals| <= TABLE_LIMIT + 1
      && u.since != [] && u.since[|u.since| - 1] == EventOf(es[i], c.render)
  {
    hide After, Clear, HashOf;
    StampedAt(t, es, c, i);
    AfterRight(t, es[..i + 1], c);
    LastCounted(t, es[..i + 1], c);
    var u, e := After(t, es[..i + 1], c), EventOf(es[i], c.render);
    assert TagStrings(e.tags) <= strings by { LastClear(u.since, c.digest, width, strings); }
    SumsAgree(u.since, e, c.digest, width, strings);
  }

  lemma LastClear(since: seq<Event>, digest: string -> string, width: nat, strings: set<string>)
    requires Clear(since, digest, width, strings) && since != []
    ensures TagStrings(since[|since| - 1].tags) <= strings
  {
  }

  lemma LastCounted(t: Table, es: seq<Envelope>, c: Config)
    requires es != [] && es[|es| - 1].counter.Some?
    ensures
      var u, v := After(t, es[..|es| - 1], c), After(t, es, c);
      && v.since == (if |u.totals| > TABLE_LIMIT then [] else u.since) + [EventOf(es[|es| - 1], c.render)]
  {
    hide HashOf;
  }

  // ----- ... read off the stream itself -----

  const EMPTY: Table := Table(map[], [])

  /** Where in the stream the table now in use was started: at the last counter that found it too large. */
  ghost function Began(es: seq<Envelope>, c: Config): (p: nat)
    ensures p <= |es|
  {
    if es == [] then 0
    else
      var n := |es| - 1;
      if es[n].counter.Some? && |After(EMPTY, es[..n], c).totals| > TABLE_LIMIT then n else Began(es[..n], c)
  }

  function EventsOf(es: seq<Envelope>, render: TagValue -> string): seq<Event> {
    if es == [] then []
    else
      var n := |es| - 1;
      EventsOf(es[..n], render) + (if es[n].counter.Some? then [EventOf(es[n], render)] else [])
  }

  lemma {:induction false} SinceIsStream(es: seq<Envelope>, c: Config)
    ensures After(EMPTY, es, c).since == EventsOf(es[Began(es, c)..], c.render)
  {
    hide HashOf;
    if es != [] {
      var n := |es| - 1;
      var p := Began(es, c);
      SinceIsStream(es[..n], c);
      BeganBefore(es, c);
      assert es[p..][..n - p] == es[..n][p..];
    }
  }

  /** The deltas carried by all counters of the same name and the same deprecated tags; a total or nothing adds nothing. */
  function SumSame(es: seq<Envelope>, e: Envelope): nat {
    if es == [] || e.counter.None? then 0
    else
      var n := |es| - 1;
      SumSame(es[..n], e)
      + (if es[n].counter.Some? && es[n].counter.value.value.Delta?
            && es[n].counter.value.name == e.counter.value.name && es[n].deprecated == e.deprecated
         then es[n].counter.value.value.delta else 0)
  }

  /** Digest and rendering tell apart what occurs in the stream. */
  ghost predicate Apart(es: seq<Envelope>, c: Config, width: nat, strings: set<string>) {
    && Distinguishes(c.digest, width, strings)
    && (forall i :: 0 <= i < |es| ==> TagStrings(Rendered(es[i].deprecated, c.render)) <= strings)
    && (forall i, j, k, l ::
          0 <= i < |es| && 0 <= j < |es| && k in es[i].deprecated && l in es[j].deprecated ==>
          c.render(es[i].deprecated[k]) == c.render(es[j].deprecated[l]) ==> es[i].deprecated[k] == es[j].deprecated[l])
  }

  lemma {:induction false} SumsOfStream(es: seq<Envelope>, e: Envelope, render: TagValue -> string)
    requires e.counter.Some?
    requires forall i :: 0 <= i < |es| ==> (Rendered(es[i].deprecated, render) == Rendered(e.deprecated, render) <==> es[i].deprecated == e.deprecated)
    ensures SumOf(EventsOf(es, render), EventOf(e, render)) == SumSame(es, e)
  {
    hide Rendered;
    if es != [] {
      var n := |es| - 1;
      SumsOfStream(es[..n], e, render);
      var before := EventsOf(es[..n], render);
      if es[n].counter.Some? {
        assert (before + [EventOf(es[n], render)])[..|before|] == before;
      } else {
        assert before + [] == before;
      }
    }
  }

  lemma {:induction false} EventsClear(es: seq<Envelope>, c: Config, width: nat, strings: set<string>)
    requires Distinguishes(c.digest, width, strings)
    requires forall i :: 0 <= i < |es| ==> TagStrings(Rendered(es[i].deprecated, c.render)) <= strings
    ensures Clear(EventsOf(es, c.render), c.digest, width, strings)
  {
    hide Distinguishes, TagStrings, Rendered;
    if es != [] {
      EventsClear(es[..|es| - 1], c, width, strings);
    }
  }

  lemma RenderedApart(es: seq<Envelope>, c: Config, width: nat, strings: set<string>, i: nat, j: nat)
    requires Apart(es, c, width, strings) && i < |es| && j < |es|
    ensures Rendered(es[i].deprecated, c.render) == Rendered(es[j].deprecated, c.render) <==> es[i].deprecated == es[j].deprecated
  {
    hide Distinguishes, Rendered;
    RenderedIdentifies(es[i].deprecated, es[j].deprecated, c.render);
  }

  /**
    A counter leaves with the sum, modulo 2^64, of the deltas of all counters of equal name and equal deprecated tags
    in the stream from where the current table began up to and including itself.
   */
  lemma StreamTotals(es: seq<Envelope>, c: Config, i: nat, width: nat, strings: set<string>)
    requires i < |es| && es[i].counter.Some? && Apart(es[..i + 1], c, width, strings)
    ensures
      var p := Began(es[..i + 1], c);
      && p <= i
      && Stamped(EMPTY, es, c)[i] ==
         es[i].(counter := Some(es[i].counter.value.(value := Total(SumSame(es[p..i + 1], es[i]) % WORD_LIMIT))))
  {
    hide After, HashOf, Stamped, SumSame, SumOf, EventsOf, Rendered, TagStrings, Distinguishes, Clear;
    var seen := es[..i + 1];
    var p := Began(seen, c);
    EmptyRight(c.digest);
    BeganBefore(seen, c);
    SinceIsStream(seen, c);
    var window := es[p..i + 1];
    assert seen[p..] == window;
    EventsClear(window, c, width, strings);
    TotalsExact(EMPTY, es, c, i, width, strings);
    forall j | 0 <= j < |window|
      ensures Rendered(window[j].deprecated, c.render) == Rendered(es[i].deprecated, c.render) <==> window[j].deprecated == es[i].deprecated
    {
      RenderedApart(seen, c, width, strings, p + j, i);
    }
    SumsOfStream(window, es[i], c.render);
  }

  lemma EmptyRight(digest: string -> string)
    ensures TableRight(EMPTY, Some(TABLE_LIMIT), digest) && TableRight(EMPTY, None, digest)
  {
  }

  lemma {:induction false} BeganBefore(es: seq<Envelope>, c: Config)
    ensures es != [] ==> Began(es, c) < |es|
  {
    if |es| > 1 {
      BeganBefore(es[..|es| - 1], c);
    }
  }

  /** In v1, without a limit, the table remembers every event, and each leaves with the sum over its equals. */
  lemma V1Remembers(t: Table, e: Event, digest: string -> string)
    requires TableRight(t, None, digest)
    ensures
      var u := Count(t, e, None, digest);
      && TableRight(u, None, digest) && u.since == t.since + [e]
      && forall width, strings :: Clear(u.since, digest, width, strings) ==>
           Get(u.totals, IdOf(e, digest)) == SumOf(u.since, e) % WORD_LIMIT
  {
    hide HashOf, Clear;
    CountKept(t, e, None, digest);
    var u := Count(t, e, None, digest);
    forall width, strings | Clear(u.since, digest, width, strings)
      ensures Get(u.totals, IdOf(e, digest)) == SumOf(u.since, e) % WORD_LIMIT
    {
      LastClear(u.since, digest, width, strings);
      SumsAgree(u.since, e, digest, width, strings);
    }
  }

  // ----- The classes -----

  class CounterAggregator {
    const config: Config
    var counterTotals: map<ID, nat>
    ghost var since: seq<Event>

    ghost function Abs(): Table
      reads this
    {
      Table(counterTotals, since)
    }

    ghost predicate Valid()
      reads this
    {
      TableRight(Abs(), Some(TABLE_LIMIT), config.digest)
    }

    constructor (c: Config)
      ensures Valid() && Abs() == Table(map[], []) && config == c
    {
      config := c;
      counterTotals := map[];
      since := [];
    }

    /** `Write` up to the call of the next writer, whose failure undoes nothing here. */
    method Write(msgs: seq<Envelope>) returns (out: seq<Envelope>)
      requires Valid()
      modifies this
      ensures Valid() && Abs() == After(old(Abs()), msgs, config) && out == Stamped(old(Abs()), msgs, config)
    {
      hide TableRight, HashOf;
      out := [];
      var i := 0;
      while i < |msgs|
        invariant 0 <= i <= |msgs|
        invariant Abs() == After(old(Abs()), msgs[..i], config)
        invariant out == Stamped(old(Abs()), msgs[..i], config)
      {
        assert msgs[..i + 1][..i] == msgs[..i];
        var e := msgs[i];
        if e.counter.Some? {
          if |counterTotals| > TABLE_LIMIT {
            counterTotals := map[];
            since := [];
          }
          var hash := HashTags(Rendered(e.deprecated, config.render), config.digest);
          var id := ID("", e.counter.value.name, hash);
          counterTotals := counterTotals[id := (Get(counterTotals, id) + DeltaOf(e.counter.value)) % WORD_LIMIT];
          since := since + [EventOf(e, config.render)];
          e := e.(counter := Some(e.counter.value.(value := Total(counterTotals[id]))));
        }
        out := out + [e];
        i := i + 1;
      }
      assert msgs[..i] == msgs;
      AfterRight(old(Abs()), msgs, config);
    }
  }

  class MessageAggregator {
    const digest: string -> string
    var counterTotals: map<ID, nat>
    ghost var since: seq<Event>

    ghost function Abs(): Table
      reads this
    {
      Table(counterTotals, since)
    }

    ghost predicate Valid()
      reads this
    {
      TableRight(Abs(), None, digest)
    }

    constructor (d: string -> string)
      ensures Valid() && Abs() == Table(map[], []) && digest == d
    {
      digest := d;
      counterTotals := map[];
      since := [];
    }

    /** `handleCounter`: the total that the event leaves with. */
    method HandleCounter(e: Event) returns (total: nat)
      requires Valid()
      modifies this
      ensures Valid() && since == old(since) + [e]
      ensures forall width, strings :: Clear(since, digest, width, strings) ==> total == SumOf(since, e) % WORD_LIMIT
    {
      hide TableRight, HashOf, SumOf, Clear;
      V1Remembers(Abs(), e, digest);
      var hash := HashTags(e.tags, digest);
      var id := ID(e.origin, e.name, hash);
      total := (Get(counterTotals, id) + e.delta) % WORD_LIMIT;
      counterTotals := counterTotals[id := total];
      since := since + [e];
    }
  }
}
