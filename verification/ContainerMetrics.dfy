/**
  The latest container metrics of doppler/internal/sinks/containermetric/container_metric_sink.go, evicted
  lazily by queries, and the merge of several dopplers' answers in
  trafficcontroller/internal/proxy/container_metrics_handler.go.
 */
module ContainerMetrics {
  import opened Wrappers

  /** A container metric envelope: its instance index, its timestamp and whatever else it carries. */
  datatype Metric = Metric(instance: int, timestamp: int, payload: nat)

  /** The first to arrive of the metrics with the greatest timestamp. */
  function Best(history: seq<Metric>, instance: int): Option<Metric> {
    if history == [] then None
    else
      var last := history[|history| - 1];
      var before := Best(history[..|history| - 1], instance);
      if last.instance != instance then before
      else if before.None? || before.value.timestamp < last.timestamp then Some(last)
      else before
  }

  lemma {:induction false} BestIsMax(history: seq<Metric>, instance: int)
    ensures
      var b := Best(history, instance);
      && (b.Some? ==> b.value in history && b.value.instance == instance)
      && forall m :: m in history && m.instance == instance ==> b.Some? && m.timestamp <= b.value.timestamp
  {
    if history != [] {
      var n := |history| - 1;
      BestIsMax(history[..n], instance);
      assert history == history[..n] + [history[n]];
    }
  }

  /** ... and nothing that arrived earlier was as late. */
  lemma {:induction false} BestIsFirst(history: seq<Metric>, instance: int, i: nat)
    requires i < |history| && history[i].instance == instance
    requires forall j :: 0 <= j < i && history[j].instance == instance ==> history[j].timestamp < history[i].timestamp
    requires forall j :: 0 <= j < |history| && history[j].instance == instance ==> history[j].timestamp <= history[i].timestamp
    ensures Best(history, instance) == Some(history[i])
  {
    var n := |history| - 1;
    if i < n {
      BestIsFirst(history[..n], instance, i);
    } else {
      BestIsMax(history[..n], instance);
    }
  }

  // ----- The sink -----

  /** The answer to a query: for each instance its best metric, once, if it is not older than `cut`. */
  ghost predicate Answers(out: seq<Metric>, history: seq<Metric>, cut: int) {
    && (forall i, j :: 0 <= i < j < |out| ==> out[i].instance != out[j].instance)
    && (forall i :: 0 <= i < |out| ==> Best(history, out[i].instance) == Some(out[i]) && out[i].timestamp >= cut)
    && (forall m: Metric :: Best(history, m.instance) == Some(m) && m.timestamp >= cut ==> m in out)
  }

  /** Has a metric of this age been, or may it have been, evicted? None before any query. */
  predicate Old(timestamp: int, horizon: Option<int>) {
    horizon.Some? && timestamp < horizon.value
  }

  /** What is cached for an instance is its best metric, unless that one is too old to matter. */
  ghost predicate Cached(metrics: map<int, Metric>, history: seq<Metric>, horizon: Option<int>, instance: int) {
    var b := Best(history, instance);
    && (b.Some? && !Old(b.value.timestamp, horizon) ==> instance in metrics && metrics[instance] == b.value)
    && (instance in metrics ==>
          && metrics[instance].instance == instance
          && b.Some? && metrics[instance].timestamp <= b.value.timestamp
          && (metrics[instance] == b.value || Old(metrics[instance].timestamp, horizon)))
  }

  class ContainerMetricSink {
    const ttl: int
    var metrics: map<int, Metric>
    ghost var history: seq<Metric>
    /** The latest cut-off any query has used. */
    ghost var horizon: Option<int>

    ghost predicate Valid()
      reads this
    {
      forall instance :: Cached(metrics, history, horizon, instance)
    }

    constructor (timeToLive: int)
      ensures Valid() && history == [] && horizon == None && ttl == timeToLive
    {
      ttl := timeToLive;
      metrics, history, horizon := map[], [], None;
    }

    method UpdateMetric(event: Metric)
      requires Valid()
      modifies this
      ensures Valid() && history == old(history) + [event] && horizon == old(horizon)
    {
      hide Best;
      ghost var before := metrics;
      if event.instance !in metrics || metrics[event.instance].timestamp < event.timestamp {
        metrics := metrics[event.instance := event];
      }
      forall instance ensures Cached(metrics, history + [event], horizon, instance) {
        UpdateKept(before, history, horizon, event, instance);
      }
      history := history + [event];
    }

    /**
      `GetLatest` on a clock that does not run backwards: eviction shows nowhere in the answer, which is
      that of the whole history.
     */
    method GetLatest(now: int) returns (envelopes: seq<Metric>)
      requires Valid() && !Old(now - ttl, horizon)
      modifies this
      ensures Valid() && history == old(history) && horizon == Some(now - ttl)
      ensures Answers(envelopes, history, now - ttl)
    {
      hide Best;
      var cut := now - ttl;
      ghost var before := metrics;
      envelopes := [];
      var rest := metrics.Keys;
      while rest != {}
        invariant rest <= before.Keys && history == old(history) && horizon == old(horizon)
        invariant forall k :: k in metrics <==> k in before && (k in rest || before[k].timestamp >= cut)
        invariant forall k :: k in metrics ==> metrics[k] == before[k]
        invariant forall m :: m in envelopes <==> Kept(before, rest, cut, m)
        invariant forall i, j :: 0 <= i < j < |envelopes| ==> envelopes[i].instance != envelopes[j].instance
        decreases rest
      {
        SomeKey(rest);
        var instance :| instance in rest;
        var env := metrics[instance];
        assert Cached(before, history, horizon, instance);
        assert forall m :: m in envelopes ==> m.instance != instance;
        rest := rest - {instance};
        if env.timestamp < cut {
          metrics := metrics - {instance};
          continue;
        }
        envelopes := envelopes + [env];
      }
      horizon := Some(cut);
      forall instance ensures Cached(metrics, history, horizon, instance) {
        assert Cached(before, history, old(horizon), instance);
      }
      AnswerRight(envelopes, before, history, old(horizon), cut);
    }
  }

  lemma SomeKey(keys: set<int>)
    requires keys != {}
    ensures exists k :: k in keys
  {
    assert (forall k :: k !in keys) ==> keys == {};
  }

  /** An entry the walk has passed and left in place. */
  ghost predicate Kept(metrics: map<int, Metric>, rest: set<int>, cut: int, m: Metric) {
    m.instance in metrics && m.instance !in rest && metrics[m.instance] == m && m.timestamp >= cut
  }

  lemma UpdateKept(metrics: map<int, Metric>, history: seq<Metric>, horizon: Option<int>, event: Metric, instance: int)
    requires Cached(metrics, history, horizon, instance)
    ensures
      var after := if event.instance !in metrics || metrics[event.instance].timestamp < event.timestamp
                   then metrics[event.instance := event] else metrics;
      Cached(after, history + [event], horizon, instance)
  {
    assert (history + [event])[..|history|] == history;
    BestIsMax(history, instance);
  }

  lemma AnswerRight(out: seq<Metric>, metrics: map<int, Metric>, history: seq<Metric>, horizon: Option<int>, cut: int)
    requires forall instance :: Cached(metrics, history, horizon, instance)
    requires !Old(cut, horizon)
    requires forall m :: m in out <==> Kept(metrics, {}, cut, m)
    requires forall i, j :: 0 <= i < j < |out| ==> out[i].instance != out[j].instance
    ensures Answers(out, history, cut)
  {
    hide Best;
    forall i | 0 <= i < |out| ensures Best(history, out[i].instance) == Some(out[i]) && out[i].timestamp >= cut {
      assert out[i] in out;
      assert Cached(metrics, history, horizon, out[i].instance);
    }
    forall m: Metric | Best(history, m.instance) == Some(m) && m.timestamp >= cut ensures m in out {
      assert Cached(metrics, history, horizon, m.instance);
      assert Kept(metrics, {}, cut, m);
    }
  }

  // ----- Several dopplers -----

  /** `deDupe`, on the envelopes behind the bytes: a map filled in order, then listed in any order. */
  method DeDupe(input: seq<Metric>) returns (output: seq<Metric>)
    ensures forall m: Metric :: m in output <==> Best(input, m.instance) == Some(m)
    ensures forall i, j :: 0 <= i < j < |output| ==> output[i].instance != output[j].instance
  {
    var messages: map<int, Metric> := map[];
    var i := 0;
    while i < |input|
      invariant 0 <= i <= |input|
      invariant forall k :: Best(input[..i], k) == if k in messages then Some(messages[k]) else None
    {
      var envelope := input[i];
      ghost var before := messages;
      if envelope.instance !in messages || messages[envelope.instance].timestamp < envelope.timestamp {
        messages := messages[envelope.instance := envelope];
      }
      assert input[..i + 1][..i] == input[..i];
      i := i + 1;
    }
    assert input[..i] == input;
    forall k | k in messages ensures messages[k].instance == k { BestIsMax(input, k); }
    output := List(messages);
  }

  method List(messages: map<int, Metric>) returns (output: seq<Metric>)
    requires forall k :: k in messages ==> messages[k].instance == k
    ensures forall m :: m in output <==> m.instance in messages && messages[m.instance] == m
    ensures forall i, j :: 0 <= i < j < |output| ==> output[i].instance != output[j].instance
  {
    output := [];
    var rest := messages.Keys;
    while rest != {}
      invariant rest <= messages.Keys
      invariant forall m :: m in output <==> m.instance in messages && m.instance !in rest && messages[m.instance] == m
      invariant forall i, j :: 0 <= i < j < |output| ==> output[i].instance != output[j].instance
      decreases rest
    {
      SomeKey(rest);
      var k :| k in rest;
      assert forall m :: m in output ==> m.instance != k;
      output := output + [messages[k]];
      rest := rest - {k};
    }
  }

  function Concat(answers: seq<seq<Metric>>): seq<Metric> {
    if answers == [] then [] else answers[0] + Concat(answers[1..])
  }

  lemma {:induction false} InConcat(answers: seq<seq<Metric>>, m: Metric)
    ensures m in Concat(answers) <==> exists i :: 0 <= i < |answers| && m in answers[i]
  {
    if answers != [] {
      InConcat(answers[1..], m);
      assert forall i :: 0 <= i < |answers[1..]| ==> answers[1..][i] == answers[i + 1];
      if m in Concat(answers[1..]) {
        var i :| 0 <= i < |answers[1..]| && m in answers[1..][i];
        assert m in answers[i + 1];
      }
      if i :| 0 <= i < |answers| && m in answers[i] {
        assert i > 0 ==> m in answers[1..][i - 1];
      }
    }
  }

  /** One sink that was fed all the dopplers' events, in some order. */
  ghost predicate Merged(all: seq<Metric>, histories: seq<seq<Metric>>) {
    forall m :: m in all <==> exists i :: 0 <= i < |histories| && m in histories[i]
  }

  /**
    `deDupe` over what several dopplers answer at one instant reports an instance exactly when one sink fed
    all their events would, and with the same timestamp.
   */
  lemma DeDupeAgrees(histories: seq<seq<Metric>>, answers: seq<seq<Metric>>, all: seq<Metric>, cut: int, m: Metric)
    requires |answers| == |histories| && Merged(all, histories)
    requires forall i :: 0 <= i < |answers| ==> Answers(answers[i], histories[i], cut)
    ensures
      var one, many := Best(all, m.instance), Best(Concat(answers), m.instance);
      && (many.Some? <==> one.Some? && one.value.timestamp >= cut)
      && (many.Some? ==> many.value.timestamp == one.value.timestamp && many.value in all)
  {
    hide Best, Concat;
    var one, many := Best(all, m.instance), Best(Concat(answers), m.instance);
    BestIsMax(all, m.instance);
    BestIsMax(Concat(answers), m.instance);
    if many.Some? {
      InConcat(answers, many.value);
      var i :| 0 <= i < |answers| && many.value in answers[i];
      FromHistory(answers[i], histories[i], cut, many.value);
      assert many.value in histories[i];
    }
    if one.Some? && one.value.timestamp >= cut {
      var i :| 0 <= i < |histories| && one.value in histories[i];
      BestIsMax(histories[i], m.instance);
      var b := Best(histories[i], m.instance).value;
      assert b in histories[i];
      assert b in answers[i];
      InConcat(answers, b);
    }
  }

  lemma FromHistory(out: seq<Metric>, history: seq<Metric>, cut: int, m: Metric)
    requires Answers(out, history, cut) && m in out
    ensures m in history && m.timestamp >= cut
  {
    var i :| 0 <= i < |out| && out[i] == m;
    BestIsMax(history, m.instance);
  }
}
