/**
  The v2 egress loop of metron/internal/egress/v2/transponder.go in front of the counter aggregator: what is
  taken is tagged, batched and handed on, and the totals do not depend on how it was cut into batches.
 */
module Transponder {
  import opened Counters
  import opened Wrappers

  /**
    One round of the loop: what `TryNext` gave, whether the interval had passed at the first and at the
    second look at the clock, and whether a write, if there is one, succeeds.
   */
  datatype Turn = Turn(next: Option<Envelope>, early: bool, late: bool, writes: bool)

  /** The tags an envelope leaves with: its own tags first, then its deprecated ones, then the defaults. */
  function MergedTags(e: Envelope, defaults: map<string, string>): map<string, TagValue> {
    Texts(defaults) + e.deprecated + Texts(e.tags)
  }

  function Texts(tags: map<string, string>): map<string, TagValue> {
    map k | k in tags :: Text(tags[k])
  }

  function Tagged(e: Envelope, defaults: map<string, string>): Envelope {
    e.(deprecated := MergedTags(e, defaults))
  }

  /** The first walk of `addTags`, in any order: the envelope's own tags win. */
  method MoveTags(deprecated: map<string, TagValue>, tags: map<string, string>) returns (d: map<string, TagValue>)
    ensures d == deprecated + Texts(tags)
  {
    d := deprecated;
    var rest := tags.Keys;
    while rest != {}
      invariant rest <= tags.Keys
      invariant forall k :: k in d <==> k in deprecated || (k in tags && k !in rest)
      invariant forall k :: k in d ==> d[k] == if k in tags && k !in rest then Text(tags[k]) else deprecated[k]
      decreases rest
    {
      var k :| k in rest;
      d := d[k := Text(tags[k])];
      rest := rest - {k};
    }
  }

  /** The second walk: a default is added only where there is no tag. */
  method AddDefaults(own: map<string, TagValue>, defaults: map<string, string>) returns (d: map<string, TagValue>)
    ensures d == Texts(defaults) + own
  {
    d := own;
    var rest := defaults.Keys;
    while rest != {}
      invariant rest <= defaults.Keys
      invariant forall k :: k in d <==> k in own || (k in defaults && k !in rest)
      invariant forall k :: k in d ==> d[k] == if k in own then own[k] else Text(defaults[k])
      decreases rest
    {
      var k :| k in rest;
      if k !in d {
        d := d[k := Text(defaults[k])];
      }
      rest := rest - {k};
    }
  }

  method AddTags(e: Envelope, defaults: map<string, string>) returns (r: Envelope)
    ensures r == Tagged(e, defaults)
  {
    hide Texts;
    var own := MoveTags(e.deprecated, e.tags);
    var d := AddDefaults(own, defaults);
    assert Texts(defaults) + (e.deprecated + Texts(e.tags)) == Texts(defaults) + e.deprecated + Texts(e.tags);
    r := e.(deprecated := d);
  }

  function Taken(turns: seq<Turn>, defaults: map<string, string>): seq<Envelope> {
    if turns == [] then []
    else
      var last := turns[|turns| - 1];
      Taken(turns[..|turns| - 1], defaults) + (if last.next.Some? then [Tagged(last.next.value, defaults)] else [])
  }

  function Flat(batches: seq<seq<Envelope>>): seq<Envelope> {
    if batches == [] then [] else Flat(batches[..|batches| - 1]) + batches[|batches| - 1]
  }

  /** How many envelopes were in batches whose write ended this way. */
  function Sized(batches: seq<seq<Envelope>>, outcomes: seq<bool>, ok: bool): nat
    requires |outcomes| == |batches|
  {
    if batches == [] then 0
    else
      var n := |batches| - 1;
      Sized(batches[..n], outcomes[..n], ok) + (if outcomes[n] == ok then |batches[n]| else 0)
  }

  function Largest(batchSize: int): nat { if batchSize < 1 then 1 else batchSize }

  ghost predicate SizesRight(batches: seq<seq<Envelope>>, batchSize: int) {
    forall i :: 0 <= i < |batches| ==> 1 <= |batches[i]| <= Largest(batchSize)
  }

  lemma OneBatch(batches: seq<seq<Envelope>>, outcomes: seq<bool>, b: seq<Envelope>, ok: bool)
    requires |outcomes| == |batches|
    ensures Flat(batches + [b]) == Flat(batches) + b
    ensures forall w :: Sized(batches + [b], outcomes + [ok], w) == Sized(batches, outcomes, w) + (if w == ok then |b| else 0)
  {
    assert (batches + [b])[..|batches|] == batches && (outcomes + [ok])[..|outcomes|] == outcomes;
  }

  lemma {:induction false} SizedAll(batches: seq<seq<Envelope>>, outcomes: seq<bool>)
    requires |outcomes| == |batches|
    ensures Sized(batches, outcomes, true) + Sized(batches, outcomes, false) == |Flat(batches)|
  {
    if batches != [] {
      SizedAll(batches[..|batches| - 1], outcomes[..|batches| - 1]);
    }
  }

  // ----- When a batch goes out -----

  /** The interval has passed at every look the loop takes at the clock in this round. */
  predicate Forces(t: Turn) { t.late && (t.next.Some? || t.early) }

  /** Some of the batches together are exactly these envelopes. */
  ghost predicate HandedOn(batches: seq<seq<Envelope>>, es: seq<Envelope>) {
    exists m :: 0 <= m <= |batches| && Flat(batches[..m]) == es
  }

  /** Whenever the interval had passed, everything taken until then was handed on. */
  ghost predicate Prompt(batches: seq<seq<Envelope>>, turns: seq<Turn>, n: nat, defaults: map<string, string>)
    requires n <= |turns|
  {
    forall k :: 0 <= k < n && Forces(turns[k]) ==> HandedOn(batches, Taken(turns[..k + 1], defaults))
  }

  /** Batch `b` was everything then pending, in a round whose interval had passed. */
  ghost predicate DueAt(batches: seq<seq<Envelope>>, b: nat, turns: seq<Turn>, k: nat, defaults: map<string, string>)
    requires b < |batches| && k < |turns|
  {
    turns[k].late && Flat(batches[..b + 1]) == Taken(turns[..k + 1], defaults)
  }

  /** No batch goes out before it is full or the interval has passed. */
  ghost predicate NotEarly(batches: seq<seq<Envelope>>, turns: seq<Turn>, n: nat, batchSize: int, defaults: map<string, string>)
    requires n <= |turns|
  {
    forall b :: 0 <= b < |batches| ==> |batches[b]| >= batchSize || exists k :: 0 <= k < n && DueAt(batches, b, turns, k, defaults)
  }

  /** A round without a batch. */
  lemma Idled(batches: seq<seq<Envelope>>, turns: seq<Turn>, n: nat, batchSize: int, defaults: map<string, string>, batch: seq<Envelope>)
    requires n < |turns| && Prompt(batches, turns, n, defaults) && NotEarly(batches, turns, n, batchSize, defaults)
    requires Flat(batches) + batch == Taken(turns[..n + 1], defaults) && (Forces(turns[n]) ==> batch == [])
    ensures Prompt(batches, turns, n + 1, defaults) && NotEarly(batches, turns, n + 1, batchSize, defaults)
  {
    hide Flat, Taken, DueAt;
    if Forces(turns[n]) {
      assert Flat(batches) + [] == Flat(batches);
      assert batches[..|batches|] == batches;
      assert HandedOn(batches, Taken(turns[..n + 1], defaults));
    }
  }

  /** A round with one. */
  lemma WentOut(batches: seq<seq<Envelope>>, b: seq<Envelope>, turns: seq<Turn>, n: nat, batchSize: int, defaults: map<string, string>)
    requires n < |turns| && Prompt(batches, turns, n, defaults) && NotEarly(batches, turns, n, batchSize, defaults)
    requires Flat(batches + [b]) == Taken(turns[..n + 1], defaults) && (|b| >= batchSize || turns[n].late)
    ensures Prompt(batches + [b], turns, n + 1, defaults) && NotEarly(batches + [b], turns, n + 1, batchSize, defaults)
  {
    hide Flat, Taken;
    var more, next := batches + [b], n + 1;
    assert more[..|more|] == more;
    forall k | 0 <= k < next && Forces(turns[k]) ensures HandedOn(more, Taken(turns[..k + 1], defaults)) {
      if k < n {
        var m :| 0 <= m <= |batches| && Flat(batches[..m]) == Taken(turns[..k + 1], defaults);
        assert more[..m] == batches[..m];
      }
    }
    forall i | 0 <= i < |more|
      ensures |more[i]| >= batchSize || exists k :: 0 <= k < next && DueAt(more, i, turns, k, defaults)
    {
      if i == |batches| {
        assert |b| >= batchSize || DueAt(more, i, turns, n, defaults);
      } else if |batches[i]| < batchSize {
        var k :| 0 <= k < n && DueAt(batches, i, turns, k, defaults);
        assert more[..i + 1] == batches[..i + 1];
        assert DueAt(more, i, turns, k, defaults);
      }
    }
  }

  class Transponder {
    const tags: map<string, string>
    const batchSize: int
    const writer: CounterAggregator
    var egress: nat
    var dropped: nat

    constructor (w: CounterAggregator, defaults: map<string, string>, size: int)
      ensures writer == w && tags == defaults && batchSize == size && egress == dropped == 0
    {
      writer, tags, batchSize, egress, dropped := w, defaults, size, 0, 0;
    }

    predicate BatchReady(batch: seq<Envelope>, elapsed: bool) {
      |batch| > 0 && (|batch| >= batchSize || elapsed)
    }

    /** `write`: one metric or the other grows by the batch's length. */
    method Write(batch: seq<Envelope>, ok: bool) returns (out: seq<Envelope>)
      requires writer.Valid()
      modifies this, writer
      ensures writer.Valid() && writer.Abs() == After(old(writer.Abs()), batch, writer.config)
      ensures out == Stamped(old(writer.Abs()), batch, writer.config)
      ensures egress == old(egress) + (if ok then |batch| else 0)
      ensures dropped == old(dropped) + (if ok then 0 else |batch|)
    {
      out := writer.Write(batch);
      if !ok {
        dropped := dropped + |batch|;
        return;
      }
      egress := egress + |batch|;
    }

    /**
      `Start`, for as many rounds as `turns` has: everything taken is in one batch or pending, in order, the
      metrics account for it, and the envelopes handed on are those of one uncut pass through the table.
     */
    method Start(turns: seq<Turn>)
      returns (batches: seq<seq<Envelope>>, outcomes: seq<bool>, handed: seq<Envelope>, batch: seq<Envelope>)
      requires writer.Valid()
      modifies this, writer
      ensures writer.Valid() && |outcomes| == |batches|
      ensures Flat(batches) + batch == Taken(turns, tags)
      ensures SizesRight(batches, batchSize) && |batch| < Largest(batchSize)
      ensures egress == old(egress) + Sized(batches, outcomes, true)
      ensures dropped == old(dropped) + Sized(batches, outcomes, false)
      ensures egress - old(egress) + dropped - old(dropped) + |batch| == |Taken(turns, tags)|
      ensures writer.Abs() == After(old(writer.Abs()), Flat(batches), writer.config)
      ensures handed == Stamped(old(writer.Abs()), Flat(batches), writer.config)
      ensures Prompt(batches, turns, |turns|, tags) && NotEarly(batches, turns, |turns|, batchSize, tags)
    {
      hide Tagged, After, Stamped, Flat, Sized, TableRight, Prompt, NotEarly;
      batches, outcomes, handed, batch := [], [], [], [];
      Nothing(old(writer.Abs()), writer.config);
      NothingDue(turns, batchSize, tags);
      var i := 0;
      while i < |turns|
        invariant 0 <= i <= |turns| && |outcomes| == |batches| && writer.Valid()
        invariant Flat(batches) + batch == Taken(turns[..i], tags)
        invariant SizesRight(batches, batchSize) && |batch| < Largest(batchSize)
        invariant egress == old(egress) + Sized(batches, outcomes, true)
        invariant dropped == old(dropped) + Sized(batches, outcomes, false)
        invariant writer.Abs() == After(old(writer.Abs()), Flat(batches), writer.config)
        invariant handed == Stamped(old(writer.Abs()), Flat(batches), writer.config)
        invariant Prompt(batches, turns, i, tags) && NotEarly(batches, turns, i, batchSize, tags)
      {
        var turn := turns[i];
        assert turns[..i + 1][..i] == turns[..i];
        i := i + 1;
        if turn.next.None? && !BatchReady(batch, turn.early) {
          Idled(batches, turns, i - 1, batchSize, tags, batch);
          continue;
        }
        if turn.next.Some? {
          var envelope := AddTags(turn.next.value, tags);
          assert Flat(batches) + (batch + [envelope]) == (Flat(batches) + batch) + [envelope];
          batch := batch + [envelope];
        }
        if !BatchReady(batch, turn.late) {
          Idled(batches, turns, i - 1, batchSize, tags, batch);
          continue;
        }
        OneBatch(batches, outcomes, batch, turn.writes);
        InBatches(old(writer.Abs()), Flat(batches), batch, writer.config);
        WentOut(batches, batch, turns, i - 1, batchSize, tags);
        var out := Write(batch, turn.writes);
        batches, outcomes, handed := batches + [batch], outcomes + [turn.writes], handed + out;
        assert Flat(batches) + [] == Flat(batches);
        batch := [];
      }
      assert turns[..i] == turns;
      SizedAll(batches, outcomes);
    }
  }

  lemma NothingDue(turns: seq<Turn>, batchSize: int, defaults: map<string, string>)
    ensures Prompt([], turns, 0, defaults) && NotEarly([], turns, 0, batchSize, defaults)
  {
  }

  lemma Nothing(t: Table, c: Config)
    ensures Flat([]) == [] && Sized([], [], true) == Sized([], [], false) == 0
    ensures After(t, [], c) == t && Stamped(t, [], c) == []
  {
  }
}
