/**
  The truncating buffer (doppler/internal/truncatingbuffer/truncating_buffer.go): a bounded channel that
  is emptied when it overflows and then tells its reader how much was lost, without ever counting its
  own notices as lost.  The reader takes from the channel at any moment.
 */
module TruncatingBuffer {

  const WORD: nat := 0x1_0000_0000_0000_0000

  function Wrap(i: int): (w: nat)
    ensures w < WORD && (0 <= i < WORD ==> w == i)
  {
    i % WORD
  }

  datatype Item = Message(id: nat) | Notice(delta: nat, total: nat)

  /** Where the writing goroutine stands in `forwardMessage`. */
  datatype Phase =
    | Open                                  // between two messages
    | Draining(msg: nat, drained: nat)      // in dropMessages, after a failed send
    | Emitting(msg: nat, notices: seq<Item>) // in notifyMessagesDropped, then writeToOutput

  /** `notices` says how many notices the context allows and the emitter can wrap: at most a log and a counter. */
  datatype Buffer = Buffer(size: nat, allowed: nat, out: seq<Item>, sent: nat, queued: nat, dropped: nat, phase: Phase)

  /** What happened so far; nothing of this is in the program. */
  datatype History = History(
    epoch: nat,         // notices emitted, or to be emitted, at the last overflow
    gone: nat,          // items that left the channel since then
    given: seq<nat>,    // messages offered by the source, in order
    takenMessages: nat, // messages the reader took
    takenNotices: nat,  // notices the reader took
    lost: nat,          // messages thrown away
    windowNotices: nat, // notices the reader took between a failed send and the end of its drain
    windowNow: nat,     // those of the current window
    drainedNotices: nat, // notices thrown away in the current window
    taken: seq<Item>,   // what the reader took, in order
    fates: seq<bool>)   // of the messages that left the channel, in order: did the reader take it?

  const START: History := History(0, 0, [], 0, 0, 0, 0, 0, 0, [], [])

  datatype State = State(b: Buffer, h: History)

  ghost predicate Init(s: State) {
    s.b.size >= 3 && s.b.allowed <= 2
    && s == State(Buffer(s.b.size, s.b.allowed, [], 0, 0, 0, Open), START)
  }

  function Notices(out: seq<Item>): nat {
    if out == [] then 0 else (if out[0].Notice? then 1 else 0) + Notices(out[1..])
  }

  function Max(a: int, b: int): int { if a < b then b else a }

  function Min(a: int, b: int): int { if a < b then a else b }

  // ----- Steps -----

  datatype Step =
    | Send(id: nat)     // forwardMessage, the channel has room
    | Overflow(id: nat) // forwardMessage, the channel is full
    | DropOne           // one round of dropMessages
    | Account           // the channel is found empty: add up the loss
    | EmitOne           // emitMessage: put one notice
    | WriteMessage      // writeToOutput and sentMessageCount = 1
    | Take              // the reader takes an item

  predicate Enabled(s: State, step: Step) {
    var b := s.b;
    match step
    case Send(_) => b.phase.Open? && |b.out| < b.size
    case Overflow(_) => b.phase.Open? && |b.out| >= b.size
    case DropOne => b.phase.Draining? && b.out != []
    case Account => b.phase.Draining? && b.out == []
    case EmitOne => b.phase.Emitting? && b.phase.notices != [] && |b.out| < b.size
    case WriteMessage => b.phase.Emitting? && b.phase.notices == []
    case Take => b.out != []
  }

  function AfterSend(b: Buffer): nat {
    if b.queued > 0 && b.sent + 1 + b.queued > b.size then b.queued - 1 else b.queued
  }

  /** `deltaDropped`, in 64-bit arithmetic. */
  function Delta(b: Buffer): nat
    requires b.phase.Draining?
  {
    Wrap(b.phase.drained - b.queued)
  }

  function NoticesFor(allowed: nat, delta: nat, total: nat): seq<Item> {
    seq(allowed, _ => Notice(delta, total))
  }

  function Apply(s: State, step: Step): State
    requires Enabled(s, step)
  {
    var b, h := s.b, s.h;
    match step
    case Send(id) =>
      State(b.(out := b.out + [Message(id)], sent := b.sent + 1, queued := AfterSend(b)), h.(given := h.given + [id]))
    case Overflow(id) =>
      State(b.(phase := Draining(id, 0)), h.(given := h.given + [id], windowNow := 0, drainedNotices := 0))
    case DropOne =>
      State(b.(out := b.out[1..], phase := b.phase.(drained := b.phase.drained + 1)),
            h.(gone := h.gone + 1,
               fates := h.fates + (if b.out[0].Message? then [false] else []),
               lost := h.lost + (if b.out[0].Message? then 1 else 0),
               drainedNotices := h.drainedNotices + (if b.out[0].Message? then 0 else 1)))
    case Account =>
      var delta := Delta(b);
      var total := Wrap(b.dropped + delta);
      State(b.(queued := 0, dropped := total, phase := Emitting(b.phase.msg, NoticesFor(b.allowed, delta, total))),
            h.(epoch := b.allowed, gone := 0))
    case EmitOne =>
      State(b.(out := b.out + [b.phase.notices[0]], queued := b.queued + 1, phase := b.phase.(notices := b.phase.notices[1..])), h)
    case WriteMessage =>
      if |b.out| < b.size then State(b.(out := b.out + [Message(b.phase.msg)], sent := 1, phase := Open), h)
      else State(b.(dropped := Wrap(b.dropped + 1), sent := 1, phase := Open), h.(lost := h.lost + 1))
    case Take =>
      var notice := b.out[0].Notice?;
      State(b.(out := b.out[1..]),
            h.(gone := h.gone + 1,
               taken := h.taken + [b.out[0]],
               fates := h.fates + (if notice then [] else [true]),
               takenMessages := h.takenMessages + (if notice then 0 else 1),
               takenNotices := h.takenNotices + (if notice then 1 else 0),
               windowNotices := h.windowNotices + (if notice && b.phase.Draining? then 1 else 0),
               windowNow := h.windowNow + (if notice && b.phase.Draining? then 1 else 0)))
  }

  // ----- The invariant -----

  /** Of the items of the current epoch, the first `epoch` are notices, and the channel holds what has not left yet. */
  ghost predicate Shape(s: State) {
    forall i :: 0 <= i < |s.b.out| ==> (s.b.out[i].Notice? <==> i + s.h.gone < s.h.epoch)
  }

  ghost predicate Counters(s: State) {
    var b, h := s.b, s.h;
    && b.size >= 3 && b.allowed <= 2 && h.epoch <= 2 && |b.out| <= b.size
    && (b.phase.Open? ==> |b.out| + h.gone == h.epoch + b.sent && b.queued == Max(0, Min(h.epoch, b.size - b.sent)))
    && (b.phase.Draining? ==>
          && b.queued == Max(0, Min(h.epoch, b.size - b.sent))
          && b.queued == h.drainedNotices + h.windowNow + Notices(b.out)
          && h.drainedNotices <= b.phase.drained && h.windowNow <= h.windowNotices)
    && (b.phase.Emitting? ==>
          && h.epoch == b.allowed && |b.phase.notices| <= b.allowed
          && |b.out| + h.gone == b.queued == b.allowed - |b.phase.notices|
          && forall n :: n in b.phase.notices ==> n.Notice? && n.total == b.dropped)
  }

  /** Messages: every input is with the reader, in the channel, lost, or in the writer's hand. */
  ghost predicate Conserved(s: State) {
    |s.h.given| == s.h.takenMessages + (|s.b.out| - Notices(s.b.out)) + s.h.lost + (if s.b.phase.Open? then 0 else 1)
  }

  /** The drop counter is the true loss less the notices taken inside drain windows, in 64-bit arithmetic. */
  ghost predicate CounterMeaning(s: State) {
    var h := s.h;
    if s.b.phase.Draining? then
      s.b.dropped == Wrap(h.lost - (s.b.phase.drained - h.drainedNotices) - (h.windowNotices - h.windowNow))
    else s.b.dropped == Wrap(h.lost - h.windowNotices)
  }

  ghost predicate Core(s: State) {
    Shape(s) && Counters(s) && Conserved(s) && CounterMeaning(s)
  }

  /** The messages among some items. */
  function Ids(items: seq<Item>): seq<nat> {
    if items == [] then []
    else
      var last := items[|items| - 1];
      Ids(items[..|items| - 1]) + (if last.Message? then [last.id] else [])
  }

  /** Those of the messages that met this fate. */
  function Fated(ids: seq<nat>, fates: seq<bool>, fate: bool): seq<nat>
    requires |ids| == |fates|
  {
    if ids == [] then []
    else
      var n := |ids| - 1;
      Fated(ids[..n], fates[..n], fate) + (if fates[n] == fate then [ids[n]] else [])
  }

  /** The message the writer holds between a failed send and its own write. */
  function InHand(b: Buffer): seq<nat> { if b.phase.Open? then [] else [b.phase.msg] }

  /**
    The messages in their order: those that left the channel come first, and of them the reader took exactly those
    not drained; the rest are in the channel and, last, in the writer's hand.
   */
  ghost predicate Ordered(s: State) {
    var h, k := s.h, |s.h.fates|;
    && k <= |h.given| && h.given[k..] == Ids(s.b.out) + InHand(s.b)
    && Ids(h.taken) == Fated(h.given[..k], h.fates, true)
    && |Fated(h.given[..k], h.fates, false)| == h.lost
    && |Ids(h.taken)| == h.takenMessages && |h.taken| == h.takenMessages + h.takenNotices
  }

  ghost predicate Inv(s: State) { Core(s) && Ordered(s) }

  /** The inputs with the drained ones cut out. */
  function Survivors(h: History): seq<nat>
    requires |h.fates| <= |h.given|
  {
    Fated(h.given[..|h.fates|], h.fates, true) + h.given[|h.fates|..]
  }

  // ----- Counting notices -----

  lemma {:induction false} NoticesOfShape(out: seq<Item>, n: int)
    requires forall i :: 0 <= i < |out| ==> (out[i].Notice? <==> i < n)
    ensures Notices(out) == Max(0, Min(|out|, n))
  {
    if out != [] {
      assert forall i :: 0 <= i < |out| - 1 ==> out[1..][i] == out[i + 1];
      NoticesOfShape(out[1..], n - 1);
    }
  }

  lemma {:induction false} NoticesAppend(out: seq<Item>, x: Item)
    ensures Notices(out + [x]) == Notices(out) + (if x.Notice? then 1 else 0)
    ensures Notices(out) <= |out|
  {
    if out == [] {
      assert out + [x] == [x];
    } else {
      assert (out + [x])[1..] == out[1..] + [x];
      NoticesAppend(out[1..], x);
    }
  }

  lemma WrapAdd(a: int, b: int)
    ensures Wrap(Wrap(a) + b) == Wrap(a + b)
    ensures Wrap(Wrap(a) + Wrap(b)) == Wrap(a + b)
  {
  }

  /** A full channel holds exactly as many notices as the queued counter says. */
  lemma FullMeansExact(s: State)
    requires Core(s) && s.b.phase.Open? && |s.b.out| == s.b.size
    ensures s.b.queued == Notices(s.b.out)
  {
    NoticesOfShape(s.b.out, s.h.epoch - s.h.gone);
  }

  // ----- Each step keeps it -----

  lemma SendKept(s: State, id: nat)
    requires Core(s) && Enabled(s, Send(id))
    ensures Core(Apply(s, Send(id)))
  {
    NoticesAppend(s.b.out, Message(id));
  }

  lemma OverflowKept(s: State, id: nat)
    requires Core(s) && Enabled(s, Overflow(id))
    ensures Core(Apply(s, Overflow(id)))
  {
    FullMeansExact(s);
  }

  lemma DropKept(s: State)
    requires Core(s) && Enabled(s, DropOne)
    ensures Core(Apply(s, DropOne))
  {
  }

  lemma TakeKept(s: State)
    requires Core(s) && Enabled(s, Take)
    ensures Core(Apply(s, Take))
  {
  }

  /** The accounted delta is the true loss of this drain less the notices the reader took meanwhile. */
  lemma AccountKept(s: State)
    requires Core(s) && Enabled(s, Account)
    ensures Delta(s.b) == Wrap(s.b.phase.drained - s.h.drainedNotices - s.h.windowNow)
    ensures Core(Apply(s, Account))
  {
    var loss := s.b.phase.drained - s.h.drainedNotices;
    var before := s.h.lost - loss - (s.h.windowNotices - s.h.windowNow);
    WrapAdd(before, loss - s.h.windowNow);
    assert s.b.dropped == Wrap(before);
    assert before + (loss - s.h.windowNow) == s.h.lost - s.h.windowNotices;
  }

  lemma EmitKept(s: State)
    requires Core(s) && Enabled(s, EmitOne)
    ensures Core(Apply(s, EmitOne))
  {
    NoticesAppend(s.b.out, s.b.phase.notices[0]);
    assert s.b.phase.notices[0] in s.b.phase.notices;
  }

  lemma WriteKept(s: State)
    requires Core(s) && Enabled(s, WriteMessage)
    ensures Core(Apply(s, WriteMessage))
  {
    NoticesAppend(s.b.out, Message(s.b.phase.msg));
  }

  // The order of the messages

  lemma IdsAppend(items: seq<Item>, x: Item)
    ensures Ids(items + [x]) == Ids(items) + (if x.Message? then [x.id] else [])
  {
    assert (items + [x])[..|items|] == items;
  }

  lemma {:induction false} IdsHead(items: seq<Item>)
    requires items != []
    ensures Ids(items) == (if items[0].Message? then [items[0].id] else []) + Ids(items[1..])
  {
    var n := |items| - 1;
    if n == 0 {
      assert items[..0] == [] && items[1..] == [];
    } else {
      IdsHead(items[..n]);
      assert items[..n][1..] == items[1..][..n - 1];
    }
  }

  lemma FatedAppend(ids: seq<nat>, fates: seq<bool>, id: nat, taken: bool, fate: bool)
    requires |ids| == |fates|
    ensures Fated(ids + [id], fates + [taken], fate) == Fated(ids, fates, fate) + (if taken == fate then [id] else [])
  {
    assert (ids + [id])[..|ids|] == ids && (fates + [taken])[..|fates|] == fates;
  }

  /** One more message given, at the end of the channel or into the writer's hand. */
  lemma GivenMore(s: State, t: State, id: nat)
    requires Ordered(s) && t.h.given == s.h.given + [id]
    requires t.h == s.h.(given := t.h.given, windowNow := t.h.windowNow, drainedNotices := t.h.drainedNotices)
    requires Ids(t.b.out) + InHand(t.b) == Ids(s.b.out) + InHand(s.b) + [id]
    ensures Ordered(t)
  {
    var k := |s.h.fates|;
    assert t.h.given[k..] == s.h.given[k..] + [id];
    assert t.h.given[..k] == s.h.given[..k];
  }

  /** The item at the head of the channel leaves, to the reader or into the drain. */
  lemma HeadLeaves(s: State, t: State, took: bool)
    requires Ordered(s) && s.b.out != [] && t.b.out == s.b.out[1..] && InHand(t.b) == InHand(s.b)
    requires t.h.given == s.h.given && t.h.fates == s.h.fates + (if s.b.out[0].Message? then [took] else [])
    requires t.h.taken == s.h.taken + (if took then [s.b.out[0]] else [])
    requires t.h.lost == s.h.lost + (if !took && s.b.out[0].Message? then 1 else 0)
    requires t.h.takenMessages == s.h.takenMessages + (if took && s.b.out[0].Message? then 1 else 0)
    requires t.h.takenNotices == s.h.takenNotices + (if took && s.b.out[0].Notice? then 1 else 0)
    ensures Ordered(t)
  {
    hide Ids, Fated;
    var h, k, x := s.h, |s.h.fates|, s.b.out[0];
    IdsHead(s.b.out);
    IdsAppend(h.taken, x);
    assert !took ==> t.h.taken == h.taken;
    if x.Message? {
      assert t.h.fates == h.fates + [took];
      assert h.given[k..][0] == x.id;
      assert h.given[..k + 1] == h.given[..k] + [x.id];
      assert h.given[k + 1..] == h.given[k..][1..];
      assert h.given[k + 1..] == Ids(t.b.out) + InHand(t.b);
      FatedAppend(h.given[..k], h.fates, x.id, took, true);
      FatedAppend(h.given[..k], h.fates, x.id, took, false);
    } else {
      assert t.h.fates == h.fates;
      assert [] + Ids(t.b.out) == Ids(t.b.out) && Ids(h.taken) + [] == Ids(h.taken);
    }
  }

  lemma OrderKept(s: State, step: Step)
    requires Inv(s) && Enabled(s, step)
    ensures Ordered(Apply(s, step))
  {
    hide Fated, Ids;
    var t := Apply(s, step);
    match step
    case Send(id) =>
      IdsAppend(s.b.out, Message(id));
      GivenMore(s, t, id);
    case Overflow(id) =>
      GivenMore(s, t, id);
    case DropOne =>
      HeadLeaves(s, t, false);
    case Account =>
    case EmitOne =>
      assert s.b.phase.notices[0] in s.b.phase.notices;
      IdsAppend(s.b.out, s.b.phase.notices[0]);
    case WriteMessage =>
      IdsAppend(s.b.out, Message(s.b.phase.msg));
    case Take =>
      HeadLeaves(s, t, true);
  }

  lemma CoreKept(s: State, step: Step)
    requires Core(s) && Enabled(s, step)
    ensures Core(Apply(s, step))
  {
    hide Core;
    match step
    case Send(id) => SendKept(s, id);
    case Overflow(id) => OverflowKept(s, id);
    case DropOne => DropKept(s);
    case Account => AccountKept(s);
    case EmitOne => EmitKept(s);
    case WriteMessage => WriteKept(s);
    case Take => TakeKept(s);
  }

  lemma StepKept(s: State, step: Step)
    requires Inv(s) && Enabled(s, step)
    ensures Inv(Apply(s, step))
  {
    hide Core, Ordered;
    CoreKept(s, step);
    OrderKept(s, step);
  }

  // ----- Whole runs -----

  ghost predicate IsRun(states: seq<State>, steps: seq<Step>) {
    && |states| == |steps| + 1 && Init(states[0])
    && (forall i :: 0 <= i < |steps| ==> Next(states[i], steps[i], states[i + 1]))
  }

  ghost predicate Next(s: State, step: Step, t: State) { Enabled(s, step) && t == Apply(s, step) }

  lemma {:induction false} Always(states: seq<State>, steps: seq<Step>, i: nat)
    requires IsRun(states, steps) && i < |states|
    ensures Inv(states[i])
  {
    if i > 0 {
      Always(states, steps, i - 1);
      assert Next(states[i - 1], steps[i - 1], states[i]);
      StepKept(states[i - 1], steps[i - 1]);
    }
  }

  /** Between two messages the queued counter has its closed form, and on a full channel it is exact. */
  lemma Bookkeeping(states: seq<State>, steps: seq<Step>, i: nat)
    requires IsRun(states, steps) && i < |states| && states[i].b.phase.Open?
    ensures var b, h := states[i].b, states[i].h;
      && b.queued == Max(0, Min(h.epoch, b.size - b.sent))
      && (|b.out| == b.size ==> b.queued == Notices(b.out))
  {
    Always(states, steps, i);
    if |states[i].b.out| == states[i].b.size { FullMeansExact(states[i]); }
  }

  /** The writer never blocks on its own notices and never drops the message that overflowed. */
  lemma NeverStuck(states: seq<State>, steps: seq<Step>, i: nat)
    requires IsRun(states, steps) && i < |states| && states[i].b.phase.Emitting?
    ensures |states[i].b.out| < states[i].b.size
    ensures Enabled(states[i], EmitOne) || Enabled(states[i], WriteMessage)
  {
    Always(states, steps, i);
  }

  /** The announced delta is the true loss of the drain exactly when the reader took no notice meanwhile. */
  lemma DeltaExact(states: seq<State>, steps: seq<Step>, i: nat)
    requires IsRun(states, steps) && i < |states| && Enabled(states[i], Account) && states[i].b.phase.drained < WORD
    ensures var b, h := states[i].b, states[i].h;
      && h.drainedNotices <= b.phase.drained
      && (Delta(b) == b.phase.drained - h.drainedNotices <==> h.windowNow == 0)
      && (b.phase.drained < b.queued <==> Delta(b) > b.phase.drained)
  {
    Always(states, steps, i);
    AccountKept(states[i]);
  }

  /** Conservation: on any schedule, with the error of the drop counter spelled out. */
  lemma Conservation(states: seq<State>, steps: seq<Step>, i: nat)
    requires IsRun(states, steps) && i < |states| && states[i].b.phase.Open?
    requires states[i].h.lost < WORD && states[i].h.windowNotices < WORD
    ensures var b, h := states[i].b, states[i].h;
      && |h.given| == h.takenMessages + (|b.out| - Notices(b.out)) + h.lost
      && b.dropped == Wrap(h.lost - h.windowNotices)
      && (b.dropped == h.lost <==> h.windowNotices == 0)
  {
    Always(states, steps, i);
  }

  /**
    Order: what the reader took, what is in the channel and what the writer holds are, in this order, the inputs
    with exactly the drained ones cut out.
   */
  lemma InOrder(states: seq<State>, steps: seq<Step>, i: nat)
    requires IsRun(states, steps) && i < |states|
    ensures var b, h := states[i].b, states[i].h;
      && |h.fates| <= |h.given| && Ids(h.taken) + Ids(b.out) + InHand(b) == Survivors(h)
      && |Fated(h.given[..|h.fates|], h.fates, false)| == h.lost
  {
    hide Core;
    Always(states, steps, i);
    var b, h := states[i].b, states[i].h;
    assert Ids(h.taken) + (Ids(b.out) + InHand(b)) == Ids(h.taken) + Ids(b.out) + InHand(b);
  }

  /** A notice put in the channel announces the loss so far, less the notices taken inside drain windows. */
  lemma NoticeTotals(states: seq<State>, steps: seq<Step>, i: nat)
    requires IsRun(states, steps) && i < |steps| && steps[i].EmitOne?
    ensures var t := states[i + 1];
      && t.b.out != []
      && t.b.out[|t.b.out| - 1].Notice?
      && t.b.out[|t.b.out| - 1].total == Wrap(t.h.lost - t.h.windowNotices)
  {
    Always(states, steps, i);
    assert Next(states[i], steps[i], states[i + 1]);
    assert states[i].b.phase.notices[0] in states[i].b.phase.notices;
  }

  // ----- What a notice says -----

  /** A drain in progress since step `o`: what was lost and which notices were taken in it. */
  ghost predicate DrainingSince(states: seq<State>, steps: seq<Step>, i: nat, o: nat)
    requires i < |states| && |steps| <= |states|
  {
    && o < i && o < |steps| && steps[o].Overflow? && states[i].b.phase.Draining?
    && var s, before := states[i], states[o];
       && s.h.lost - before.h.lost == s.b.phase.drained - s.h.drainedNotices
       && s.h.takenNotices - before.h.takenNotices == s.h.windowNow
       && s.b.dropped == before.b.dropped
  }

  lemma {:induction false} FindOverflow(states: seq<State>, steps: seq<Step>, i: nat) returns (o: nat)
    requires IsRun(states, steps) && i < |states| && states[i].b.phase.Draining?
    ensures DrainingSince(states, steps, i, o)
  {
    var s, step := states[i - 1], steps[i - 1];
    assert Next(s, step, states[i]);
    if step.Overflow? {
      o := i - 1;
    } else {
      o := FindOverflow(states, steps, i - 1);
    }
  }

  /**
    The loss and the notices of the drain between the overflow at step `o` and the accounting at step `a`, as a notice
    that follows announces them: real messages lost, less the notices the reader took meanwhile.
   */
  ghost predicate Announces(states: seq<State>, steps: seq<Step>, o: nat, a: nat, n: Item)
    requires o < a < |steps| <= |states|
  {
    var lost := states[a].h.lost - states[o].h.lost;
    var taken := states[a].h.takenNotices - states[o].h.takenNotices;
    && steps[o].Overflow? && steps[a].Account? && n.Notice?
    && n.delta == Wrap(lost - taken)
    && n.total == Wrap(states[o].b.dropped + n.delta)
  }

  /** All notices still to be emitted, and no drain since. */
  ghost predicate Announcing(states: seq<State>, steps: seq<Step>, i: nat, o: nat, a: nat)
    requires o < a < i < |states| && |steps| <= |states| && a < |steps|
  {
    && states[i].b.phase.Emitting?
    && (forall j :: a < j < i && j < |steps| ==> !steps[j].Account? && !steps[j].Overflow?)
    && forall n :: n in states[i].b.phase.notices ==> Announces(states, steps, o, a, n)
  }

  lemma {:induction false} FindAccount(states: seq<State>, steps: seq<Step>, i: nat) returns (o: nat, a: nat)
    requires IsRun(states, steps) && i < |states| && states[i].b.phase.Emitting?
    ensures o < a < i && Announcing(states, steps, i, o, a)
  {
    var s, step := states[i - 1], steps[i - 1];
    assert Next(s, step, states[i]);
    if step.Account? {
      a := i - 1;
      o := FindOverflow(states, steps, a);
      Always(states, steps, a);
      AccountKept(states[a]);
    } else {
      o, a := FindAccount(states, steps, i - 1);
      assert forall n :: n in states[i].b.phase.notices ==> n in s.b.phase.notices;
    }
  }

  /**
    Every notice put in the channel announces as delta the messages lost in the drain just before it less the notices
    the reader took in that drain, and as total the total before that drain plus this delta.
   */
  lemma NoticeAnnounces(states: seq<State>, steps: seq<Step>, i: nat) returns (o: nat, a: nat)
    requires IsRun(states, steps) && i < |steps| && steps[i].EmitOne?
    ensures o < a < i && (forall j :: a < j < i ==> !steps[j].Account? && !steps[j].Overflow?)
    ensures states[i + 1].b.out != [] && Announces(states, steps, o, a, states[i + 1].b.out[|states[i + 1].b.out| - 1])
  {
    assert Next(states[i], steps[i], states[i + 1]);
    o, a := FindAccount(states, steps, i);
    assert states[i].b.phase.notices[0] in states[i].b.phase.notices;
  }

  /** So the announced delta is the number of messages lost in that drain exactly when no notice was taken in it. */
  lemma AnnouncedExact(states: seq<State>, steps: seq<Step>, o: nat, a: nat, n: Item)
    requires o < a < |steps| <= |states| && Announces(states, steps, o, a, n)
    requires 0 <= states[a].h.lost - states[o].h.lost < WORD
    requires 0 <= states[a].h.takenNotices - states[o].h.takenNotices < WORD
    ensures n.delta == states[a].h.lost - states[o].h.lost <==> states[a].h.takenNotices == states[o].h.takenNotices
  {
  }

  // ----- The handler without interference -----

  /** `forwardMessage` while the reader takes nothing. */
  function Forward(b: Buffer, id: nat): Buffer {
    if |b.out| < b.size then b.(out := b.out + [Message(id)], sent := b.sent + 1, queued := AfterSend(b))
    else
      var delta := Wrap(|b.out| - b.queued);
      var total := Wrap(b.dropped + delta);
      b.(out := NoticesFor(b.allowed, delta, total) + [Message(id)], sent := 1, queued := b.allowed, dropped := total)
  }

  /**
    An undisturbed overflow: the channel then holds the allowed notices, each announcing as delta the messages that
    were in the channel and as total all losses up to now, and after them the message that did not fit.
   */
  lemma ForwardAnnounces(s: State, id: nat)
    requires Inv(s) && s.b.phase.Open? && |s.b.out| == s.b.size && s.b.size < WORD
    ensures
      var out := Forward(s.b, id).out;
      && |out| == s.b.allowed + 1 && out[s.b.allowed] == Message(id)
      && forall i :: 0 <= i < s.b.allowed ==> out[i] == Notice(|Ids(s.b.out)|, Wrap(s.b.dropped + |Ids(s.b.out)|))
  {
    FullMeansExact(s);
    IdsAndNotices(s.b.out);
  }

  lemma {:induction false} IdsAndNotices(items: seq<Item>)
    ensures |Ids(items)| + Notices(items) == |items|
  {
    if items != [] {
      var n := |items| - 1;
      IdsAndNotices(items[..n]);
      NoticesAppend(items[..n], items[n]);
      assert items == items[..n] + [items[n]];
    }
  }

  ghost predicate Executes(s: State, steps: seq<Step>, t: State)
    decreases |steps|
  {
    if steps == [] then s == t
    else Enabled(s, steps[0]) && Executes(Apply(s, steps[0]), steps[1..], t)
  }

  lemma {:induction false} ExecutesBoth(s: State, a: seq<Step>, t: State, b: seq<Step>, u: State)
    requires Executes(s, a, t) && Executes(t, b, u)
    ensures Executes(s, a + b, u)
    decreases |a|
  {
    if a == [] {
      assert a + b == b;
    } else {
      ExecutesBoth(Apply(s, a[0]), a[1..], t, b, u);
      assert (a + b)[1..] == a[1..] + b;
    }
  }

  lemma ExecutesOne(s: State, step: Step)
    requires Enabled(s, step)
    ensures Executes(s, [step], Apply(s, step))
  {
    assert [step][1..] == [];
    assert Executes(Apply(s, step), [], Apply(s, step));
  }

  lemma {:induction false} DrainAll(s: State) returns (steps: seq<Step>, t: State)
    requires s.b.phase.Draining?
    ensures Executes(s, steps, t) && Take !in steps
    ensures t.b == s.b.(out := [], phase := s.b.phase.(drained := s.b.phase.drained + |s.b.out|))
    decreases |s.b.out|
  {
    if s.b.out == [] {
      steps, t := [], s;
    } else {
      var rest;
      rest, t := DrainAll(Apply(s, DropOne));
      steps := [DropOne] + rest;
      assert steps[1..] == rest;
    }
  }

  lemma {:induction false} EmitAll(s: State) returns (steps: seq<Step>, t: State)
    requires s.b.phase.Emitting? && |s.b.out| + |s.b.phase.notices| <= s.b.size
    ensures Executes(s, steps, t) && Take !in steps
    ensures t.b == s.b.(out := s.b.out + s.b.phase.notices, queued := s.b.queued + |s.b.phase.notices|,
                        phase := s.b.phase.(notices := []))
    decreases |s.b.phase.notices|
  {
    if s.b.phase.notices == [] {
      steps, t := [], s;
      assert s.b.out + [] == s.b.out;
    } else {
      var n := s.b.phase.notices;
      var rest;
      rest, t := EmitAll(Apply(s, EmitOne));
      steps := [EmitOne] + rest;
      assert steps[1..] == rest;
      assert s.b.out + [n[0]] + n[1..] == s.b.out + n;
    }
  }

  /** An overflow up to its accounting, while the reader takes nothing. */
  lemma Accounted(s: State, id: nat) returns (steps: seq<Step>, t: State)
    requires s.b.phase.Open? && |s.b.out| == s.b.size
    ensures Executes(s, steps, t) && Take !in steps
    ensures
      var delta := Wrap(|s.b.out| - s.b.queued);
      var total := Wrap(s.b.dropped + delta);
      t.b == s.b.(out := [], queued := 0, dropped := total, phase := Emitting(id, NoticesFor(s.b.allowed, delta, total)))
  {
    hide Executes;
    var s1 := Apply(s, Overflow(id));
    ExecutesOne(s, Overflow(id));
    var drains, s2 := DrainAll(s1);
    t := Apply(s2, Account);
    ExecutesOne(s2, Account);
    ExecutesBoth(s, [Overflow(id)], s1, drains, s2);
    ExecutesBoth(s, [Overflow(id)] + drains, s2, [Account], t);
    steps := [Overflow(id)] + drains + [Account];
  }

  /** The rest of it: the notices, then the message. */
  lemma Announced(s: State) returns (steps: seq<Step>, t: State)
    requires s.b.phase.Emitting? && s.b.out == [] && |s.b.phase.notices| < s.b.size
    ensures Executes(s, steps, t) && Take !in steps
    ensures t.b == s.b.(out := s.b.phase.notices + [Message(s.b.phase.msg)], sent := 1,
                        queued := s.b.queued + |s.b.phase.notices|, phase := Open)
  {
    hide Executes;
    var emits, s4 := EmitAll(s);
    t := Apply(s4, WriteMessage);
    ExecutesOne(s4, WriteMessage);
    ExecutesBoth(s, emits, s4, [WriteMessage], t);
    steps := emits + [WriteMessage];
    assert [] + s.b.phase.notices == s.b.phase.notices;
  }

  /** `Forward` is what the steps of one call add up to when the reader does not interfere. */
  lemma ForwardIsSteps(s: State, id: nat) returns (steps: seq<Step>, t: State)
    requires Inv(s) && s.b.phase.Open?
    ensures Executes(s, steps, t) && Take !in steps && t.b == Forward(s.b, id)
  {
    hide Executes, Apply, Wrap;
    if |s.b.out| < s.b.size {
      steps, t := [Send(id)], Apply(s, Send(id));
      ExecutesOne(s, Send(id));
      Sent(s, id);
    } else {
      var first, u := Accounted(s, id);
      var second;
      second, t := Announced(u);
      ExecutesBoth(s, first, u, second, t);
      steps := first + second;
    }
  }

  lemma Sent(s: State, id: nat)
    requires Enabled(s, Send(id))
    ensures Apply(s, Send(id)).b == Forward(s.b, id)
  {
  }

  // ----- A reader that takes notices inside the window -----

  /**
    From any state in which a full channel starts with queued notices, a reader that empties the channel
    inside the drain window makes the announced delta wrap around: nothing was lost, and the next notices
    report 2^64 less the notices taken.
   */
  lemma {:induction false} TakeAll(s: State) returns (steps: seq<Step>, t: State)
    requires s.b.phase.Draining?
    ensures Executes(s, steps, t) && t.b == s.b.(out := []) && t.h.lost == s.h.lost
    decreases |s.b.out|
  {
    if s.b.out == [] {
      steps, t := [], s;
    } else {
      var rest;
      rest, t := TakeAll(Apply(s, Take));
      steps := [Take] + rest;
      assert steps[1..] == rest;
    }
  }

  lemma WindowUnderflow(s: State, id: nat) returns (steps: seq<Step>, t: State)
    requires Inv(s) && Enabled(s, Overflow(id)) && s.b.queued > 0
    ensures Executes(s, steps, t) && Enabled(t, Account)
    ensures t.h.lost == s.h.lost && Delta(t.b) == WORD - s.b.queued
  {
    var s1 := Apply(s, Overflow(id));
    ExecutesOne(s, Overflow(id));
    var takes;
    takes, t := TakeAll(s1);
    ExecutesBoth(s, [Overflow(id)], s1, takes, t);
    steps := [Overflow(id)] + takes;
  }

  /** Such a state exists: with room for three, a second overflow right after the first. */
  lemma SecondOverflow(s: State) returns (steps: seq<Step>, t: State)
    requires s == State(Buffer(3, 2, [], 0, 0, 0, Open), START)
    ensures Init(s) && Executes(s, steps, t)
    ensures Inv(t) && Enabled(t, Overflow(5)) && t.b.queued == 2
  {
    hide Executes, Ordered, Ids;
    assert Ordered(s) by { NothingYet(s); }
    var steps1, s1 := ForwardIsSteps(s, 1);
    InvAlong(s, steps1, s1);
    var steps2, s2 := ForwardIsSteps(s1, 2);
    InvAlong(s1, steps2, s2);
    var steps3, s3 := ForwardIsSteps(s2, 3);
    InvAlong(s2, steps3, s3);
    var steps4;
    steps4, t := ForwardIsSteps(s3, 4);
    InvAlong(s3, steps4, t);
    ExecutesBoth(s, steps1, s1, steps2, s2);
    ExecutesBoth(s, steps1 + steps2, s2, steps3, s3);
    ExecutesBoth(s, steps1 + steps2 + steps3, s3, steps4, t);
    steps := steps1 + steps2 + steps3 + steps4;
  }

  lemma NothingYet(s: State)
    requires s.h == START && s.b.out == [] && s.b.phase.Open?
    ensures Ordered(s)
  {
  }

  lemma {:induction false} InvAlong(s: State, steps: seq<Step>, t: State)
    requires Inv(s) && Executes(s, steps, t)
    ensures Inv(t)
    decreases |steps|
  {
    if steps != [] {
      StepKept(s, steps[0]);
      InvAlong(Apply(s, steps[0]), steps[1..], t);
    }
  }
}
