/**
  Metron's v1 batch writer (metron/internal/egress/v1/writer.go) as a state machine: writes and timer
  flushes run under the lock, while each overflow batch is retried by a goroutine of its own.
 */
module BatchWriter {
  import opened Frames
  import opened Uuids
  import opened Wrappers

  const MAX_OVERFLOW_TRIES: nat := 5
  const MIN_BUFFER_CAPACITY: nat := 1024

  /** What `Write` is given; a chainer is known by its identity. */
  datatype Message = Message(body: seq<Byte>, chainers: seq<nat>)

  datatype Status = InFlight | Written | Dropped

  /** Messages `lo..hi` of all those accepted, as the bytes, count and chainers handed to the output. */
  datatype Batch = Batch(lo: nat, hi: nat, bytes: seq<Byte>, count: nat, chainers: seq<nat>, tries: nat, status: Status)

  /**
    `accepted` lists the messages in the order `Write` took them and `batches` what became of those no longer
    in the buffer. `written` lists batch numbers in the order the output accepted them; `drops` the
    arguments of `Drop`; `sent` and `retries` are the two metrics.
   */
  datatype State = State(capacity: nat, buffer: seq<Byte>, messages: nat, chainers: seq<nat>,
                         accepted: seq<Message>, batches: seq<Batch>, written: seq<nat>,
                         drops: seq<nat>, sent: nat, retries: nat)

  datatype Step = Accept(m: Message) | Flush(ok: bool) | Attempt(b: nat, ok: bool)

  function Bodies(ms: seq<Message>): (r: seq<seq<Byte>>)
    ensures |r| == |ms| && forall i :: 0 <= i < |ms| ==> r[i] == ms[i].body
  {
    if ms == [] then [] else [ms[0].body] + Bodies(ms[1..])
  }

  function ChainersOf(ms: seq<Message>): seq<nat> {
    if ms == [] then [] else ms[0].chainers + ChainersOf(ms[1..])
  }

  function Initial(capacity: nat): State {
    State(capacity, [], 0, [], [], [], [], [], 0, 0)
  }

  predicate Enabled(s: State, step: Step) {
    match step
    case Accept(_) => s.messages <= |s.accepted|
    case Flush(_) => s.messages <= |s.accepted|
    case Attempt(b, _) => b < |s.batches| && s.batches[b].status.InFlight?
  }

  predicate Overflows(s: State, m: Message) {
    |s.buffer| + |PrefixMessage(m.body)| > s.capacity
  }

  function ApplyAccept(s: State, m: Message): State
    requires s.messages <= |s.accepted|
  {
    var n := |s.accepted|;
    var bytes, chainers := s.buffer + PrefixMessage(m.body), s.chainers + m.chainers;
    if Overflows(s, m) then
      s.(buffer := [], messages := 0, chainers := [], accepted := s.accepted + [m],
         batches := s.batches + [Batch(n - s.messages, n + 1, bytes, s.messages + 1, chainers, 0, InFlight)])
    else
      s.(buffer := bytes, messages := s.messages + 1, chainers := chainers, accepted := s.accepted + [m])
  }

  function ApplyFlush(s: State, ok: bool): State
    requires s.messages <= |s.accepted|
  {
    if s.messages == 0 then s
    else if !ok then s.(retries := s.retries + 1)
    else
      var n := |s.accepted|;
      s.(buffer := [], messages := 0, chainers := [], sent := s.sent + s.messages,
         batches := s.batches + [Batch(n - s.messages, n, s.buffer, s.messages, s.chainers, 1, Written)],
         written := s.written + [|s.batches|])
  }

  /** One round of `retryWrites`, and the `Drop` after its last one fails. */
  function ApplyAttempt(s: State, b: nat, ok: bool): State
    requires b < |s.batches|
  {
    var batch := s.batches[b];
    var t := s.(retries := s.retries + (if batch.tries > 0 then 1 else 0));
    var tried := batch.(tries := batch.tries + 1);
    if ok then
      t.(batches := s.batches[b := tried.(status := Written)], written := s.written + [b], sent := s.sent + batch.count)
    else if tried.tries < MAX_OVERFLOW_TRIES then t.(batches := s.batches[b := tried])
    else t.(batches := s.batches[b := tried.(status := Dropped)], drops := s.drops + [batch.count % PREFIX_LIMIT])
  }

  function Apply(s: State, step: Step): State
    requires Enabled(s, step)
  {
    match step
    case Accept(m) => ApplyAccept(s, m)
    case Flush(ok) => ApplyFlush(s, ok)
    case Attempt(b, ok) => ApplyAttempt(s, b, ok)
  }

  ghost predicate Next(s: State, step: Step, t: State) {
    Enabled(s, step) && t == Apply(s, step)
  }

  ghost predicate IsRun(capacity: nat, states: seq<State>, steps: seq<Step>) {
    && |states| == |steps| + 1 && states[0] == Initial(capacity)
    && forall i :: 0 <= i < |steps| ==> Next(states[i], steps[i], states[i + 1])
  }

  // ----- The invariant -----

  function Start(s: State): int { |s.accepted| - s.messages }

  /** The buffer is exactly the frames of the newest `messages` accepted messages, within capacity. */
  ghost predicate BufferRight(s: State) {
    && s.messages <= |s.accepted|
    && s.buffer == Framed(Bodies(s.accepted[Start(s)..]))
    && s.chainers == ChainersOf(s.accepted[Start(s)..])
    && |s.buffer| <= s.capacity
  }

  /** The batches, in order of creation, cut the older messages into consecutive nonempty runs. */
  ghost predicate Tiled(batches: seq<Batch>, end: int) {
    if batches == [] then end == 0
    else
      var last := batches[|batches| - 1];
      last.lo < last.hi == end && Tiled(batches[..|batches| - 1], last.lo)
  }

  /**
    A batch carries its run's frames, count and chainers, and ends only as the retry rule allows; what leaves outside a
    timer flush did not fit the buffer.
   */
  ghost predicate BatchRight(accepted: seq<Message>, capacity: nat, b: Batch) {
    && b.lo <= b.hi <= |accepted|
    && b.bytes == Framed(Bodies(accepted[b.lo..b.hi]))
    && b.count == b.hi - b.lo
    && b.chainers == ChainersOf(accepted[b.lo..b.hi])
    && b.count <= capacity / 4 + 1
    && (b.status.InFlight? || b.status.Dropped? ==> |b.bytes| > capacity)
    && (b.status.InFlight? ==> b.tries < MAX_OVERFLOW_TRIES)
    && (b.status.Written? ==> 1 <= b.tries <= MAX_OVERFLOW_TRIES)
    && (b.status.Dropped? ==> b.tries == MAX_OVERFLOW_TRIES)
  }

  ghost predicate BatchesRight(s: State) {
    forall i :: 0 <= i < |s.batches| ==> BatchRight(s.accepted, s.capacity, s.batches[i])
  }

  function CountIn(batches: seq<Batch>, status: Status): nat {
    if batches == [] then 0
    else
      var last := batches[|batches| - 1];
      CountIn(batches[..|batches| - 1], status) + (if last.status == status then last.count else 0)
  }

  /** What `Drop` is told in all: each dropped batch's count as a `uint32`. */
  function ToldIn(batches: seq<Batch>): nat {
    if batches == [] then 0
    else
      var last := batches[|batches| - 1];
      ToldIn(batches[..|batches| - 1]) + (if last.status.Dropped? then last.count % PREFIX_LIMIT else 0)
  }

  function Sum(counts: seq<nat>): nat {
    if counts == [] then 0 else Sum(counts[..|counts| - 1]) + counts[|counts| - 1]
  }

  /** The output accepted each written batch once, and `sent` and the drops add up. */
  ghost predicate LedgerRight(s: State) {
    && s.sent == CountIn(s.batches, Written) && Sum(s.drops) == ToldIn(s.batches)
    && (forall i :: 0 <= i < |s.written| ==> s.written[i] < |s.batches| && s.batches[s.written[i]].status.Written?)
    && (forall i :: 0 <= i < |s.batches| && s.batches[i].status.Written? ==> i in s.written)
    && (forall i, j :: 0 <= i < j < |s.written| ==> s.written[i] != s.written[j])
  }

  ghost predicate Inv(s: State) {
    BufferRight(s) && Tiled(s.batches, Start(s)) && BatchesRight(s) && LedgerRight(s)
  }

  // ----- Lemmas on the parts -----

  lemma {:induction false} BodiesAppend(a: seq<Message>, b: seq<Message>)
    ensures Bodies(a + b) == Bodies(a) + Bodies(b)
    ensures ChainersOf(a + b) == ChainersOf(a) + ChainersOf(b)
  {
    if a == [] {
      assert a + b == b;
    } else {
      assert (a + b)[1..] == a[1..] + b;
      BodiesAppend(a[1..], b);
    }
  }

  lemma ChainersOfOne(m: Message)
    ensures ChainersOf([m]) == m.chainers && Bodies([m]) == [m.body]
  {
    assert ChainersOf([m][1..]) == [];
  }

  /** One more message at the end of a run of messages. */
  lemma OneMore(ms: seq<Message>, m: Message)
    ensures Framed(Bodies(ms + [m])) == Framed(Bodies(ms)) + PrefixMessage(m.body)
    ensures ChainersOf(ms + [m]) == ChainersOf(ms) + m.chainers
  {
    hide PrefixMessage;
    BodiesAppend(ms, [m]);
    ChainersOfOne(m);
    FramedAppend(Bodies(ms), [m.body]);
    FramedOne(m.body);
  }

  lemma Earlier(accepted: seq<Message>, m: Message, capacity: nat, b: Batch)
    requires BatchRight(accepted, capacity, b)
    ensures BatchRight(accepted + [m], capacity, b)
  {
    assert (accepted + [m])[b.lo..b.hi] == accepted[b.lo..b.hi];
  }

  lemma TiledAppend(batches: seq<Batch>, b: Batch)
    requires Tiled(batches, b.lo) && b.lo < b.hi
    ensures Tiled(batches + [b], b.hi)
  {
    assert (batches + [b])[..|batches|] == batches;
  }

  lemma {:induction false} TiledUpdate(batches: seq<Batch>, end: int, i: nat, b: Batch)
    requires Tiled(batches, end) && i < |batches| && b.lo == batches[i].lo && b.hi == batches[i].hi
    ensures Tiled(batches[i := b], end)
  {
    var n := |batches| - 1;
    if i == n {
      assert batches[i := b][..n] == batches[..n];
    } else {
      assert batches[i := b][..n] == batches[..n][i := b];
      TiledUpdate(batches[..n], batches[n].lo, i, b);
    }
  }

  lemma CountAppend(batches: seq<Batch>, b: Batch, status: Status)
    ensures !b.status.Dropped? ==> ToldIn(batches + [b]) == ToldIn(batches)
    ensures CountIn(batches + [b], status) == CountIn(batches, status) + (if b.status == status then b.count else 0)
  {
    assert (batches + [b])[..|batches|] == batches;
  }

  lemma {:induction false} CountUpdate(batches: seq<Batch>, i: nat, b: Batch, status: Status)
    requires i < |batches|
    ensures CountIn(batches[i := b], status) == CountIn(batches, status)
      - (if batches[i].status == status then batches[i].count else 0) + (if b.status == status then b.count else 0)
  {
    var n := |batches| - 1;
    if i == n {
      assert batches[i := b][..n] == batches[..n];
    } else {
      assert batches[i := b][..n] == batches[..n][i := b];
      CountUpdate(batches[..n], i, b, status);
    }
  }

  lemma {:induction false} ToldUpdate(batches: seq<Batch>, i: nat, b: Batch)
    requires i < |batches| && batches[i].status.InFlight?
    ensures ToldIn(batches[i := b]) == ToldIn(batches) + (if b.status.Dropped? then b.count % PREFIX_LIMIT else 0)
  {
    var n := |batches| - 1;
    if i == n {
      assert batches[i := b][..n] == batches[..n];
    } else {
      assert batches[i := b][..n] == batches[..n][i := b];
      ToldUpdate(batches[..n], i, b);
    }
  }

  // ----- Every step keeps the invariant -----

  lemma BufferKept(s: State, m: Message)
    requires BufferRight(s)
    ensures BufferRight(ApplyAccept(s, m))
  {
    hide PrefixMessage, Framed, Bodies, ChainersOf;
    var t := ApplyAccept(s, m);
    if Overflows(s, m) {
      assert t.accepted[Start(t)..] == [];
      EmptyRun();
    } else {
      assert t.accepted[Start(t)..] == s.accepted[Start(s)..] + [m];
      OneMore(s.accepted[Start(s)..], m);
    }
  }

  lemma EmptyRun()
    ensures Framed(Bodies([])) == [] && ChainersOf([]) == []
  {
  }

  lemma OverflowBatch(s: State, m: Message)
    requires BufferRight(s) && Overflows(s, m)
    ensures
      var t := ApplyAccept(s, m);
      BatchRight(t.accepted, t.capacity, t.batches[|s.batches|])
  {
    hide PrefixMessage, Framed, Bodies, ChainersOf;
    var t := ApplyAccept(s, m);
    var b := t.batches[|s.batches|];
    assert t.accepted[b.lo..b.hi] == s.accepted[Start(s)..] + [m];
    OneMore(s.accepted[Start(s)..], m);
    Fits(s);
  }

  lemma Fits(s: State)
    requires BufferRight(s)
    ensures s.messages <= s.capacity / 4
  {
    FramedLong(Bodies(s.accepted[Start(s)..]));
  }

  lemma AcceptKept(s: State, m: Message)
    requires Inv(s)
    ensures Inv(ApplyAccept(s, m))
  {
    hide BufferRight, BatchRight, Tiled, CountIn, ToldIn, Overflows;
    Within(s);
    BufferKept(s, m);
    var t := ApplyAccept(s, m);
    if Overflows(s, m) {
      OverflowBatch(s, m);
      TiledAppend(s.batches, t.batches[|s.batches|]);
      CountAppend(s.batches, t.batches[|s.batches|], Written);
    }
    forall i | 0 <= i < |t.batches| ensures BatchRight(t.accepted, t.capacity, t.batches[i]) {
      if i < |s.batches| {
        Earlier(s.accepted, m, s.capacity, s.batches[i]);
      }
    }
  }

  lemma Within(s: State)
    requires BufferRight(s)
    ensures s.messages <= |s.accepted|
  {
  }

  lemma FlushBatch(s: State)
    requires BufferRight(s) && s.messages > 0
    ensures
      var t := ApplyFlush(s, true);
      BufferRight(t) && BatchRight(t.accepted, t.capacity, t.batches[|s.batches|])
  {
    hide PrefixMessage, Framed, Bodies, ChainersOf;
    var t := ApplyFlush(s, true);
    var b := t.batches[|s.batches|];
    assert t.accepted[b.lo..b.hi] == s.accepted[Start(s)..];
    assert t.accepted[Start(t)..] == [];
    EmptyRun();
    Fits(s);
  }

  lemma FlushKept(s: State, ok: bool)
    requires Inv(s)
    ensures Inv(ApplyFlush(s, ok))
  {
    hide BatchRight, Tiled, CountIn, ToldIn, Framed, Bodies, ChainersOf;
    var t := ApplyFlush(s, ok);
    if s.messages > 0 && ok {
      FlushBatch(s);
      TiledAppend(s.batches, t.batches[|s.batches|]);
      CountAppend(s.batches, t.batches[|s.batches|], Written);
      assert t.written[|s.written|] == |s.batches|;
    }
  }

  lemma AttemptKept(s: State, b: nat, ok: bool)
    requires Inv(s) && b < |s.batches| && s.batches[b].status.InFlight?
    ensures Inv(ApplyAttempt(s, b, ok))
  {
    hide Tiled, CountIn, ToldIn, Framed, Bodies, ChainersOf;
    var t := ApplyAttempt(s, b, ok);
    ToldUpdate(s.batches, b, t.batches[b]);
    assert t.drops != s.drops ==> t.drops[..|s.drops|] == s.drops;
    TiledUpdate(s.batches, Start(s), b, t.batches[b]);
    CountUpdate(s.batches, b, t.batches[b], Written);
    assert BatchRight(s.accepted, s.capacity, s.batches[b]);
    assert t.batches == s.batches[b := t.batches[b]];
    if ok {
      assert t.written[|s.written|] == b;
      assert forall i :: 0 <= i < |s.written| ==> s.written[i] == t.written[i];
    }
  }

  /** Over every run of writes, flushes and retries, with any failures. */
  lemma {:induction false} Always(capacity: nat, states: seq<State>, steps: seq<Step>, i: nat)
    requires IsRun(capacity, states, steps) && i < |states|
    ensures Inv(states[i]) && states[i].capacity == capacity
  {
    hide Inv, ApplyAccept, ApplyFlush, ApplyAttempt;
    if i > 0 {
      Always(capacity, states, steps, i - 1);
      var s := states[i - 1];
      assert Next(s, steps[i - 1], states[i]);
      match steps[i - 1]
      case Accept(m) => AcceptKept(s, m); SameCapacity(s, steps[i - 1]);
      case Flush(ok) => FlushKept(s, ok); SameCapacity(s, steps[i - 1]);
      case Attempt(b, ok) => AttemptKept(s, b, ok); SameCapacity(s, steps[i - 1]);
    } else {
      InitialInv(capacity);
    }
  }

  lemma SameCapacity(s: State, step: Step)
    requires Enabled(s, step)
    ensures Apply(s, step).capacity == s.capacity
  {
  }

  lemma InitialInv(capacity: nat)
    ensures Inv(Initial(capacity))
  {
  }

  // ----- What it gives -----

  /** Each accepted message is in the buffer or in exactly one batch. */
  lemma {:induction false} ExactlyOneBatch(batches: seq<Batch>, end: int, k: nat) returns (at: nat)
    requires Tiled(batches, end) && k < end
    ensures at < |batches| && batches[at].lo <= k < batches[at].hi
    ensures forall j :: 0 <= j < |batches| && j != at ==> !(batches[j].lo <= k < batches[j].hi)
  {
    var n := |batches| - 1;
    if batches[n].lo <= k {
      at := n;
      BelowEnd(batches[..n], batches[n].lo);
      assert forall j :: 0 <= j < n ==> batches[j] == batches[..n][j];
    } else {
      at := ExactlyOneBatch(batches[..n], batches[n].lo, k);
      assert forall j :: 0 <= j < n ==> batches[j] == batches[..n][j];
    }
  }

  lemma {:induction false} BelowEnd(batches: seq<Batch>, end: int)
    requires Tiled(batches, end)
    ensures forall j :: 0 <= j < |batches| ==> batches[j].hi <= end
  {
    if batches != [] {
      var n := |batches| - 1;
      BelowEnd(batches[..n], batches[n].lo);
      assert forall j :: 0 <= j < n ==> batches[j] == batches[..n][j];
    }
  }

  lemma {:induction false} TiledCounts(batches: seq<Batch>, end: int)
    requires Tiled(batches, end) && forall i :: 0 <= i < |batches| ==> batches[i].count == batches[i].hi - batches[i].lo
    requires forall i :: 0 <= i < |batches| ==> batches[i].count < PREFIX_LIMIT
    ensures end == CountIn(batches, InFlight) + CountIn(batches, Written) + ToldIn(batches)
  {
    if batches != [] {
      var n := |batches| - 1;
      assert forall j :: 0 <= j < n ==> batches[j] == batches[..n][j];
      TiledCounts(batches[..n], batches[n].lo);
    }
  }

  /**
    Accepted = buffered + in flight + the `sentMessages` metric + the sum of all arguments of `Drop`, for
    every buffer below 2^34 - 4 bytes (`Drop` takes a `uint32`).
   */
  lemma Conservation(capacity: nat, states: seq<State>, steps: seq<Step>, i: nat)
    requires IsRun(capacity, states, steps) && i < |states| && capacity / 4 + 1 < PREFIX_LIMIT
    ensures
      var s := states[i];
      |s.accepted| == s.messages + CountIn(s.batches, InFlight) + s.sent + Sum(s.drops)
  {
    hide BufferRight, CountIn, ToldIn, Tiled, Framed, Bodies, ChainersOf, IsRun;
    Always(capacity, states, steps, i);
    var s := states[i];
    forall j | 0 <= j < |s.batches|
      ensures s.batches[j].count == s.batches[j].hi - s.batches[j].lo && s.batches[j].count < PREFIX_LIMIT
    {
      assert BatchRight(s.accepted, s.capacity, s.batches[j]);
    }
    TiledCounts(s.batches, Start(s));
  }

  /** Each accepted message is still buffered or in exactly one batch, whose bytes, count and chainers are its run's. */
  lemma OnePlace(capacity: nat, states: seq<State>, steps: seq<Step>, i: nat, k: nat) returns (at: nat)
    requires IsRun(capacity, states, steps) && i < |states| && k < |states[i].accepted| - states[i].messages
    ensures
      var s := states[i];
      at < |s.batches| && s.batches[at].lo <= k < s.batches[at].hi && BatchRight(s.accepted, capacity, s.batches[at])
    ensures
      var s := states[i];
      forall j :: 0 <= j < |s.batches| && j != at ==> !(s.batches[j].lo <= k < s.batches[j].hi)
  {
    hide BatchRight, BufferRight, IsRun, LedgerRight, Tiled;
    Always(capacity, states, steps, i);
    at := ExactlyOneBatch(states[i].batches, Start(states[i]), k);
  }

  /** A batch the output accepted reads back as its run of accepted messages, exactly when all lengths fit. */
  lemma ReadBack(capacity: nat, states: seq<State>, steps: seq<Step>, i: nat, b: nat)
    requires IsRun(capacity, states, steps) && i < |states| && b < |states[i].batches|
    requires states[i].batches[b].lo <= states[i].batches[b].hi <= |states[i].accepted|
    ensures
      var s, batch := states[i], states[i].batches[b];
      var run := s.accepted[batch.lo..batch.hi];
      Read(batch.bytes) == Some(Bodies(run)) <==> forall k :: 0 <= k < |run| ==> |run[k].body| < PREFIX_LIMIT
  {
    hide BufferRight, CountIn, Tiled, ChainersOf, IsRun, Framed, Read;
    Always(capacity, states, steps, i);
    var s, batch := states[i], states[i].batches[b];
    assert BatchRight(s.accepted, s.capacity, batch);
    var run := s.accepted[batch.lo..batch.hi];
    ReadFramed(Bodies(run));
    assert forall k :: 0 <= k < |run| ==> Bodies(run)[k] == run[k].body;
  }

  /** The output stream so far, batch after batch in the order the output accepted them. */
  function Stream(batches: seq<Batch>, written: seq<nat>): seq<Byte>
    requires forall i :: 0 <= i < |written| ==> written[i] < |batches|
  {
    if written == [] then [] else batches[written[0]].bytes + Stream(batches, written[1..])
  }

  function Delivered(s: State, written: seq<nat>): seq<seq<Byte>>
    requires forall i :: 0 <= i < |written| ==> written[i] < |s.batches|
    requires forall i :: 0 <= i < |s.batches| ==> s.batches[i].lo <= s.batches[i].hi <= |s.accepted|
  {
    if written == [] then []
    else Bodies(s.accepted[s.batches[written[0]].lo..s.batches[written[0]].hi]) + Delivered(s, written[1..])
  }

  lemma {:induction false} StreamFramed(s: State, written: seq<nat>)
    requires forall i :: 0 <= i < |written| ==> written[i] < |s.batches|
    requires forall i :: 0 <= i < |s.batches| ==> s.batches[i].lo <= s.batches[i].hi <= |s.accepted|
    requires BatchesRight(s)
    ensures Stream(s.batches, written) == Framed(Delivered(s, written))
  {
    hide Framed, Bodies, ChainersOf;
    if written == [] {
      EmptyRun();
      assert Framed([]) == [] by { NoFrames(); }
    } else {
      StreamFramed(s, written[1..]);
      var b := s.batches[written[0]];
      assert BatchRight(s.accepted, s.capacity, b);
      FramedAppend(Bodies(s.accepted[b.lo..b.hi]), Delivered(s, written[1..]));
    }
  }

  lemma NoFrames()
    ensures Framed([]) == []
  {
  }

  /** A reader of the whole output recovers the written batches' messages, exactly when all lengths fit. */
  lemma StreamReadBack(capacity: nat, states: seq<State>, steps: seq<Step>, i: nat)
    requires IsRun(capacity, states, steps) && i < |states|
    ensures
      var s := states[i];
      && (forall j :: 0 <= j < |s.written| ==> s.written[j] < |s.batches|)
      && (forall j :: 0 <= j < |s.batches| ==> s.batches[j].lo <= s.batches[j].hi <= |s.accepted|)
      && var out := Delivered(s, s.written);
         Read(Stream(s.batches, s.written)) == Some(out) <==> forall k :: 0 <= k < |out| ==> |out[k]| < PREFIX_LIMIT
  {
    hide BufferRight, CountIn, ToldIn, Tiled, ChainersOf, IsRun, Framed, Read, Stream, Delivered, Bodies;
    Always(capacity, states, steps, i);
    var s := states[i];
    assert forall j :: 0 <= j < |s.batches| ==> BatchRight(s.accepted, s.capacity, s.batches[j]);
    StreamFramed(s, s.written);
    ReadFramed(Delivered(s, s.written));
  }

  // ----- The retry metric -----

  /** Timer flushes before step `n` that had something to write and failed. */
  function FailedFlushes(states: seq<State>, steps: seq<Step>, n: nat): nat
    requires n <= |steps| <= |states|
  {
    if n == 0 then 0
    else
      FailedFlushes(states, steps, n - 1)
      + (if steps[n - 1] == Flush(false) && states[n - 1].messages > 0 then 1 else 0)
  }

  /** Tries beyond the first, over all batches that left by overflow. */
  function ExtraTries(batches: seq<Batch>, capacity: nat): nat {
    if batches == [] then 0
    else
      var last := batches[|batches| - 1];
      ExtraTries(batches[..|batches| - 1], capacity) + (if |last.bytes| > capacity && last.tries > 1 then last.tries - 1 else 0)
  }

  lemma RetriedMore(batches: seq<Batch>, b: Batch, capacity: nat)
    requires b.tries <= 1
    ensures ExtraTries(batches + [b], capacity) == ExtraTries(batches, capacity)
  {
    assert (batches + [b])[..|batches|] == batches;
  }

  lemma {:induction false} RetriedUpdate(batches: seq<Batch>, i: nat, b: Batch, capacity: nat)
    requires i < |batches| && |batches[i].bytes| > capacity && b.bytes == batches[i].bytes && b.tries == batches[i].tries + 1
    ensures ExtraTries(batches[i := b], capacity) == ExtraTries(batches, capacity) + (if batches[i].tries > 0 then 1 else 0)
  {
    var n := |batches| - 1;
    if i == n {
      assert batches[i := b][..n] == batches[..n];
    } else {
      assert batches[i := b][..n] == batches[..n][i := b];
      RetriedUpdate(batches[..n], i, b, capacity);
    }
  }

  /** The metric counts exactly the failed timer flushes and the tries of overflow batches beyond their first. */
  lemma {:induction false} RetriesCounted(capacity: nat, states: seq<State>, steps: seq<Step>, n: nat)
    requires IsRun(capacity, states, steps) && n < |states|
    ensures states[n].retries == FailedFlushes(states, steps, n) + ExtraTries(states[n].batches, capacity)
  {
    hide Inv, ExtraTries, Framed;
    if n == 0 {
      assert ExtraTries([], capacity) == 0 by { NoneRetried(capacity); }
    } else {
      RetriesCounted(capacity, states, steps, n - 1);
      Always(capacity, states, steps, n - 1);
      var s, t := states[n - 1], states[n];
      assert Next(s, steps[n - 1], t);
      if steps[n - 1].Attempt? {
        InFlightLarge(s, steps[n - 1].b);
        assert t.batches == s.batches[steps[n - 1].b := t.batches[steps[n - 1].b]];
        RetriedUpdate(s.batches, steps[n - 1].b, t.batches[steps[n - 1].b], capacity);
      } else if |t.batches| > |s.batches| {
        RetriedMore(s.batches, t.batches[|s.batches|], capacity);
      }
    }
  }

  lemma NoneRetried(capacity: nat)
    ensures ExtraTries([], capacity) == 0
  {
  }

  lemma InFlightLarge(s: State, b: nat)
    requires Inv(s) && b < |s.batches| && s.batches[b].status.InFlight?
    ensures |s.batches[b].bytes| > s.capacity
  {
    assert BatchRight(s.accepted, s.capacity, s.batches[b]);
  }

  // ----- Order across batches -----

  ghost predicate InOrder(written: seq<nat>) {
    forall i, j :: 0 <= i < j < |written| ==> written[i] < written[j]
  }

  /** An overflow batch goes out after a younger batch did. */
  ghost predicate Overtakes(s: State, step: Step) {
    step.Attempt? && step.ok && exists j :: j in s.written && j > step.b
  }

  /** A step keeps the order of the output exactly when it is not the late write of an overflow batch. */
  lemma OrderStepExact(s: State, step: Step)
    requires Inv(s) && Enabled(s, step) && InOrder(s.written)
    ensures InOrder(Apply(s, step).written) <==> !Overtakes(s, step)
  {
    hide BufferRight, Tiled, BatchesRight, CountIn, ToldIn;
    var t := Apply(s, step);
    if step.Attempt? && step.ok {
      var n := |s.written|;
      assert t.written == s.written + [step.b];
      assert step.b !in s.written;
      if Overtakes(s, step) {
        var j :| j in s.written && j > step.b;
        var i :| 0 <= i < n && s.written[i] == j;
        assert t.written[i] > t.written[n];
      } else {
        assert forall i :: 0 <= i < n ==> s.written[i] in s.written;
      }
    } else if t.written != s.written {
      assert t.written == s.written + [|s.batches|];
    }
  }

  lemma WrittenGrows(s: State, step: Step)
    requires Enabled(s, step)
    ensures s.written <= Apply(s, step).written
  {
  }

  /** Over whole runs: the written batch numbers increase exactly when no step so far overtook. */
  lemma {:induction false} OrderExact(capacity: nat, states: seq<State>, steps: seq<Step>, n: nat)
    requires IsRun(capacity, states, steps) && n < |states|
    ensures InOrder(states[n].written) <==> forall i :: 0 <= i < n ==> !Overtakes(states[i], steps[i])
  {
    hide Inv, Apply, Overtakes;
    if n > 0 {
      OrderExact(capacity, states, steps, n - 1);
      Always(capacity, states, steps, n - 1);
      var s, step := states[n - 1], steps[n - 1];
      assert Next(s, step, states[n]);
      WrittenGrows(s, step);
      if InOrder(s.written) {
        OrderStepExact(s, step);
      } else {
        assert !InOrder(states[n].written);
      }
    }
  }

  /** The output follows acceptance: what was written earlier was accepted earlier. */
  ghost predicate FollowsAcceptance(s: State) {
    forall i, j :: 0 <= i < j < |s.written| ==>
      s.written[i] < |s.batches| && s.written[j] < |s.batches| && s.batches[s.written[i]].hi <= s.batches[s.written[j]].lo
  }

  lemma {:induction false} TiledOrder(batches: seq<Batch>, end: int, i: nat, j: nat)
    requires Tiled(batches, end) && i < j < |batches|
    ensures batches[i].hi <= batches[j].lo < batches[j].hi
  {
    var n := |batches| - 1;
    if j == n {
      BelowEnd(batches[..n], batches[n].lo);
      assert batches[..n][i] == batches[i];
    } else {
      TiledOrder(batches[..n], batches[n].lo, i, j);
    }
  }

  lemma {:induction false} TiledNonEmpty(batches: seq<Batch>, end: int, i: nat)
    requires Tiled(batches, end) && i < |batches|
    ensures batches[i].lo < batches[i].hi
  {
    var n := |batches| - 1;
    if i < n {
      TiledNonEmpty(batches[..n], batches[n].lo, i);
    }
  }

  /** So the output follows acceptance order exactly when no overflow batch went out after a younger one. */
  lemma AcceptanceOrderExact(capacity: nat, states: seq<State>, steps: seq<Step>, n: nat)
    requires IsRun(capacity, states, steps) && n < |states|
    ensures FollowsAcceptance(states[n]) <==> forall i :: 0 <= i < n ==> !Overtakes(states[i], steps[i])
  {
    hide Apply, Overtakes, BufferRight, BatchesRight, CountIn, ToldIn, Tiled, IsRun;
    Always(capacity, states, steps, n);
    OrderExact(capacity, states, steps, n);
    var s := states[n];
    forall i, j | 0 <= i < j < |s.written|
      ensures s.batches[s.written[i]].hi <= s.batches[s.written[j]].lo <==> s.written[i] < s.written[j]
    {
      var a, b := s.written[i], s.written[j];
      assert a != b && a < |s.batches| && b < |s.batches|;
      if a < b {
        TiledOrder(s.batches, Start(s), a, b);
      } else {
        TiledOrder(s.batches, Start(s), b, a);
        TiledNonEmpty(s.batches, Start(s), b);
      }
    }
  }

  /** Order holds within a batch only: a timer flush can overtake an overflow batch still being retried. */
  lemma Overtaken(m: Message, n: Message) returns (states: seq<State>, steps: seq<Step>)
    requires |m.body| + 4 > MIN_BUFFER_CAPACITY && |n.body| + 4 <= MIN_BUFFER_CAPACITY
    ensures IsRun(MIN_BUFFER_CAPACITY, states, steps) && |steps| == 4
    ensures states[4].accepted == [m, n] && states[4].written == [1, 0]
    ensures |states[4].batches| == 2 && states[4].batches[0].hi == states[4].batches[1].lo == 1
  {
    hide PrefixMessage;
    PrefixLength(m.body);
    PrefixLength(n.body);
    var s0 := Initial(MIN_BUFFER_CAPACITY);
    var s1 := ApplyAccept(s0, m);
    var s2 := ApplyAccept(s1, n);
    var s3 := ApplyFlush(s2, true);
    var s4 := ApplyAttempt(s3, 0, true);
    states, steps := [s0, s1, s2, s3, s4], [Accept(m), Accept(n), Flush(true), Attempt(0, true)];
    assert Next(s0, steps[0], s1) && Next(s1, steps[1], s2) && Next(s2, steps[2], s3) && Next(s3, steps[3], s4);
  }

  lemma PrefixLength(msg: seq<Byte>)
    ensures |PrefixMessage(msg)| == |msg| + 4
  {
  }
}
