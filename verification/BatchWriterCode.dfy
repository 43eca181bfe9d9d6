/** The methods of metron/internal/egress/v1/writer.go, each proved to be steps of the batch writer's state machine. */
module BatchWriterCode {
  import opened BatchWriter
  import opened Frames
  import opened Uuids

  /** The rounds of `retryWrites` for one batch, until one succeeds or the batch is dropped. */
  ghost function Retried(s: State, b: nat, outcomes: seq<bool>): State
    requires b < |s.batches|
    decreases |outcomes|
  {
    if outcomes == [] || !s.batches[b].status.InFlight? then s
    else Retried(ApplyAttempt(s, b, outcomes[0]), b, outcomes[1..])
  }

  class Writer {
    const capacity: nat
    var buffer: seq<Byte>
    var messages: nat
    var chainers: seq<nat>
    /** History: what `Write` took, and the batches that left, each with the run of messages it holds. */
    var accepted: seq<Message>
    var batches: seq<Batch>
    var written: seq<nat>
    var drops: seq<nat>
    var sent: nat
    var retries: nat

    ghost function Abs(): State
      reads this
    {
      State(capacity, buffer, messages, chainers, accepted, batches, written, drops, sent, retries)
    }

    ghost predicate Valid()
      reads this
    {
      Inv(Abs())
    }

    /** `NewWriter`, which refuses a smaller buffer. */
    constructor (bufferCapacity: nat)
      requires bufferCapacity >= MIN_BUFFER_CAPACITY
      ensures Abs() == Initial(bufferCapacity) && Valid()
    {
      capacity := bufferCapacity;
      buffer, messages, chainers, accepted := [], 0, [], [];
      batches, written, drops, sent, retries := [], [], [], 0, 0;
      new;
      InitialInv(bufferCapacity);
    }

    /** `Write`: a message that does not fit leaves at once with all that was buffered. */
    method Write(m: Message)
      requires Valid()
      modifies this
      ensures Abs() == ApplyAccept(old(Abs()), m) && Valid()
    {
      hide Inv, PrefixMessage;
      Readable(Abs());
      AcceptKept(Abs(), m);
      var n := |accepted|;
      chainers := chainers + m.chainers;
      var prefixed := PrefixMessage(m.body);
      accepted := accepted + [m];
      if |buffer| + |prefixed| > capacity {
        var count := messages + 1;
        var allMsgs := buffer + prefixed;
        batches := batches + [Batch(n - messages, n + 1, allMsgs, count, chainers, 0, InFlight)];
        buffer, messages, chainers := [], 0, [];
        return;
      }
      buffer := buffer + prefixed;
      messages := messages + 1;
    }

    /** `flushBuffer`, with the outcome of its one write. */
    method FlushBuffer(ok: bool)
      requires Valid()
      modifies this
      ensures Abs() == ApplyFlush(old(Abs()), ok) && Valid()
    {
      hide Inv;
      Readable(Abs());
      FlushKept(Abs(), ok);
      if messages == 0 {
        return;
      }
      if !ok {
        retries := retries + 1;
        return;
      }
      var n := |accepted|;
      written := written + [|batches|];
      batches := batches + [Batch(n - messages, n, buffer, messages, chainers, 1, Written)];
      sent := sent + messages;
      buffer, messages, chainers := [], 0, [];
    }

    /** The goroutine of an overflow batch: `retryWrites` and the `Drop` after it, with the outcome of each try. */
    method RetryWrites(b: nat, outcomes: seq<bool>)
      requires Valid() && b < |batches| && batches[b].status.InFlight? && batches[b].tries == 0
      requires |outcomes| == MAX_OVERFLOW_TRIES
      modifies this
      ensures Abs() == Retried(old(Abs()), b, outcomes) && Valid()
      ensures b < |batches| && !batches[b].status.InFlight?
      ensures batches[b].status.Written? <==> true in outcomes
    {
      hide Inv;
      ghost var start := Abs();
      var i := 0;
      while i < MAX_OVERFLOW_TRIES && batches[b].status.InFlight?
        invariant 0 <= i <= |outcomes| && Valid() && b < |batches|
        invariant Retried(start, b, outcomes) == Retried(Abs(), b, outcomes[i..])
        invariant batches[b].status.InFlight? ==> batches[b].tries == i && i < MAX_OVERFLOW_TRIES && true !in outcomes[..i]
        invariant batches[b].status.Written? ==> true in outcomes[..i]
        invariant batches[b].status.Dropped? ==> i == MAX_OVERFLOW_TRIES && true !in outcomes[..i]
        decreases |outcomes| - i
      {
        AttemptKept(Abs(), b, outcomes[i]);
        assert outcomes[i..][1..] == outcomes[i + 1..];
        assert outcomes[..i + 1] == outcomes[..i] + [outcomes[i]];
        Attempt(b, outcomes[i]);
        i := i + 1;
      }
      if batches[b].status.Dropped? {
        assert outcomes[..i] == outcomes;
      }
    }

    /** One `flushWrite` of the batch and what follows from its outcome. */
    method Attempt(b: nat, ok: bool)
      requires b < |batches| && batches[b].status.InFlight? && batches[b].tries < MAX_OVERFLOW_TRIES
      modifies this
      ensures Abs() == ApplyAttempt(old(Abs()), b, ok)
    {
      var batch := batches[b];
      if batch.tries > 0 {
        retries := retries + 1;
      }
      batch := batch.(tries := batch.tries + 1);
      if ok {
        sent := sent + batch.count;
        written := written + [b];
        batch := batch.(status := Written);
      } else if batch.tries == MAX_OVERFLOW_TRIES {
        drops := drops + [batch.count % PREFIX_LIMIT];
        batch := batch.(status := Dropped);
      }
      batches := batches[b := batch];
    }
  }

  lemma Readable(s: State)
    requires Inv(s)
    ensures s.messages <= |s.accepted|
  {
    hide Framed;
  }
}
