/**
  The syslog sink (doppler/internal/sinks/syslog/syslog_sink.go): take a message, connect with back-off,
  write it, reconnect and write it again until it is out.  The environment is a script that answers each
  select, dial and write in turn; a run may be cut off wherever the script ends.
 */
module SyslogSink {
  import TB = TruncatingBuffer

  /** One answer: is the disconnect channel closed when it is looked at, does the dial or the write succeed. */
  datatype Answer = Answer(disconnected: bool, ok: bool)

  datatype Op<T> = Connect(ok: bool) | Write(msg: T, ok: bool)

  /** The link is up after the last operation succeeded. */
  function Up<T>(trace: seq<Op<T>>): bool { trace != [] && trace[|trace| - 1].ok }

  /** Writes happen on an up link only, dials on a down link only. */
  ghost predicate Disciplined<T>(trace: seq<Op<T>>) {
    forall i :: 0 <= i < |trace| ==> (trace[i].Write? <==> Up(trace[..i]))
  }

  function Delivered<T>(trace: seq<Op<T>>): seq<T> {
    if trace == [] then []
    else
      var last := trace[|trace| - 1];
      Delivered(trace[..|trace| - 1]) + (if last.Write? && last.ok then [last.msg] else [])
  }

  lemma Extended<T>(trace: seq<Op<T>>, op: Op<T>)
    requires Disciplined(trace) && (op.Write? <==> Up(trace))
    ensures Disciplined(trace + [op]) && Up(trace + [op]) == op.ok
    ensures Delivered(trace + [op]) == Delivered(trace) + (if op.Write? && op.ok then [op.msg] else [])
  {
    var t := trace + [op];
    assert t[..|t| - 1] == trace;
    assert forall i :: 0 <= i < |trace| ==> t[..i] == trace[..i];
  }

  /**
    Operations serve the first message not yet delivered, and there is one: no dial without a message in hand, and a
    failed write is followed by a write of the same message.
   */
  ghost predicate Aimed<T>(trace: seq<Op<T>>, input: seq<T>) {
    forall k :: 0 <= k < |trace| ==>
      |Delivered(trace[..k])| < |input| && (trace[k].Write? ==> trace[k].msg == input[|Delivered(trace[..k])|])
  }

  /** The answer that the next operation takes: a look at the disconnect comes first, and after a delivery or a failed dial. */
  function Due<T>(trace: seq<Op<T>>, at: seq<nat>): nat
    requires |at| == |trace|
  {
    if trace == [] then 1
    else
      var n := |trace| - 1;
      at[n] + if trace[n].Write? == trace[n].ok then 2 else 1
  }

  /** No answer is passed over: `at` tells which ones the operations took, each when it was due. */
  ghost predicate Answered<T>(trace: seq<Op<T>>, script: seq<Answer>, at: seq<nat>, used: nat) {
    && |at| == |trace| && used <= |script| && used <= Due(trace, at)
    && (trace != [] ==> at[|at| - 1] < used)
    && forall k :: 0 <= k < |at| ==> at[k] < |script| && trace[k].ok == script[at[k]].ok && at[k] == Due(trace[..k], at[..k])
  }

  /** No look at the disconnect, up to here, found it. */
  ghost predicate Calm(script: seq<Answer>, at: seq<nat>, n: int) {
    forall p :: 0 <= p < n && p < |script| && p !in at ==> !script[p].disconnected
  }

  /** Between operations: what is known of the link and of everything written so far. */
  ghost predicate Sound<T>(trace: seq<Op<T>>, input: seq<T>, script: seq<Answer>, at: seq<nat>, used: nat) {
    Disciplined(trace) && Aimed(trace, input) && Answered(trace, script, at, used)
  }

  lemma SoundMore<T>(trace: seq<Op<T>>, input: seq<T>, script: seq<Answer>, at: seq<nat>, used: nat, op: Op<T>)
    requires Sound(trace, input, script, at, used) && used < |script| && op.ok == script[used].ok && used == Due(trace, at)
    requires |Delivered(trace)| < |input|
    requires if op.Write? then Up(trace) && op.msg == input[|Delivered(trace)|] else !Up(trace)
    ensures Sound(trace + [op], input, script, at + [used], used + 1) && Up(trace + [op]) == op.ok
    ensures Due(trace + [op], at + [used]) == used + if op.Write? == op.ok then 2 else 1
    ensures Delivered(trace + [op]) == Delivered(trace) + (if op.Write? && op.ok then [op.msg] else [])
  {
    hide Delivered, Aimed, Answered, Disciplined, Up;
    Extended(trace, op);
    AimedMore(trace, input, op);
    AnsweredMore(trace, script, at, used, op);
  }

  lemma AimedMore<T>(trace: seq<Op<T>>, input: seq<T>, op: Op<T>)
    requires Aimed(trace, input) && |Delivered(trace)| < |input| && (op.Write? ==> op.msg == input[|Delivered(trace)|])
    ensures Aimed(trace + [op], input)
  {
    hide Delivered;
    var t := trace + [op];
    forall k | 0 <= k < |t|
      ensures |Delivered(t[..k])| < |input| && (t[k].Write? ==> t[k].msg == input[|Delivered(t[..k])|])
    {
      assert t[..k] == if k < |trace| then trace[..k] else trace;
    }
  }

  lemma AnsweredMore<T>(trace: seq<Op<T>>, script: seq<Answer>, at: seq<nat>, used: nat, op: Op<T>)
    requires Answered(trace, script, at, used) && used < |script| && op.ok == script[used].ok && used == Due(trace, at)
    ensures Answered(trace + [op], script, at + [used], used + 1)
    ensures Due(trace + [op], at + [used]) == used + if op.Write? == op.ok then 2 else 1
  {
    var t, u := trace + [op], at + [used];
    forall k | 0 <= k < |t| ensures u[k] == Due(t[..k], u[..k]) {
      if k < |trace| {
        assert t[..k] == trace[..k] && u[..k] == at[..k];
      } else {
        assert t[..k] == trace && u[..k] == at;
      }
    }
  }

  lemma SoundSkip<T>(trace: seq<Op<T>>, input: seq<T>, script: seq<Answer>, at: seq<nat>, used: nat)
    requires Sound(trace, input, script, at, used) && used < |script| && used < Due(trace, at)
    ensures Sound(trace, input, script, at, used + 1)
  {
  }

  lemma SoundStart<T>(input: seq<T>, script: seq<Answer>)
    ensures Sound<T>([], input, script, [], 0) && Delivered<T>([]) == [] && !Up<T>([])
  {
  }

  /** A look taken from the script is none of the operations' answers. */
  lemma Looked<T>(trace: seq<Op<T>>, input: seq<T>, script: seq<Answer>, at: seq<nat>, used: nat)
    requires Sound(trace, input, script, at, used)
    ensures used !in at
  {
    hide Delivered;
    forall k | 0 <= k < |at| ensures at[k] < used {
      Increasing(trace, script, at, used, k);
    }
  }

  lemma {:induction false} Increasing<T>(trace: seq<Op<T>>, script: seq<Answer>, at: seq<nat>, used: nat, k: nat)
    requires Answered(trace, script, at, used) && k < |at|
    ensures at[k] <= at[|at| - 1]
    decreases |at| - k
  {
    if k < |at| - 1 {
      assert at[k + 1] == Due(trace[..k + 1], at[..k + 1]);
      Increasing(trace, script, at, used, k + 1);
    }
  }

  /** The last thing that happened is a failed dial. */
  predicate DialFailed<T>(trace: seq<Op<T>>) { trace != [] && trace[|trace| - 1] == Connect(false) }

  /**
    `Run`: `input` is what the buffer's output channel yields before it is closed, `script` what the world answers.
    The sink stops exactly when it looks between messages and finds its input used up and delivered, or when it looks
    there or in the back-off after a failed dial and finds the disconnect; only in the back-off can a message taken
    stay undelivered. Short of that it goes on as long as answers last.
   */
  method Run<T>(input: seq<T>, script: seq<Answer>)
    returns (trace: seq<Op<T>>, taken: nat, stopped: bool, used: nat, ghost at: seq<nat>)
    ensures Sound(trace, input, script, at, used) && Calm(script, at, if stopped then used - 1 else used)
    ensures taken <= |input| && Delivered(trace) <= input[..taken] && taken <= |Delivered(trace)| + 1
    ensures !stopped ==> used == |script|
    ensures stopped <==>
      used > 0 && used - 1 !in at && (script[used - 1].disconnected || Delivered(trace) == input)
    ensures stopped && taken > |Delivered(trace)| ==> script[used - 1].disconnected && DialFailed(trace)
    ensures stopped && (forall a :: a in script ==> !a.disconnected) ==> Delivered(trace) == input
  {
    hide Sound, Delivered, Up, Calm;
    trace, taken, stopped, used, at := [], 0, false, 0, [];
    SoundStart(input, script);
    CalmStart(script);
    var connected := false;
    while used < |script|
      invariant used <= |script| && !stopped && connected == Up(trace) && Sound(trace, input, script, at, used)
      invariant taken <= |input| && Delivered(trace) == input[..taken] && Calm(script, at, used)
      invariant |at| == |trace| && used + 1 == Due(trace, at) && (used > 0 ==> used - 1 in at)
      decreases |script| - used
    {
      SoundSkip(trace, input, script, at, used);
      Looked(trace, input, script, at, used);
      used := used + 1;
      if script[used - 1].disconnected || taken == |input| {
        stopped := true;
        return;
      }
      CalmMore(script, at, used - 1);
      var message := input[taken];
      taken := taken + 1;
      var delivered := false;
      while !delivered && used < |script|
        invariant used <= |script| && !stopped && connected == Up(trace) && Sound(trace, input, script, at, used)
        invariant Delivered(trace) == if delivered then input[..taken] else input[..taken - 1]
        invariant Calm(script, at, used) && |at| == |trace| && Due(trace, at) == if delivered then used + 1 else used
        invariant used > 0 && (delivered ==> used - 1 in at)
        decreases |script| - used
      {
        trace, connected, used, at, stopped := Dial(input, script, trace, connected, used, at);
        if stopped || !connected || used == |script| {
          CalmLook(script, at, used - 1);
          return;
        }
        SoundMore(trace, input, script, at, used, Write(message, script[used].ok));
        CalmTaken(script, at, used);
        trace := trace + [Write(message, script[used].ok)];
        connected := script[used].ok;
        delivered := script[used].ok;
        at := at + [used];
        used := used + 1;
      }
      if !delivered {
        CalmLook(script, at, used - 1);
        return;
      }
    }
    CalmLook(script, at, used - 1);
  }

  lemma CalmStart(script: seq<Answer>)
    ensures Calm(script, [], 0)
  {
  }

  lemma CalmLook(script: seq<Answer>, at: seq<nat>, p: int)
    ensures Calm(script, at, p + 1) && 0 <= p < |script| && p !in at ==> !script[p].disconnected
  {
  }

  lemma CalmMore(script: seq<Answer>, at: seq<nat>, n: nat)
    requires Calm(script, at, n) && n < |script| && !script[n].disconnected
    ensures Calm(script, at, n + 1)
  {
  }

  lemma CalmTaken(script: seq<Answer>, at: seq<nat>, n: nat)
    requires Calm(script, at, n)
    ensures Calm(script, at + [n], n + 1)
  {
  }

  /** The inner loop: dial until the link is up, with a look at the disconnect in each back-off. */
  method Dial<T>(ghost input: seq<T>, script: seq<Answer>, trace0: seq<Op<T>>, connected0: bool, used0: nat, ghost at0: seq<nat>)
    returns (trace: seq<Op<T>>, connected: bool, used: nat, ghost at: seq<nat>, stopped: bool)
    requires Sound(trace0, input, script, at0, used0) && connected0 == Up(trace0) && |at0| == |trace0|
    requires used0 <= |script| && used0 == Due(trace0, at0) && |Delivered(trace0)| < |input| && Calm(script, at0, used0)
    ensures Sound(trace, input, script, at, used) && connected == Up(trace) && Delivered(trace) == Delivered(trace0)
    ensures |at| == |trace|
    ensures used0 <= used <= |script| && Calm(script, at, if stopped then used - 1 else used)
    ensures stopped ==> used > 0 && used - 1 !in at && script[used - 1].disconnected && DialFailed(trace)
    ensures !stopped && connected ==> used == Due(trace, at)
    ensures !stopped && !connected ==> used == |script|
  {
    hide Sound, Delivered, Up, Calm;
    trace, connected, used, at, stopped := trace0, connected0, used0, at0, false;
    while !connected && used < |script|
      invariant used0 <= used <= |script| && !stopped && |at| == |trace| && Calm(script, at, used)
      invariant used < |script| || connected ==> used == Due(trace, at)
      invariant Sound(trace, input, script, at, used) && connected == Up(trace) && Delivered(trace) == Delivered(trace0)
      decreases |script| - used
    {
      SoundMore(trace, input, script, at, used, Connect(script[used].ok));
      CalmTaken(script, at, used);
      trace := trace + [Connect(script[used].ok)];
      connected := script[used].ok;
      at := at + [used];
      used := used + 1;
      if !connected && used < |script| {
        SoundSkip(trace, input, script, at, used);
        Looked(trace, input, script, at, used);
        used := used + 1;
        if script[used - 1].disconnected {
          stopped := true;
          return;
        }
        CalmMore(script, at, used - 1);
      }
    }
  }

  /**
    Buffer and sink together, at any state of any run of the buffer: the sink handles what it took from the channel.
    What it delivered, then what it took and has not delivered, then what is in the channel and in the writer's hand
    are, in this order and once each, the inputs with exactly the drained ones cut out; and of what the sink has got
    to, at most the last item is undelivered.
   */
  method EndToEnd(states: seq<TB.State>, steps: seq<TB.Step>, i: nat, script: seq<Answer>)
    returns (trace: seq<Op<TB.Item>>, taken: nat, stopped: bool, used: nat, ghost at: seq<nat>)
    requires TB.IsRun(states, steps) && i < |states|
    ensures
      var b, h, delivered := states[i].b, states[i].h, Delivered(trace);
      && Sound(trace, h.taken, script, at, used)
      && delivered <= h.taken && |delivered| <= taken <= |delivered| + 1 && taken <= |h.taken|
      && |h.fates| <= |h.given|
      && TB.Ids(delivered) + TB.Ids(h.taken[|delivered|..]) + TB.Ids(b.out) + TB.InHand(b) == TB.Survivors(h)
      && |TB.Fated(h.given[..|h.fates|], h.fates, false)| == h.lost
    ensures !stopped ==> used == |script|
    ensures stopped && (forall a :: a in script ==> !a.disconnected) ==> Delivered(trace) == states[i].h.taken
  {
    hide Delivered, Sound, TB.IsRun, TB.Survivors, TB.Fated;
    trace, taken, stopped, used, at := Run(states[i].h.taken, script);
    TB.InOrder(states, steps, i);
    ghost var all, delivered := states[i].h.taken, Delivered(trace);
    assert all == delivered + all[|delivered|..];
    IdsBoth(delivered, all[|delivered|..]);
  }

  lemma {:induction false} IdsBoth(a: seq<TB.Item>, b: seq<TB.Item>)
    ensures TB.Ids(a + b) == TB.Ids(a) + TB.Ids(b)
  {
    if b == [] {
      assert a + b == a;
    } else {
      var n := |b| - 1;
      IdsBoth(a, b[..n]);
      assert (a + b)[..|a + b| - 1] == a + b[..n];
    }
  }
}
