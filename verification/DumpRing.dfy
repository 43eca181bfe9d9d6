/** The recent-log ring of doppler/internal/sinks/dump/dump_sink.go against the sequence of all messages added. */
module DumpRing {
  import opened Wrappers

  type Msg = nat

  /** The slot `k` places before `pos` on a ring of `n` slots. */
  function Back(pos: int, k: int, n: int): int {
    if pos - k >= 0 then pos - k else pos - k + n
  }

  function Forward(pos: int, n: int): int {
    if pos + 1 == n then 0 else pos + 1
  }

  /** The messages a ring of `n` slots should still hold. */
  function Recent(history: seq<Msg>, n: nat): seq<Msg> {
    if |history| <= n then history else history[|history| - n..]
  }

  class DumpSink {
    const slots: array<Option<Msg>>
    var pos: nat
    ghost var history: seq<Msg>

    ghost predicate Valid()
      reads this, slots
    {
      && pos < slots.Length
      && forall k :: 0 <= k < slots.Length ==>
           slots[Back(pos, k, slots.Length)] == if k < |history| then Some(history[|history| - 1 - k]) else None
    }

    /** `NewDumpSink`: every slot is empty. A ring of no slots cannot be advanced, so there is at least one. */
    constructor (bufferSize: nat)
      requires bufferSize >= 1
      ensures Valid() && history == [] && slots.Length == bufferSize && fresh(slots)
    {
      slots := new Option<Msg>[bufferSize](_ => None);
      pos := 0;
      history := [];
    }

    method AddMsg(msg: Msg)
      requires Valid()
      modifies this`pos, this`history, slots
      ensures Valid() && history == old(history) + [msg]
    {
      ghost var n, before := slots.Length, pos;
      pos := Forward(pos, slots.Length);
      slots[pos] := Some(msg);
      history := history + [msg];
      forall k | 0 <= k < n
        ensures slots[Back(pos, k, n)] == if k < |history| then Some(history[|history| - 1 - k]) else None
      {
        if k > 0 {
          assert Back(pos, k, n) == Back(before, k - 1, n) != pos;
        }
      }
    }

    /** `Dump`: once around the ring from the slot after the newest, skipping the empty ones. */
    method Dump() returns (data: seq<Msg>)
      requires Valid()
      ensures data == Recent(history, slots.Length)
    {
      data := [];
      var n := slots.Length;
      var at := Forward(pos, n);
      ghost var recent := Recent(history, n);
      var i := 0;
      while i < n
        invariant 0 <= i <= n && 0 <= at < n
        invariant i < n ==> at == Back(pos, n - 1 - i, n)
        invariant data == if i <= n - |recent| then [] else recent[..i - (n - |recent|)]
      {
        var k := n - 1 - i;
        if slots[at].Some? {
          assert k < |history| && slots[at].value == recent[i - (n - |recent|)];
          data := data + [slots[at].value];
        }
        at := Forward(at, n);
        i := i + 1;
      }
    }
  }
}
