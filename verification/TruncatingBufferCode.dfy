/** The buffer as an object: a bounded channel and three counters, changed in place. */
module TruncatingBufferCode {
  import opened TruncatingBuffer

  class Writer {
    const size: nat
    const allowed: nat
    var out: seq<Item>
    var sent: nat
    var queued: nat
    var dropped: nat

    ghost predicate Valid()
      reads this
    {
      size >= 3 && allowed <= 2 && |out| <= size
    }

    ghost function Abs(): Buffer
      reads this
    {
      Buffer(size, allowed, out, sent, queued, dropped, Open)
    }

    /** The source panics on a size below three. */
    constructor (size: nat, allowed: nat)
      requires size >= 3 && allowed <= 2
      ensures Valid() && Init(State(Abs(), START))
      ensures this.size == size && this.allowed == allowed
    {
      this.size := size;
      this.allowed := allowed;
      out := [];
      sent, queued, dropped := 0, 0, 0;
    }

    method DropMessages() returns (n: nat)
      modifies this`out
      ensures out == [] && n == |old(out)|
    {
      n := 0;
      while out != []
        invariant n + |out| == |old(out)|
        decreases |out|
      {
        out := out[1..];
        n := n + 1;
      }
    }

    /** Blocks, in the source, while the channel is full; here that it has room is proved at each call. */
    method EmitMessage(notice: Item)
      requires |out| < size
      modifies this`out, this`queued
      ensures out == old(out) + [notice] && queued == old(queued) + 1
    {
      out := out + [notice];
      queued := queued + 1;
    }

    method NotifyMessagesDropped(delta: nat, total: nat)
      requires Valid() && out == []
      modifies this`out, this`queued
      ensures out == NoticesFor(allowed, delta, total) && queued == old(queued) + allowed
    {
      var i := 0;
      while i < allowed
        invariant 0 <= i <= allowed && Valid()
        invariant out == NoticesFor(i, delta, total) && queued == old(queued) + i
      {
        EmitMessage(Notice(delta, total));
        i := i + 1;
      }
    }

    method WriteToOutput(id: nat)
      requires Valid()
      modifies this`out, this`dropped
      ensures |old(out)| < size ==> out == old(out) + [Message(id)] && dropped == old(dropped)
      ensures |old(out)| >= size ==> out == old(out) && dropped == Wrap(old(dropped) + 1)
    {
      if |out| < size {
        out := out + [Message(id)];
      } else {
        dropped := Wrap(dropped + 1);
      }
    }

    method ForwardMessage(id: nat)
      requires Valid()
      modifies this
      ensures Valid() && Abs() == Forward(old(Abs()), id)
    {
      if |out| < size {
        out := out + [Message(id)];
        sent := sent + 1;
        var queuedInternalMessageWasSent := sent + queued > size;
        if queued > 0 && queuedInternalMessageWasSent {
          queued := queued - 1;
        }
      } else {
        var n := DropMessages();
        var delta := Wrap(n - queued);
        queued := 0;
        dropped := Wrap(dropped + delta);
        NotifyMessagesDropped(delta, dropped);
        WriteToOutput(id);
        sent := 1;
      }
    }
  }
}
