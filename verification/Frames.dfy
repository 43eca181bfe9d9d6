/**
  The length-prefixed framing between metron's batch writer (metron/internal/egress/v1/writer.go) and its
  reader (tools/benchmark/messagereader/tls.go).
 */
module Frames {
  import opened Wrappers
  import opened Uuids

  const PREFIX_LIMIT: int := 0x1_0000_0000

  /** `prefixMessage`: the length as a little-endian `uint32`, then the bytes. */
  function PrefixMessage(msg: seq<Byte>): seq<Byte> {
    PutWord(|msg| % PREFIX_LIMIT, 4) + msg
  }

  function Framed(msgs: seq<seq<Byte>>): seq<Byte> {
    if msgs == [] then [] else PrefixMessage(msgs[0]) + Framed(msgs[1..])
  }

  lemma {:induction false} FramedAppend(a: seq<seq<Byte>>, b: seq<seq<Byte>>)
    ensures Framed(a + b) == Framed(a) + Framed(b)
  {
    if a == [] {
      assert a + b == b;
    } else {
      assert (a + b)[1..] == a[1..] + b;
      FramedAppend(a[1..], b);
    }
  }

  lemma FramedOne(msg: seq<Byte>)
    ensures Framed([msg]) == PrefixMessage(msg)
  {
    assert Framed([msg][1..]) == [];
  }

  lemma {:induction false} FramedLong(msgs: seq<seq<Byte>>)
    ensures |Framed(msgs)| >= 4 * |msgs|
  {
    if msgs != [] {
      FramedLong(msgs[1..]);
    }
  }

  function Before(out: seq<seq<Byte>>, rest: Option<seq<seq<Byte>>>): Option<seq<seq<Byte>>> {
    if rest.None? then None else Some(out + rest.value)
  }

  lemma BeforeTwice(a: seq<seq<Byte>>, b: seq<seq<Byte>>, rest: Option<seq<seq<Byte>>>)
    ensures Before(a, Before(b, rest)) == Before(a + b, rest)
  {
    if rest.Some? {
      assert a + (b + rest.value) == (a + b) + rest.value;
    }
  }

  lemma BeforeNothing(rest: Option<seq<seq<Byte>>>)
    ensures Before([], rest) == rest
  {
    if rest.Some? {
      assert [] + rest.value == rest.value;
    }
  }

  /** What the reader makes of a stream: the messages, or None where it panics on a torn frame. */
  function Read(stream: seq<Byte>): Option<seq<seq<Byte>>>
    decreases |stream|
  {
    if stream == [] then Some([])
    else if |stream| < 4 then None
    else
      var size := GetWord(stream[..4]);
      if |stream| < 4 + size then None
      else
        Before([stream[4..4 + size]], Read(stream[4 + size..]))
  }

  lemma ReadFirst(msg: seq<Byte>, rest: seq<Byte>)
    ensures
      var stream := PrefixMessage(msg) + rest;
      |stream| >= 4 + |msg| && GetWord(stream[..4]) == |msg| % PREFIX_LIMIT
      && stream[4..4 + |msg|] == msg && stream[4 + |msg|..] == rest
  {
    var stream := PrefixMessage(msg) + rest;
    assert stream[..4] == PutWord(|msg| % PREFIX_LIMIT, 4);
    WordWidth();
    GetPut(|msg| % PREFIX_LIMIT, 4);
  }

  /** The reader returns exactly the messages framed if and only if each length fits its prefix. */
  lemma {:induction false} ReadFramed(msgs: seq<seq<Byte>>)
    ensures Read(Framed(msgs)) == Some(msgs) <==> forall i :: 0 <= i < |msgs| ==> |msgs[i]| < PREFIX_LIMIT
  {
    if msgs != [] {
      ReadFramed(msgs[1..]);
      assert forall i :: 0 <= i < |msgs[1..]| ==> msgs[1..][i] == msgs[i + 1];
      assert forall i :: 1 <= i < |msgs| ==> msgs[i] == msgs[1..][i - 1];
      ReadOne(msgs[0], Framed(msgs[1..]));
      var rest := Read(Framed(msgs[1..]));
      if |msgs[0]| < PREFIX_LIMIT && rest.Some? {
        assert ([msgs[0]] + rest.value)[1..] == rest.value;
        assert [msgs[0]] + msgs[1..] == msgs;
      }
    }
  }

  /** A first frame is read back exactly when its length fits; otherwise what comes first is shorter. */
  lemma ReadOne(msg: seq<Byte>, rest: seq<Byte>)
    ensures |msg| < PREFIX_LIMIT ==> Read(PrefixMessage(msg) + rest) == Before([msg], Read(rest))
    ensures
      var r := Read(PrefixMessage(msg) + rest);
      |msg| >= PREFIX_LIMIT && r.Some? ==> |r.value| > 0 && r.value[0] != msg
  {
    hide PrefixMessage, GetWord;
    ReadFirst(msg, rest);
    var stream := PrefixMessage(msg) + rest;
    var size := |msg| % PREFIX_LIMIT;
    if |msg| >= PREFIX_LIMIT {
      assert |stream| >= 4 + |msg|;
      assert |stream[4..4 + size]| == size < |msg|;
      assert Read(stream) == Before([stream[4..4 + size]], Read(stream[4 + size..]));
    }
  }

  /** `readFromConn`: one buffer is reused for every message and replaced only by a longer one. */
  method ReadFromConn(stream: seq<Byte>) returns (messages: Option<seq<seq<Byte>>>)
    ensures messages == Read(stream)
  {
    var buffer := new Byte[1024];
    var out: seq<seq<Byte>> := [];
    var at := 0;
    assert stream[0..] == stream;
    BeforeNothing(Read(stream));
    while at < |stream|
      invariant 0 <= at <= |stream| && fresh(buffer)
      invariant Read(stream) == Before(out, Read(stream[at..]))
      decreases |stream| - at
    {
      assert stream[at..] != [];
      if |stream| < at + 4 {
        return None;
      }
      assert stream[at..][..4] == stream[at..at + 4];
      var size := GetWord(stream[at..at + 4]);
      if buffer.Length < size {
        buffer := new Byte[size];
      }
      if |stream| < at + 4 + size {
        return None;
      }
      forall i | 0 <= i < size {
        buffer[i] := stream[at + 4 + i];
      }
      assert buffer[..size] == stream[at..][4..4 + size];
      assert stream[at..][4 + size..] == stream[at + 4 + size..];
      BeforeTwice(out, [buffer[..size]], Read(stream[at + 4 + size..]));
      out := out + [buffer[..size]];
      at := at + 4 + size;
    }
    assert stream[at..] == [];
    assert out + [] == out;
    return Some(out);
  }
}
