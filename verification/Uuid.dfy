/** UUIDs of plumbing/conversion: two 64-bit words, little-endian bytes, hexadecimal text. */
module Uuids {
  import opened Wrappers

  type Byte = b: int | 0 <= b < 256
  type Uint64 = n: int | 0 <= n < 0x1_0000_0000_0000_0000

  datatype Uuid = Uuid(low: Uint64, high: Uint64)

  // ----- Little-endian words -----

  function PutWord(n: nat, width: nat): (b: seq<Byte>)
    ensures |b| == width
    decreases width
  {
    if width == 0 then [] else [n % 256] + PutWord(n / 256, width - 1)
  }

  function GetWord(b: seq<Byte>): nat {
    if b == [] then 0 else b[0] + 256 * GetWord(b[1..])
  }

  function Pow256(width: nat): nat {
    if width == 0 then 1 else 256 * Pow256(width - 1)
  }

  lemma {:induction false} GetPut(n: nat, width: nat)
    requires n < Pow256(width)
    ensures GetWord(PutWord(n, width)) == n
    decreases width
  {
    if width > 0 {
      GetPut(n / 256, width - 1);
    }
  }

  lemma {:induction false} GetBelow(b: seq<Byte>)
    ensures GetWord(b) < Pow256(|b|)
  {
    if b != [] {
      GetBelow(b[1..]);
    }
  }

  lemma WordWidth()
    ensures Pow256(8) == 0x1_0000_0000_0000_0000 && Pow256(4) == 0x1_0000_0000
  {
    assert Pow256(4) == 256 * 256 * 256 * 256;
    assert Pow256(8) == 256 * (256 * (256 * (256 * Pow256(4))));
  }

  // ----- Hexadecimal -----

  function HexDigit(d: nat): char
    requires d < 16
  {
    if d < 10 then ('0' as int + d) as char else ('a' as int + (d - 10)) as char
  }

  /** What `%x` prints for a byte slice. */
  function Hex(b: seq<Byte>): (s: string)
    ensures |s| == 2 * |b|
  {
    if b == [] then "" else [HexDigit(b[0] / 16), HexDigit(b[0] % 16)] + Hex(b[1..])
  }

  function HexValue(c: char): Option<nat> {
    if '0' <= c <= '9' then Some(c as int - '0' as int)
    else if 'a' <= c <= 'f' then Some(c as int - 'a' as int + 10)
    else if 'A' <= c <= 'F' then Some(c as int - 'A' as int + 10)
    else None
  }

  /** `hex.DecodeString`: both cases accepted; odd length or a foreign character is an error. */
  function DecodeHex(s: string): Option<seq<Byte>> {
    if s == "" then Some([])
    else if |s| == 1 then None
    else
      var hi, lo, rest := HexValue(s[0]), HexValue(s[1]), DecodeHex(s[2..]);
      if hi.None? || lo.None? || rest.None? || hi.value >= 16 || lo.value >= 16 then None
      else Some([16 * hi.value + lo.value] + rest.value)
  }

  lemma HexDigitValue(d: nat)
    requires d < 16
    ensures HexValue(HexDigit(d)) == Some(d)
  {
  }

  lemma {:induction false} DecodeEncoded(b: seq<Byte>)
    ensures DecodeHex(Hex(b)) == Some(b)
  {
    if b != [] {
      DecodeEncoded(b[1..]);
      HexDigitValue(b[0] / 16);
      HexDigitValue(b[0] % 16);
      assert Hex(b)[2..] == Hex(b[1..]);
      assert 16 * (b[0] / 16) + b[0] % 16 == b[0];
      assert [b[0]] + b[1..] == b;
    }
  }

  lemma {:induction false} HexConcat(a: seq<Byte>, b: seq<Byte>)
    ensures Hex(a + b) == Hex(a) + Hex(b)
  {
    if a == [] {
      assert a + b == b;
    } else {
      assert (a + b)[1..] == a[1..] + b;
      HexConcat(a[1..], b);
    }
  }

  // ----- The two directions -----

  function Print(u: Uuid): string {
    var low, high := PutWord(u.low, 8), PutWord(u.high, 8);
    Hex(low[..4]) + "-" + Hex(low[4..6]) + "-" + Hex(low[6..]) + "-" + Hex(high[..2]) + "-" + Hex(high[2..])
  }

  function Parse(id: string): Option<seq<Byte>> {
    if |id| != 36 then None
    else DecodeHex(id[..8] + id[9..13] + id[14..18] + id[19..23] + id[24..])
  }

  /** `convertUUID(parseUUID(id))`: anything malformed becomes the zero UUID. */
  function Convert(id: string): Uuid {
    var data := Parse(id);
    if data.None? || |data.value| != 16 then Uuid(0, 0)
    else
      GetBelow(data.value[..8]);
      GetBelow(data.value[8..]);
      WordWidth();
      Uuid(GetWord(data.value[..8]), GetWord(data.value[8..]))
  }

  ghost predicate HexText(s: string) {
    forall i :: 0 <= i < |s| ==> '0' <= s[i] <= '9' || 'a' <= s[i] <= 'f'
  }

  lemma {:induction false} HexIsText(b: seq<Byte>)
    ensures HexText(Hex(b))
  {
    if b != [] {
      HexIsText(b[1..]);
    }
  }

  /** The printed form has the 8-4-4-4-12 shape of section 3 of RFC 4122. */
  lemma Shape(u: Uuid)
    ensures var s := Print(u);
      && |s| == 36 && s[8] == s[13] == s[18] == s[23] == '-'
      && HexText(s[..8]) && HexText(s[9..13]) && HexText(s[14..18]) && HexText(s[19..23]) && HexText(s[24..])
  {
    var low, high := PutWord(u.low, 8), PutWord(u.high, 8);
    Pieces(u);
    HexIsText(low[..4]);
    HexIsText(low[4..6]);
    HexIsText(low[6..]);
    HexIsText(high[..2]);
    HexIsText(high[2..]);
  }

  lemma Cut(a: string, b: string, c: string, d: string, f: string)
    requires |a| == 8 && |b| == |c| == |d| == 4 && |f| == 12
    ensures var s := a + "-" + b + "-" + c + "-" + d + "-" + f;
      && |s| == 36 && s[8] == s[13] == s[18] == s[23] == '-'
      && s[..8] == a && s[9..13] == b && s[14..18] == c && s[19..23] == d && s[24..] == f
  {
  }

  lemma Pieces(u: Uuid)
    ensures var s := Print(u); var low, high := PutWord(u.low, 8), PutWord(u.high, 8);
      && |s| == 36 && s[8] == s[13] == s[18] == s[23] == '-'
      && s[..8] == Hex(low[..4]) && s[9..13] == Hex(low[4..6]) && s[14..18] == Hex(low[6..])
      && s[19..23] == Hex(high[..2]) && s[24..] == Hex(high[2..])
  {
    var low, high := PutWord(u.low, 8), PutWord(u.high, 8);
    Cut(Hex(low[..4]), Hex(low[4..6]), Hex(low[6..]), Hex(high[..2]), Hex(high[2..]));
  }

  /** All 2^128 UUIDs survive printing and parsing. */
  lemma RoundTrip(u: Uuid)
    ensures Convert(Print(u)) == u
  {
    var low, high := PutWord(u.low, 8), PutWord(u.high, 8);
    Pieces(u);
    HexConcat(low[..4], low[4..6]);
    HexConcat(low[..4] + low[4..6], low[6..]);
    assert low[..4] + low[4..6] + low[6..] == low;
    HexConcat(high[..2], high[2..]);
    assert high[..2] + high[2..] == high;
    HexConcat(low, high);
    var s := Print(u);
    assert s[..8] + s[9..13] + s[14..18] + s[19..23] + s[24..] == Hex(low) + Hex(high);
    DecodeEncoded(low + high);
    assert (low + high)[..8] == low && (low + high)[8..] == high;
    WordWidth();
    GetPut(u.low, 8);
    GetPut(u.high, 8);
  }
}
