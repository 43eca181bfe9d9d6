/**
  Text the envelopes and frames are made of: decimal numbers, hexadecimal bytes, joined lists.
  A Go string is a sequence of bytes; one character here stands for one byte.
 */
module Text {
  import opened Wrappers

  // ----- Decimal -----

  function Digit(d: nat): char
    requires d < 10
  {
    ('0' as int + d) as char
  }

  predicate IsDigit(c: char) { '0' <= c <= '9' }

  function PrintNat(n: nat): (s: string)
    ensures |s| > 0 && forall i :: 0 <= i < |s| ==> IsDigit(s[i])
  {
    if n < 10 then [Digit(n)] else PrintNat(n / 10) + [Digit(n % 10)]
  }

  /** What `%d` prints. */
  function PrintInt(i: int): string {
    if i < 0 then "-" + PrintNat(-i) else PrintNat(i)
  }

  predicate AllDigits(s: string) { s != [] && forall i :: 0 <= i < |s| ==> IsDigit(s[i]) }

  function Number(s: string): nat
    requires forall i :: 0 <= i < |s| ==> IsDigit(s[i])
  {
    if s == [] then 0
    else
      assert IsDigit(s[|s| - 1]);
      10 * Number(s[..|s| - 1]) + (s[|s| - 1] as int - '0' as int)
  }

  const INT64_MIN: int := -0x8000_0000_0000_0000
  const INT64_MAX: int := 0x7FFF_FFFF_FFFF_FFFF

  /** `strconv.ParseInt(s, 10, 64)`: an optional sign, at least one digit, a value that fits. */
  function ParseInt(s: string): Option<int> {
    var signed := s != [] && (s[0] == '-' || s[0] == '+');
    var digits := if signed then s[1..] else s;
    if !AllDigits(digits) then None
    else
      var n: int := Number(digits);
      var i := if signed && s[0] == '-' then -n else n;
      if INT64_MIN <= i <= INT64_MAX then Some(i) else None
  }

  lemma {:induction false} NumberOfPrinted(n: nat)
    ensures Number(PrintNat(n)) == n
  {
    if n < 10 {
      assert [Digit(n)][..0] == [];
    } else {
      NumberOfPrinted(n / 10);
      var s := PrintNat(n);
      assert s[..|s| - 1] == PrintNat(n / 10);
    }
  }

  /** Every 64-bit integer survives printing and parsing. */
  lemma ParsePrinted(i: int)
    requires INT64_MIN <= i <= INT64_MAX
    ensures ParseInt(PrintInt(i)) == Some(i)
  {
    var n: nat := if i < 0 then -i else i;
    NumberOfPrinted(n);
    if i < 0 {
      assert PrintInt(i)[1..] == PrintNat(n);
    } else {
      assert IsDigit(PrintNat(n)[0]);
    }
  }

  // ----- Lists joined by a separator -----

  function Join(parts: seq<string>, sep: char): string {
    if parts == [] then ""
    else if |parts| == 1 then parts[0]
    else parts[0] + [sep] + Join(parts[1..], sep)
  }

  function Split(s: string, sep: char): (parts: seq<string>)
    ensures parts != []
  {
    if s == "" then [""]
    else
      var rest := Split(s[1..], sep);
      if s[0] == sep then [""] + rest else [[s[0]] + rest[0]] + rest[1..]
  }

  /** Splitting yields parts without the separator, one more than it occurs. */
  lemma {:induction false} SplitClean(s: string, sep: char)
    ensures forall p :: p in Split(s, sep) ==> sep !in p
  {
    if s != "" {
      SplitClean(s[1..], sep);
    }
  }

  lemma {:induction false} SplitPart(p: string, sep: char)
    requires sep !in p
    ensures Split(p, sep) == [p]
  {
    if p != "" {
      SplitPart(p[1..], sep);
      assert [p[0]] + p[1..] == p;
    }
  }

  lemma {:induction false} SplitCons(p: string, rest: string, sep: char)
    requires sep !in p
    ensures Split(p + [sep] + rest, sep) == [p] + Split(rest, sep)
  {
    var s := p + [sep] + rest;
    if p == "" {
      assert s[1..] == rest;
    } else {
      assert s[1..] == p[1..] + [sep] + rest;
      SplitCons(p[1..], rest, sep);
      assert [p[0]] + p[1..] == p;
    }
  }

  lemma {:induction false} SplitJoined(parts: seq<string>, sep: char)
    requires parts != [] && forall p :: p in parts ==> sep !in p
    ensures Split(Join(parts, sep), sep) == parts
  {
    if |parts| == 1 {
      SplitPart(parts[0], sep);
    } else {
      SplitJoined(parts[1..], sep);
      SplitCons(parts[0], Join(parts[1..], sep), sep);
    }
  }

  /** A list comes back from join and split exactly when it is nonempty and no part holds the separator. */
  lemma SplitJoinExact(parts: seq<string>, sep: char)
    ensures Split(Join(parts, sep), sep) == parts <==> parts != [] && forall p :: p in parts ==> sep !in p
  {
    SplitClean(Join(parts, sep), sep);
    if parts != [] && forall p :: p in parts ==> sep !in p {
      SplitJoined(parts, sep);
    }
  }
}
