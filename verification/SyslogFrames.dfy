/**
  What goes over a syslog drain: messages of doppler/internal/sinks/syslogwriter/writer.go (section 6 of RFC 5424)
  in the octet-counted frames of syslog_writer.go (section 3.4.1 of RFC 6587). A character is one byte.
 */
module SyslogFrames {
  import opened Text

  const NUL: char := '\0'

  // ----- Messages -----

  /** `clean`: the bytes without the NULs. */
  function Clean(msg: string): string {
    if msg == "" then "" else (if msg[0] == NUL then "" else [msg[0]]) + Clean(msg[1..])
  }

  predicate HasSuffix(s: string, c: char) { s != "" && s[|s| - 1] == c }

  function Upper(s: string): string {
    if s == "" then ""
    else [if 'a' <= s[0] <= 'z' then (s[0] as int - 32) as char else s[0]] + Upper(s[1..])
  }

  /** `strings.Replace(s, "Z", "+00:00", 1)`. */
  function WithOffset(s: string): string {
    if s == "" then "" else if s[0] == 'Z' then "+00:00" + s[1..] else [s[0]] + WithOffset(s[1..])
  }

  function Source(source: string, sourceId: string): string {
    var up := Upper(source);
    if "APP" <= up then "[" + up + "/" + sourceId + "]" else "[" + up + "]"
  }

  /** Everything before the log body; `stamp` is the formatted timestamp. */
  function Header(priority: int, stamp: string, hostname: string, appId: string, source: string, sourceId: string): string {
    "<" + PrintInt(priority) + ">1 " + WithOffset(stamp) + " " + hostname + " " + appId + " " + Source(source, sourceId) + " - - "
  }

  function Body(msg: string): string {
    Clean(msg) + (if HasSuffix(msg, '\n') then "" else "\n")
  }

  /** `createMessage`. */
  function CreateMessage(priority: int, stamp: string, hostname: string, appId: string, source: string, sourceId: string, msg: string): string {
    Header(priority, stamp, hostname, appId, source, sourceId) + Body(msg)
  }

  lemma {:induction false} CleanAppend(a: string, b: string)
    ensures Clean(a + b) == Clean(a) + Clean(b)
  {
    if a == "" {
      assert a + b == b;
    } else {
      assert (a + b)[1..] == a[1..] + b;
      CleanAppend(a[1..], b);
    }
  }

  lemma {:induction false} CleanHasNoNul(msg: string)
    ensures NUL !in Clean(msg)
    ensures NUL !in msg ==> Clean(msg) == msg
  {
    if msg != "" {
      CleanHasNoNul(msg[1..]);
      assert msg == [msg[0]] + msg[1..];
    }
  }

  /**
    Whatever the log line, the message ends in a newline and its body, which is all that depends on the line,
    has no NUL; a line that already is so goes through unchanged.
   */
  lemma MessageShape(priority: int, stamp: string, hostname: string, appId: string, source: string, sourceId: string, msg: string)
    ensures
      var m := CreateMessage(priority, stamp, hostname, appId, source, sourceId, msg);
      && HasSuffix(m, '\n') && NUL !in Body(msg) && |m| > 0
    ensures NUL !in msg && HasSuffix(msg, '\n') ==> Body(msg) == msg
  {
    hide Header;
    CleanHasNoNul(msg);
    if HasSuffix(msg, '\n') {
      var n := |msg| - 1;
      assert msg == msg[..n] + "\n";
      CleanAppend(msg[..n], "\n");
      assert Clean("\n") == "\n" + Clean("\n"[1..]) == "\n";
    }
  }

  /** Some fields, each followed by a space. */
  function Spaced(fields: seq<string>): string {
    if fields == [] then "" else fields[0] + " " + Spaced(fields[1..])
  }

  lemma {:induction false} SplitSpaced(fields: seq<string>, rest: string)
    requires forall f :: f in fields ==> ' ' !in f
    ensures Split(Spaced(fields) + rest, ' ') == fields + Split(rest, ' ')
  {
    hide Split;
    if fields == [] {
      assert Spaced(fields) + rest == rest;
    } else {
      var more := Spaced(fields[1..]) + rest;
      assert Spaced(fields) + rest == fields[0] + [' '] + more;
      SplitCons(fields[0], more, ' ');
      SplitSpaced(fields[1..], rest);
      assert [fields[0]] + (fields[1..] + Split(rest, ' ')) == fields + Split(rest, ' ');
    }
  }

  lemma SpacedSeven(a: string, b: string, c: string, d: string, e: string, f: string, g: string)
    ensures Spaced([a, b, c, d, e, f, g]) == a + " " + b + " " + c + " " + d + " " + e + " " + f + " " + g + " "
  {
    assert Spaced([g]) == g + " " + "" by { assert Spaced([g][1..]) == ""; }
    assert Spaced([f, g]) == f + " " + Spaced([g]) by { assert [f, g][1..] == [g]; }
    assert Spaced([e, f, g]) == e + " " + Spaced([f, g]) by { assert [e, f, g][1..] == [f, g]; }
    assert Spaced([d, e, f, g]) == d + " " + Spaced([e, f, g]) by { assert [d, e, f, g][1..] == [e, f, g]; }
    assert Spaced([c, d, e, f, g]) == c + " " + Spaced([d, e, f, g]) by { assert [c, d, e, f, g][1..] == [d, e, f, g]; }
    assert Spaced([b, c, d, e, f, g]) == b + " " + Spaced([c, d, e, f, g]) by { assert [b, c, d, e, f, g][1..] == [c, d, e, f, g]; }
    assert Spaced([a, b, c, d, e, f, g]) == a + " " + Spaced([b, c, d, e, f, g]) by { assert [a, b, c, d, e, f, g][1..] == [b, c, d, e, f, g]; }
  }

  /**
    A receiver that splits a message at spaces finds, in this order, priority and version, time, host, app, source and
    two absent fields (section 6 of RFC 5424), and after them the log body, provided no field holds a space itself.
   */
  lemma FieldsRead(priority: int, stamp: string, hostname: string, appId: string, source: string, sourceId: string, msg: string)
    requires ' ' !in stamp && ' ' !in hostname && ' ' !in appId && ' ' !in source && ' ' !in sourceId
    ensures
      var m := CreateMessage(priority, stamp, hostname, appId, source, sourceId, msg);
      Split(m, ' ') ==
        ["<" + PrintInt(priority) + ">1", WithOffset(stamp), hostname, appId, Source(source, sourceId), "-", "-"] + Split(Body(msg), ' ')
  {
    hide Split, Body, WithOffset, Source, PrintInt;
    var fields := ["<" + PrintInt(priority) + ">1", WithOffset(stamp), hostname, appId, Source(source, sourceId), "-", "-"];
    SpacedSeven(fields[0], fields[1], fields[2], fields[3], fields[4], fields[5], fields[6]);
    assert Header(priority, stamp, hostname, appId, source, sourceId) == Spaced(fields);
    assert ' ' !in PrintInt(priority) by { NoSpaceInNumber(priority); }
    OffsetKeeps(stamp);
    SourceKeeps(source, sourceId);
    SplitSpaced(fields, Body(msg));
  }

  lemma NoSpaceInNumber(i: int)
    ensures ' ' !in PrintInt(i)
  {
  }

  lemma {:induction false} OffsetKeeps(s: string)
    requires ' ' !in s
    ensures ' ' !in WithOffset(s)
  {
    if s != "" {
      if s[0] == 'Z' {
        assert forall i :: 0 <= i < |s[1..]| ==> s[1..][i] == s[i + 1];
      } else {
        OffsetKeeps(s[1..]);
      }
    }
  }

  /** The first Z of a time, its UTC mark, becomes a numeric offset; a time without one is left alone. */
  lemma {:induction false} OffsetExact(a: string, b: string)
    requires 'Z' !in a
    ensures WithOffset(a) == a && WithOffset(a + "Z" + b) == a + "+00:00" + b
  {
    var s := a + "Z" + b;
    if a == "" {
      assert s[1..] == b;
    } else {
      assert a == [a[0]] + a[1..] && s[1..] == a[1..] + "Z" + b;
      OffsetExact(a[1..], b);
    }
  }

  /** Letters become capitals, everything else stays. */
  lemma {:induction false} UpperExact(s: string)
    ensures |Upper(s)| == |s|
    ensures forall i :: 0 <= i < |s| ==>
      Upper(s)[i] == if 'a' <= s[i] <= 'z' then (s[i] as int - 'a' as int + 'A' as int) as char else s[i]
  {
    if s != "" {
      UpperExact(s[1..]);
    }
  }

  lemma SourceKeeps(source: string, sourceId: string)
    requires ' ' !in source && ' ' !in sourceId
    ensures ' ' !in Source(source, sourceId)
  {
    UpperExact(source);
  }

  /** Does the source type begin with the letters of "app", in whatever case? */
  predicate FromApp(source: string) {
    |source| >= 3 && (source[0] == 'a' || source[0] == 'A') && (source[1] == 'p' || source[1] == 'P')
    && (source[2] == 'p' || source[2] == 'P')
  }

  /** Only an app's source names its instance. */
  lemma SourceExact(source: string, sourceId: string)
    ensures FromApp(source) ==> Source(source, sourceId) == "[" + Upper(source) + "/" + sourceId + "]"
    ensures !FromApp(source) ==> Source(source, sourceId) == "[" + Upper(source) + "]"
  {
    UpperExact(source);
    var up := Upper(source);
    if "APP" <= up {
      assert up[..3] == "APP";
      assert up[0] == 'A' && up[1] == 'P' && up[2] == 'P';
    }
  }

  // ----- Octet counting -----

  /** The bytes of one `Write`. */
  function Frame(m: string): string { PrintNat(|m|) + " " + m }

  function Framed(ms: seq<string>): string {
    if ms == [] then "" else Frame(ms[0]) + Framed(ms[1..])
  }

  function Leading(s: string): (n: nat)
    ensures n <= |s| && (forall i :: 0 <= i < n ==> IsDigit(s[i])) && (n < |s| ==> !IsDigit(s[n]))
  {
    if s == "" || !IsDigit(s[0]) then 0 else 1 + Leading(s[1..])
  }

  /** The messages a receiver takes off a stream, and the rest, in which no whole frame begins. */
  function Scan(s: string): (seq<string>, string)
    decreases |s|
  {
    var d := Leading(s);
    if d == 0 || d == |s| || s[d] != ' ' || s[0] == '0' then ([], s)
    else
      var n := Number(s[..d]);
      if |s| < d + 1 + n then ([], s)
      else
        var more := Scan(s[d + 1 + n..]);
        ([s[d + 1..d + 1 + n]] + more.0, more.1)
  }

  lemma {:induction false} LeadingOf(digits: string, rest: string)
    requires forall i :: 0 <= i < |digits| ==> IsDigit(digits[i])
    requires rest == "" || !IsDigit(rest[0])
    ensures Leading(digits + rest) == |digits|
  {
    if digits == "" {
      assert digits + rest == rest;
    } else {
      assert (digits + rest)[1..] == digits[1..] + rest;
      LeadingOf(digits[1..], rest);
    }
  }

  lemma {:induction false} NoLeadingZero(n: nat)
    requires n > 0
    ensures PrintNat(n)[0] != '0'
  {
    if n >= 10 {
      NoLeadingZero(n / 10);
    }
  }

  lemma ScanFrame(m: string, rest: string)
    requires m != ""
    ensures
      var more := Scan(rest);
      Scan(Frame(m) + rest) == ([m] + more.0, more.1)
  {
    var s, digits := Frame(m) + rest, PrintNat(|m|);
    var d := |digits|;
    assert s == digits + (" " + m + rest);
    LeadingOf(digits, " " + m + rest);
    assert s[..d] == digits && s[d] == ' ' && s[0] == digits[0];
    NumberOfPrinted(|m|);
    NoLeadingZero(|m|);
    assert s[d + 1..d + 1 + |m|] == m && s[d + 1 + |m|..] == rest;
  }

  lemma ScanTorn(m: string, n: nat)
    requires m != "" && n < |Frame(m)|
    ensures Scan(Frame(m)[..n]) == ([], Frame(m)[..n])
  {
    var s, digits := Frame(m)[..n], PrintNat(|m|);
    var d := |digits|;
    if n <= d {
      assert s == digits[..n] + "";
      LeadingOf(digits[..n], "");
    } else {
      var rest := (" " + m)[..n - d];
      assert s == digits + rest && rest[0] == ' ';
      LeadingOf(digits, rest);
      assert s[..d] == digits;
      NumberOfPrinted(|m|);
    }
  }

  /** Any concatenation of frames splits back into exactly the messages written. */
  lemma {:induction false} ScanFramed(ms: seq<string>)
    requires forall i :: 0 <= i < |ms| ==> ms[i] != ""
    ensures Scan(Framed(ms)) == (ms, "")
  {
    hide Frame, Scan;
    if ms == [] {
      assert Scan("") == ([], "") by { ScanNothing(); }
    } else {
      ScanFramed(ms[1..]);
      ScanFrame(ms[0], Framed(ms[1..]));
      assert [ms[0]] + ms[1..] == ms;
    }
  }

  lemma ScanNothing()
    ensures Scan("") == ([], "")
  {
  }

  /** A stream cut anywhere, as by a lost connection, yields the messages whose frames are whole and no other. */
  lemma {:induction false} ScanCut(ms: seq<string>, n: nat) returns (k: nat)
    requires n <= |Framed(ms)| && forall i :: 0 <= i < |ms| ==> ms[i] != ""
    ensures k <= |ms| && |Framed(ms[..k])| <= n && (k < |ms| ==> n < |Framed(ms[..k + 1])|)
    ensures Scan(Framed(ms)[..n]).0 == ms[..k]
  {
    hide Frame, Scan;
    if ms == [] {
      ScanNothing();
      assert Framed(ms)[..n] == "";
      return 0;
    }
    var f, rest := Frame(ms[0]), Framed(ms[1..]);
    assert Framed(ms) == f + rest;
    if n < |f| {
      assert (f + rest)[..n] == f[..n];
      ScanTorn(ms[0], n);
      assert ms[..1] == [ms[0]] && Framed(ms[..1]) == f + "" by { FramedOne(ms[0]); }
      return 0;
    }
    var j := ScanCut(ms[1..], n - |f|);
    assert (f + rest)[..n] == f + rest[..n - |f|];
    ScanFrame(ms[0], rest[..n - |f|]);
    assert ms[..j + 1] == [ms[0]] + ms[1..][..j];
    assert ms[..j + 1][1..] == ms[1..][..j];
    if j + 1 < |ms| {
      assert ms[..j + 2][1..] == ms[1..][..j + 1];
    }
    return j + 1;
  }

  lemma FramedOne(m: string)
    ensures Framed([m]) == Frame(m) + ""
  {
    assert Framed([m][1..]) == "";
  }

  /** The arguments of one `Write`. */
  datatype Line = Line(priority: int, stamp: string, source: string, sourceId: string, msg: string)

  function Messages(lines: seq<Line>, hostname: string, appId: string): (ms: seq<string>)
    ensures |ms| == |lines|
  {
    if lines == [] then []
    else
      var l := lines[0];
      [CreateMessage(l.priority, l.stamp, hostname, appId, l.source, l.sourceId, l.msg)] + Messages(lines[1..], hostname, appId)
  }

  lemma {:induction false} MessagesNonEmpty(lines: seq<Line>, hostname: string, appId: string, i: nat)
    requires i < |lines|
    ensures Messages(lines, hostname, appId)[i] != "" && HasSuffix(Messages(lines, hostname, appId)[i], '\n')
  {
    hide CreateMessage;
    if i == 0 {
      var l := lines[0];
      MessageShape(l.priority, l.stamp, hostname, appId, l.source, l.sourceId, l.msg);
    } else {
      MessagesNonEmpty(lines[1..], hostname, appId, i - 1);
    }
  }

  /** What a drain's writer puts on one connection splits back into its messages, whatever the log lines hold. */
  lemma DrainSplits(lines: seq<Line>, hostname: string, appId: string)
    ensures Scan(Framed(Messages(lines, hostname, appId))) == (Messages(lines, hostname, appId), "")
  {
    hide Messages, Scan, Framed;
    var ms := Messages(lines, hostname, appId);
    forall i | 0 <= i < |ms| ensures ms[i] != "" {
      MessagesNonEmpty(lines, hostname, appId, i);
    }
    ScanFramed(ms);
  }
}
