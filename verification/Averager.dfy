/**
  The packed average of plumbing/envelope_averager.go: a 16-bit count and a 48-bit byte total in one word
  that many goroutines advance by compare-and-swap, and a ticker that reports differences of it.
 */
module Averager {
  import opened Wrappers

  const COUNT_LIMIT: int := 0x1_0000
  const TOTAL_LIMIT: int := 0x1_0000_0000_0000
  const WORD_LIMIT: int := 0x1_0000_0000_0000_0000

  type Word = n: int | 0 <= n < 0x1_0000_0000_0000_0000

  // ----- The packed word: shift and mask by 48 bits -----

  function CountOf(w: Word): (c: nat)
    ensures c < COUNT_LIMIT
  {
    w / TOTAL_LIMIT
  }

  function TotalOf(w: Word): nat { w % TOTAL_LIMIT }

  /** `encodeDelta`, with `uint16` addition of the counts and `uint64` addition of the totals. */
  function EncodeDelta(w: Word, count: nat, size: nat): Word {
    var c := (count % COUNT_LIMIT + CountOf(w)) % COUNT_LIMIT;
    var t := (size % WORD_LIMIT + TotalOf(w)) % WORD_LIMIT;
    c * TOTAL_LIMIT + t % TOTAL_LIMIT
  }

  lemma CountsAdd(a: nat, b: nat)
    ensures (a % COUNT_LIMIT + b % COUNT_LIMIT) % COUNT_LIMIT == (a + b) % COUNT_LIMIT
  {
  }

  /** A 64-bit sum keeps its low 48 bits, whatever carries out of the word. */
  lemma TotalsAdd(a: nat, b: nat)
    ensures ((a % WORD_LIMIT + b % TOTAL_LIMIT) % WORD_LIMIT) % TOTAL_LIMIT == (a + b) % TOTAL_LIMIT
  {
    var x := a % WORD_LIMIT + b % TOTAL_LIMIT;
    var y := x % WORD_LIMIT;
    var q, r := y / TOTAL_LIMIT, y % TOTAL_LIMIT;
    assert a + b == TOTAL_LIMIT * (COUNT_LIMIT * (a / WORD_LIMIT) + b / TOTAL_LIMIT + COUNT_LIMIT * (x / WORD_LIMIT) + q) + r;
  }

  lemma Unpack(c: nat, t: nat)
    requires c < COUNT_LIMIT && t < TOTAL_LIMIT
    ensures CountOf(c * TOTAL_LIMIT + t) == c && TotalOf(c * TOTAL_LIMIT + t) == t
  {
  }

  /** The word that holds `count` and `size` modulo the two field widths. */
  ghost predicate Holds(w: Word, count: nat, size: nat) {
    CountOf(w) == count % COUNT_LIMIT && TotalOf(w) == size % TOTAL_LIMIT
  }

  lemma EncodeAdds(w: Word, n: nat, s: nat, count: nat, size: nat)
    requires Holds(w, n, s)
    ensures Holds(EncodeDelta(w, count, size), n + count, s + size)
  {
    var c := (count % COUNT_LIMIT + CountOf(w)) % COUNT_LIMIT;
    var t := (size % WORD_LIMIT + TotalOf(w)) % WORD_LIMIT;
    CountsAdd(count, n);
    TotalsAdd(size, s);
    Unpack(c, t % TOTAL_LIMIT);
  }

  // ----- One tick -----

  /** The two operands of the division that a tick hands to its callback; a zero count reports 0. */
  datatype Report = Report(deltaCount: nat, deltaTotal: nat)

  function Average(r: Report): real {
    if r.deltaCount == 0 then 0.0 else r.deltaTotal as real / r.deltaCount as real
  }

  /** `uint16` and `uint64` subtraction. */
  function Tick(w: Word, prevCount: nat, prevTotal: nat): Report
    requires prevCount < COUNT_LIMIT && prevTotal < TOTAL_LIMIT
  {
    Report((CountOf(w) - prevCount) % COUNT_LIMIT, (TotalOf(w) - prevTotal) % WORD_LIMIT)
  }

  lemma CountDifference(n0: nat, n: nat)
    ensures ((n0 + n) % COUNT_LIMIT - n0 % COUNT_LIMIT) % COUNT_LIMIT == n % COUNT_LIMIT
  {
    CountsAdd(n0, n);
  }

  /** The byte difference is right exactly when the 48-bit field wrapped a multiple of 2^16 times. */
  lemma TotalDifference(p: nat, s: nat)
    requires p < TOTAL_LIMIT
    ensures (((p + s) % TOTAL_LIMIT - p) % WORD_LIMIT == s) <==> (s < WORD_LIMIT && ((p + s) / TOTAL_LIMIT) % COUNT_LIMIT == 0)
  {
    var k, r := (p + s) / TOTAL_LIMIT, (p + s) % TOTAL_LIMIT;
    assert r - p == s - k * TOTAL_LIMIT;
    var q := k / COUNT_LIMIT;
    var d := k % COUNT_LIMIT;
    assert k * TOTAL_LIMIT == q * WORD_LIMIT + d * TOTAL_LIMIT;
  }

  /** Interval arithmetic of one tick: `n0`, `s0` tracked before the last tick, `n`, `s` since. */
  lemma TickExact(w: Word, prev: Word, n0: nat, s0: nat, n: nat, s: nat)
    requires Holds(prev, n0, s0) && Holds(w, n0 + n, s0 + s)
    ensures (Tick(w, CountOf(prev), TotalOf(prev)) == Report(n, s)) <==>
      (n < COUNT_LIMIT && s < WORD_LIMIT && ((s0 % TOTAL_LIMIT + s) / TOTAL_LIMIT) % COUNT_LIMIT == 0)
  {
    CountDifference(n0, n);
    var p := s0 % TOTAL_LIMIT;
    assert (s0 + s) % TOTAL_LIMIT == (p + s) % TOTAL_LIMIT;
    TotalDifference(p, s);
  }

  // ----- Concurrent runs -----

  /** A call of `Track`; `loaded` is what its last load saw. */
  datatype Tracker = Tracker(count: nat, size: nat, loaded: Option<Word>, done: bool)

  /** What had been tracked, all told, when a tick read the word. */
  datatype Mark = Mark(count: nat, size: nat)

  datatype State = State(word: Word, trackers: seq<Tracker>, prevCount: nat, prevTotal: nat,
                         marks: seq<Mark>, reports: seq<Report>)

  datatype Step = Call(count: nat, size: nat) | Load(t: nat) | Cas(t: nat) | TickStep

  function SumCount(ts: seq<Tracker>): nat {
    if ts == [] then 0 else SumCount(ts[..|ts| - 1]) + (if ts[|ts| - 1].done then ts[|ts| - 1].count else 0)
  }

  function SumSize(ts: seq<Tracker>): nat {
    if ts == [] then 0 else SumSize(ts[..|ts| - 1]) + (if ts[|ts| - 1].done then ts[|ts| - 1].size else 0)
  }

  function Initial(): State { State(0, [], 0, 0, [], []) }

  predicate Enabled(s: State, step: Step) {
    match step
    case Call(_, _) => true
    case Load(t) => t < |s.trackers| && !s.trackers[t].done
    case Cas(t) => t < |s.trackers| && !s.trackers[t].done && s.trackers[t].loaded.Some?
    case TickStep => s.prevCount < COUNT_LIMIT && s.prevTotal < TOTAL_LIMIT
  }

  function Apply(s: State, step: Step): State
    requires Enabled(s, step)
  {
    match step
    case Call(count, size) => s.(trackers := s.trackers + [Tracker(count, size, None, false)])
    case Load(t) => s.(trackers := s.trackers[t := s.trackers[t].(loaded := Some(s.word))])
    case Cas(t) =>
      var tr := s.trackers[t];
      if tr.loaded.value == s.word then
        s.(word := EncodeDelta(s.word, tr.count, tr.size), trackers := s.trackers[t := tr.(done := true)])
      else s.(trackers := s.trackers[t := tr.(loaded := None)])
    case TickStep =>
      s.(prevCount := CountOf(s.word), prevTotal := TotalOf(s.word),
         marks := s.marks + [Mark(SumCount(s.trackers), SumSize(s.trackers))],
         reports := s.reports + [Tick(s.word, s.prevCount, s.prevTotal)])
  }

  ghost predicate Next(s: State, step: Step, t: State) {
    Enabled(s, step) && t == Apply(s, step)
  }

  ghost predicate IsRun(states: seq<State>, steps: seq<Step>) {
    && |states| == |steps| + 1 && states[0] == Initial()
    && forall i :: 0 <= i < |steps| ==> Next(states[i], steps[i], states[i + 1])
  }

  function MarkAt(marks: seq<Mark>, i: int): Mark
    requires -1 <= i < |marks|
  {
    if i < 0 then Mark(0, 0) else marks[i]
  }

  /** The report of tick `i` is the interval's exact count and bytes, precisely under the stated bounds. */
  ghost predicate ReportRight(marks: seq<Mark>, i: nat, r: Report)
    requires i < |marks|
  {
    var a, b := MarkAt(marks, i - 1), marks[i];
    && a.count <= b.count && a.size <= b.size
    && ((r == Report(b.count - a.count, b.size - a.size)) <==>
        && b.count - a.count < COUNT_LIMIT
        && b.size - a.size < WORD_LIMIT
        && ((a.size % TOTAL_LIMIT + (b.size - a.size)) / TOTAL_LIMIT) % COUNT_LIMIT == 0)
  }

  ghost predicate Inv(s: State) {
    && Holds(s.word, SumCount(s.trackers), SumSize(s.trackers))
    && s.prevCount < COUNT_LIMIT && s.prevTotal < TOTAL_LIMIT
    && |s.reports| == |s.marks|
    && (forall i :: 0 <= i < |s.marks| ==> ReportRight(s.marks, i, s.reports[i]))
    && var last := MarkAt(s.marks, |s.marks| - 1);
       && s.prevCount == last.count % COUNT_LIMIT && s.prevTotal == last.size % TOTAL_LIMIT
       && last.count <= SumCount(s.trackers) && last.size <= SumSize(s.trackers)
  }

  lemma {:induction false} SumUpdate(ts: seq<Tracker>, i: nat, tr: Tracker)
    requires i < |ts| && !ts[i].done && tr.count == ts[i].count && tr.size == ts[i].size
    ensures SumCount(ts[i := tr]) == SumCount(ts) + (if tr.done then tr.count else 0)
    ensures SumSize(ts[i := tr]) == SumSize(ts) + (if tr.done then tr.size else 0)
  {
    var n := |ts| - 1;
    if i == n {
      assert ts[i := tr][..n] == ts[..n];
    } else {
      assert ts[i := tr][..n] == ts[..n][i := tr];
      SumUpdate(ts[..n], i, tr);
    }
  }

  lemma TickKept(s: State)
    requires Inv(s)
    ensures Inv(Apply(s, TickStep))
  {
    hide Tick, EncodeDelta;
    var u := Apply(s, TickStep);
    var last := MarkAt(s.marks, |s.marks| - 1);
    var n, z := SumCount(s.trackers), SumSize(s.trackers);
    var prev: Word := s.prevCount * TOTAL_LIMIT + s.prevTotal;
    Unpack(s.prevCount, s.prevTotal);
    TickExact(s.word, prev, last.count, last.size, n - last.count, z - last.size);
    forall i | 0 <= i < |u.marks| ensures ReportRight(u.marks, i, u.reports[i]) {
      assert MarkAt(u.marks, i - 1) == if i < |s.marks| then MarkAt(s.marks, i - 1) else last;
      if i < |s.marks| {
        assert ReportRight(s.marks, i, s.reports[i]);
      }
    }
  }

  lemma StepKept(s: State, step: Step)
    requires Inv(s) && Enabled(s, step)
    ensures Inv(Apply(s, step))
  {
    hide Holds, ReportRight, EncodeDelta;
    if step.Call? {
      assert Apply(s, step).trackers[..|s.trackers|] == s.trackers;
    } else if step.Load? {
      SumUpdate(s.trackers, step.t, s.trackers[step.t].(loaded := Some(s.word)));
    } else if step.Cas? {
      var tr := s.trackers[step.t];
      if tr.loaded.value == s.word {
        SumUpdate(s.trackers, step.t, tr.(done := true));
        EncodeAdds(s.word, SumCount(s.trackers), SumSize(s.trackers), tr.count, tr.size);
      } else {
        SumUpdate(s.trackers, step.t, tr.(loaded := None));
      }
    } else {
      TickKept(s);
    }
  }

  /** In every state of every run the word holds the sums of the finished calls, and every report is exact under its bounds. */
  lemma {:induction false} Always(states: seq<State>, steps: seq<Step>, i: nat)
    requires IsRun(states, steps) && i < |states|
    ensures Inv(states[i]) && |states[i].reports| == |states[i].marks|
  {
    if i > 0 {
      Always(states, steps, i - 1);
      assert Next(states[i - 1], steps[i - 1], states[i]);
      StepKept(states[i - 1], steps[i - 1]);
    }
  }

  /** The everyday reading: fewer than 2^16 envelopes and no wrap of the byte field give the exact average. */
  lemma IntervalAverage(states: seq<State>, steps: seq<Step>, i: nat, k: nat)
    requires IsRun(states, steps) && i < |states| && k < |states[i].marks| == |states[i].reports|
    requires
      var a, b := MarkAt(states[i].marks, k - 1), states[i].marks[k];
      b.count - a.count < COUNT_LIMIT && a.size / TOTAL_LIMIT == b.size / TOTAL_LIMIT
    ensures
      var a, b := MarkAt(states[i].marks, k - 1), states[i].marks[k];
      Average(states[i].reports[k]) ==
        if a.count == b.count then 0.0 else (b.size - a.size) as real / (b.count - a.count) as real
  {
    Always(states, steps, i);
    var a, b := MarkAt(states[i].marks, k - 1), states[i].marks[k];
    assert ReportRight(states[i].marks, k, states[i].reports[k]);
    assert a.size % TOTAL_LIMIT + (b.size - a.size) == b.size % TOTAL_LIMIT;
  }

  /** A wrap of the byte field is not repaired, unlike a wrap of the count: the reported total is far off. */
  lemma WrapShows()
    ensures Tick(0, 0xFFFF, 0xFFFF_FFFF_FFFF) == Report(1, WORD_LIMIT - 0xFFFF_FFFF_FFFF)
    ensures EncodeDelta(WORD_LIMIT - 1, 1, 1) == 0
  {
  }

  // ----- The loops -----

  /** `Track`'s loop: round `i` loads `loads[i]` and finds `swaps[i]` in place when it swaps. */
  method Track(loads: seq<Word>, swaps: seq<Word>, count: nat, size: nat) returns (round: nat, stored: Option<Word>)
    requires |loads| == |swaps|
    ensures round <= |loads| && forall i :: 0 <= i < round ==> loads[i] != swaps[i]
    ensures stored.None? <==> round == |loads|
    ensures stored.Some? ==> forall n: nat, s: nat ::
      Holds(swaps[round], n, s) ==> Holds(stored.value, n + count, s + size)
  {
    hide Holds, EncodeDelta;
    round := 0;
    stored := None;
    while round < |loads|
      invariant round <= |loads| && forall i :: 0 <= i < round ==> loads[i] != swaps[i]
    {
      var current := loads[round];
      var newValue := EncodeDelta(current, count, size);
      if current == swaps[round] {
        forall n: nat, s: nat | Holds(current, n, s) ensures Holds(newValue, n + count, s + size) {
          EncodeAdds(current, n, s, count, size);
        }
        return round, Some(newValue);
      }
      round := round + 1;
    }
  }

  /** `Start`'s loop over the words its ticks load, against the running sums behind them. */
  method Start(words: seq<Word>, ghost marks: seq<Mark>) returns (reports: seq<Report>)
    requires |marks| == |words|
    requires forall i :: 0 <= i < |words| ==> Holds(words[i], marks[i].count, marks[i].size)
    requires forall i :: 0 <= i < |words| ==>
      MarkAt(marks, i - 1).count <= marks[i].count && MarkAt(marks, i - 1).size <= marks[i].size
    ensures |reports| == |words| && forall i :: 0 <= i < |words| ==> ReportRight(marks, i, reports[i])
  {
    hide Tick;
    var prevCount, prevTotal := 0, 0;
    ghost var prev: Word := 0;
    reports := [];
    var i := 0;
    while i < |words|
      invariant 0 <= i <= |words| == |marks| && |reports| == i
      invariant prevCount == CountOf(prev) && prevTotal == TotalOf(prev)
      invariant Holds(prev, MarkAt(marks, i - 1).count, MarkAt(marks, i - 1).size)
      invariant forall j :: 0 <= j < i ==> ReportRight(marks, j, reports[j])
    {
      var count, total := CountOf(words[i]), TotalOf(words[i]);
      ghost var a, b := MarkAt(marks, i - 1), marks[i];
      TickExact(words[i], prev, a.count, a.size, b.count - a.count, b.size - a.size);
      reports := reports + [Tick(words[i], prevCount, prevTotal)];
      prevCount, prevTotal := count, total;
      prev := words[i];
      i := i + 1;
    }
  }
}
