/**
  What every run of the connector keeps, with no assumption on the scheduler: slots are claimed
  safely, no consumer reads one URI twice at a time, and reference counts count readers.
 */
module ConnectorBasics {
  import opened Wrappers
  import opened ConnectorState

  // ----- The invariant -----

  ghost predicate Registered(c: Consumer) { c.pc.Claimed? || c.pc.Finished? }

  ghost predicate InSlot(s: State, c: nat) {
    exists i :: 0 <= i < |s.slots| && s.slots[i] == Some(c)
  }

  /** A slot seen free stays replaceable, and a live registered consumer keeps its slot. */
  ghost predicate SlotsSafe(s: State)
    requires InRange(s)
  {
    && (forall c :: 0 <= c < |s.consumers| && s.consumers[c].pc.Loaded? ==>
          && s.consumers[c].pc.slot < |s.slots|
          && (s.consumers[c].pc.seen.Some? ==>
                s.consumers[c].pc.seen.value < |s.consumers| && s.consumers[s.consumers[c].pc.seen.value].dead))
    && (forall i :: 0 <= i < |s.slots| && s.slots[i].Some? ==> Registered(s.consumers[s.slots[i].value]))
    && (forall c :: 0 <= c < |s.consumers| && Registered(s.consumers[c]) && !s.consumers[c].dead ==> InSlot(s, c))
  }

  function UriOf(s: State, r: nat): string
    requires InRange(s) && r < |s.readers|
  {
    s.info[s.readers[r].client].uri
  }

  ghost predicate SameConsumerHolds(s: State, q: nat, r: nat)
    requires q < |s.readers| && r < |s.readers|
  {
    s.readers[q].Holds() && s.readers[r].Holds() && s.readers[q].consumer == s.readers[r].consumer
  }

  ghost predicate HeldBy(s: State, c: nat, u: string)
    requires InRange(s)
  {
    exists r :: 0 <= r < |s.readers| && s.readers[r].Holds() && s.readers[r].consumer == c && UriOf(s, r) == u
  }

  /** No (consumer, URI) pair has two readers, and the doppler set lists exactly the URIs being read. */
  ghost predicate ReadersUnique(s: State)
    requires InRange(s)
  {
    && (forall r :: 0 <= r < |s.readers| && s.readers[r].Holds() ==>
          UriOf(s, r) in s.consumers[s.readers[r].consumer].dopplers)
    && (forall c, u :: 0 <= c < |s.consumers| && u in s.consumers[c].dopplers ==> HeldBy(s, c, u))
    && (forall q, r :: 0 <= q < r < |s.readers| && SameConsumerHolds(s, q, r) ==> UriOf(s, q) != UriOf(s, r))
  }

  ghost function CountedOn(s: State, k: nat): set<nat> { CountedIn(s.readers, k) }

  ghost predicate CountsFor(reader: Reader, k: nat) { reader.Counted() && reader.client == k }

  ghost function CountedIn(readers: seq<Reader>, k: nat): set<nat> {
    set r | 0 <= r < |readers| && CountsFor(readers[r], k)
  }

  ghost predicate CountsRight(s: State) {
    forall k :: 0 <= k < |s.info| ==> s.info[k].refCount == |CountedOn(s, k)|
  }

  ghost predicate Distinct<T>(xs: seq<T>) {
    forall i, j :: 0 <= i < j < |xs| ==> xs[i] != xs[j]
  }

  ghost predicate Basic(s: State) {
    InRange(s) && SlotsSafe(s) && ReadersUnique(s) && CountsRight(s) && Distinct(s.clients)
  }

  // ----- Sequence facts -----

  lemma {:induction false} RemoveDistinct(s: seq<nat>, x: nat)
    requires Distinct(s)
    ensures Distinct(Remove(s, x))
  {
    if s != [] {
      RemoveDistinct(s[1..], x);
      assert s[0] !in s[1..];
    }
  }

  lemma {:induction false} DeltaDeadListed(remaining: seq<nat>, names: seq<string>, uris: seq<string>)
    requires |remaining| == |names|
    ensures forall k :: k in Delta(remaining, names, uris).dead ==> k in remaining
    ensures Distinct(remaining) ==> Distinct(Delta(remaining, names, uris).dead)
    decreases |uris|
  {
    if uris != [] {
      var i := FirstAt(names, uris[0]);
      if i < |names| {
        DeltaDeadListed(Without(remaining, i), Without(names, i), uris[1..]);
      } else {
        DeltaDeadListed(remaining, names, uris[1..]);
      }
    }
  }

  // ----- Each step keeps it -----

  lemma RangeKeptFinder(s: State, step: Step)
    requires Basic(s) && Enabled(s, step) && step.OfFinder()
    ensures InRange(Apply(s, step))
  {
    hide SlotsSafe, ReadersUnique, CountsRight;
    match step
    case FinderBegin(uris) =>
      DeltaDeadListed(s.clients, UrisOf(s), uris);
      var dead := Delta(s.clients, UrisOf(s), uris).dead;
      assert forall i :: 0 <= i < |dead| ==> dead[i] in s.clients;
    case FinderKill =>
      var left := Remove(s.clients, s.finder.Dead()[0]);
      assert forall i :: 0 <= i < |left| ==> left[i] in s.clients;
    case _ =>
  }

  lemma RangeKeptReader(s: State, step: Step)
    requires Basic(s) && Enabled(s, step) && step.OfReader()
    ensures InRange(Apply(s, step))
  {
    hide SlotsSafe, ReadersUnique, CountsRight;
    match step
    case Leave(r) =>
      var left := Remove(s.clients, s.readers[r].client);
      assert forall i :: 0 <= i < |left| ==> left[i] in s.clients;
    case _ =>
  }

  lemma RangeKept(s: State, step: Step)
    requires Basic(s) && Enabled(s, step)
    ensures InRange(Apply(s, step))
  {
    if step.OfFinder() {
      RangeKeptFinder(s, step);
    } else if step.OfReader() {
      RangeKeptReader(s, step);
    }
  }

  lemma ListKept(s: State, step: Step)
    requires Basic(s) && Enabled(s, step)
    ensures Distinct(Apply(s, step).clients)
  {
    match step
    case Leave(r) => RemoveDistinct(s.clients, s.readers[r].client);
    case FinderKill => RemoveDistinct(s.clients, s.finder.Dead()[0]);
    case _ =>
  }

  // Slots

  /** The slot invariant looks only at slots and at each consumer's progress and life. */
  lemma SlotsFrame(s: State, t: State)
    requires InRange(s) && InRange(t) && SlotsSafe(s)
    requires t.slots == s.slots && |t.consumers| == |s.consumers|
    requires forall c :: 0 <= c < |s.consumers| ==>
      t.consumers[c].pc == s.consumers[c].pc && t.consumers[c].dead == s.consumers[c].dead
    ensures SlotsSafe(t)
  {
    forall c | 0 <= c < |t.consumers| && Registered(t.consumers[c]) && !t.consumers[c].dead ensures InSlot(t, c) {
      assert InSlot(s, c);
    }
  }

  lemma SlotsMoved(s: State, c: nat, pc: SubscribePc)
    requires Basic(s) && c < |s.consumers| && !s.consumers[c].pc.Claimed? && !s.consumers[c].pc.Finished?
    requires pc.Scanning? || pc.Refused? || (pc.Loaded? && pc.slot < |s.slots| && pc.seen == s.slots[pc.slot] && SlotFree(s, pc.slot))
    ensures InRange(SetPc(s, c, pc)) && SlotsSafe(SetPc(s, c, pc))
  {
    var t := SetPc(s, c, pc);
    forall d | 0 <= d < |t.consumers| && Registered(t.consumers[d]) && !t.consumers[d].dead ensures InSlot(t, d) {
      assert InSlot(s, d);
    }
  }

  /** A successful compare-and-swap only ever replaces an empty slot or a dead consumer. */
  lemma SlotsClaimed(s: State, c: nat)
    requires Basic(s) && Enabled(s, Cas(c)) && s.slots[s.consumers[c].pc.slot] == s.consumers[c].pc.seen
    requires InRange(Apply(s, Cas(c)))
    ensures SlotFree(s, s.consumers[c].pc.slot)
    ensures SlotsSafe(Apply(s, Cas(c)))
  {
    var i := s.consumers[c].pc.slot;
    var t := Apply(s, Cas(c));
    assert t.slots[i] == Some(c);
    forall d | 0 <= d < |t.consumers| && Registered(t.consumers[d]) && !t.consumers[d].dead ensures InSlot(t, d) {
      if d != c {
        assert InSlot(s, d);
        var j :| 0 <= j < |s.slots| && s.slots[j] == Some(d);
        assert t.slots[j] == Some(d);
      }
    }
  }

  lemma SlotsGrown(s: State)
    requires Basic(s)
    ensures SlotsSafe(Apply(s, NewConsumer))
  {
    var t := Apply(s, NewConsumer);
    forall d | 0 <= d < |t.consumers| && Registered(t.consumers[d]) && !t.consumers[d].dead ensures InSlot(t, d) {
      assert InSlot(s, d);
    }
  }

  lemma SlotsConnected(s: State, c: nat)
    requires Basic(s) && Enabled(s, Connect(c)) && InRange(Apply(s, Connect(c)))
    ensures SlotsSafe(Apply(s, Connect(c)))
  {
    var t := Apply(s, Connect(c));
    forall d | 0 <= d < |t.consumers| && Registered(t.consumers[d]) && !t.consumers[d].dead ensures InSlot(t, d) {
      assert InSlot(s, d);
    }
  }

  lemma SlotsKilled(s: State, c: nat)
    requires Basic(s) && Enabled(s, Kill(c)) && InRange(Apply(s, Kill(c)))
    ensures SlotsSafe(Apply(s, Kill(c)))
  {
    var t := Apply(s, Kill(c));
    forall d | 0 <= d < |t.consumers| && Registered(t.consumers[d]) && !t.consumers[d].dead ensures InSlot(t, d) {
      assert InSlot(s, d);
    }
  }

  lemma SlotsKeptElsewhere(s: State, step: Step)
    requires Basic(s) && Enabled(s, step) && !step.OfSubscriber() && InRange(Apply(s, step))
    ensures SlotsSafe(Apply(s, step))
  {
    hide SlotsSafe, ReadersUnique, CountsRight, Delta, UrisOf;
    SlotsFrame(s, Apply(s, step));
  }

  lemma SlotsKept(s: State, step: Step)
    requires Basic(s) && Enabled(s, step) && InRange(Apply(s, step))
    ensures SlotsSafe(Apply(s, step))
  {
    hide SlotsSafe, ReadersUnique, CountsRight;
    if step.OfSubscriber() {
      SlotsKeptSubscriber(s, step);
    } else {
      SlotsKeptElsewhere(s, step);
    }
  }

  lemma SlotsKeptSubscriber(s: State, step: Step)
    requires Basic(s) && Enabled(s, step) && step.OfSubscriber() && InRange(Apply(s, step))
    ensures SlotsSafe(Apply(s, step))
  {
    hide SlotsSafe, ReadersUnique, CountsRight;
    if step.NewConsumer? {
      SlotsGrown(s);
    } else if step.Load? {
      SlotsMoved(s, step.c, Apply(s, step).consumers[step.c].pc);
    } else if step.Cas? {
      var Loaded(i, seen) := s.consumers[step.c].pc;
      if s.slots[i] == seen { SlotsClaimed(s, step.c); } else { SlotsMoved(s, step.c, Scanning(i + 1)); }
    } else if step.Refuse? {
      SlotsMoved(s, step.c, Refused);
    } else if step.Connect? {
      SlotsConnected(s, step.c);
    } else {
      SlotsKilled(s, step.c);
    }
  }

  // Readers

  /** Unchanged holders, doppler sets and URIs; new readers have not started yet. */
  lemma ReadersFrame(s: State, t: State)
    requires InRange(s) && InRange(t) && ReadersUnique(s)
    requires |s.consumers| <= |t.consumers| && |s.readers| <= |t.readers| && |s.info| <= |t.info|
    requires forall c :: 0 <= c < |s.consumers| ==> t.consumers[c].dopplers == s.consumers[c].dopplers
    requires forall c :: |s.consumers| <= c < |t.consumers| ==> t.consumers[c].dopplers == {}
    requires forall k :: 0 <= k < |s.info| ==> t.info[k].uri == s.info[k].uri
    requires forall r :: 0 <= r < |s.readers| ==>
      && t.readers[r].Holds() == s.readers[r].Holds()
      && t.readers[r].consumer == s.readers[r].consumer && t.readers[r].client == s.readers[r].client
    requires forall r :: |s.readers| <= r < |t.readers| ==> t.readers[r].pc.Spawned?
    ensures ReadersUnique(t)
  {
    forall c, u | 0 <= c < |t.consumers| && u in t.consumers[c].dopplers ensures HeldBy(t, c, u) {
      assert HeldBy(s, c, u);
      var r :| 0 <= r < |s.readers| && s.readers[r].Holds() && s.readers[r].consumer == c && UriOf(s, r) == u;
      assert t.readers[r].Holds() && UriOf(t, r) == u;
    }
    forall q, r | 0 <= q < r < |t.readers| && SameConsumerHolds(t, q, r) ensures UriOf(t, q) != UriOf(t, r) {
      assert SameConsumerHolds(s, q, r);
    }
  }

  lemma ReadersStarted(s: State, r: nat)
    requires Basic(s) && Enabled(s, Start(r)) && UriOf(s, r) !in s.consumers[s.readers[r].consumer].dopplers
    requires InRange(Apply(s, Start(r)))
    ensures ReadersUnique(Apply(s, Start(r)))
  {
    var t := Apply(s, Start(r));
    forall c, u | 0 <= c < |t.consumers| && u in t.consumers[c].dopplers ensures HeldBy(t, c, u) {
      if c == s.readers[r].consumer && u == UriOf(s, r) {
        assert t.readers[r].Holds() && UriOf(t, r) == u;
      } else {
        assert HeldBy(s, c, u);
        var q :| 0 <= q < |s.readers| && s.readers[q].Holds() && s.readers[q].consumer == c && UriOf(s, q) == u;
        assert t.readers[q] == s.readers[q] && UriOf(t, q) == u;
      }
    }
    forall p, q | 0 <= p < q < |t.readers| && SameConsumerHolds(t, p, q) ensures UriOf(t, p) != UriOf(t, q) {
      assert p != r && q != r ==> SameConsumerHolds(s, p, q);
    }
  }

  lemma ReadersLeft(s: State, r: nat)
    requires Basic(s) && Enabled(s, Leave(r)) && InRange(Apply(s, Leave(r)))
    ensures ReadersUnique(Apply(s, Leave(r)))
  {
    hide SlotsSafe, ReadersUnique, CountsRight, Remove;
    OneLeft(s, Apply(s, Leave(r)), r);
  }

  /** One reader gives its URI back; all others keep theirs. */
  lemma OneLeft(s: State, t: State, r: nat)
    requires InRange(s) && InRange(t) && ReadersUnique(s) && r < |s.readers| && s.readers[r].Holds()
    requires |t.readers| == |s.readers| && |t.consumers| == |s.consumers| && |t.info| == |s.info|
    requires !t.readers[r].Holds() && forall q :: 0 <= q < |s.readers| && q != r ==> t.readers[q] == s.readers[q]
    requires forall k :: 0 <= k < |s.info| ==> t.info[k].uri == s.info[k].uri
    requires forall c :: 0 <= c < |s.consumers| ==>
      t.consumers[c].dopplers == s.consumers[c].dopplers - (if c == s.readers[r].consumer then {UriOf(s, r)} else {})
    ensures ReadersUnique(t)
  {
    assert forall q :: 0 <= q < |s.readers| && q != r ==> UriOf(t, q) == UriOf(s, q);
    forall q | 0 <= q < |t.readers| && t.readers[q].Holds()
      ensures UriOf(t, q) in t.consumers[t.readers[q].consumer].dopplers
    {
      if q < r { assert SameConsumerHolds(s, q, r) || s.readers[q].consumer != s.readers[r].consumer; }
      if r < q { assert SameConsumerHolds(s, r, q) || s.readers[q].consumer != s.readers[r].consumer; }
    }
    forall c, u | 0 <= c < |t.consumers| && u in t.consumers[c].dopplers ensures HeldBy(t, c, u) {
      assert HeldBy(s, c, u);
      var q :| 0 <= q < |s.readers| && s.readers[q].Holds() && s.readers[q].consumer == c && UriOf(s, q) == u;
      assert q != r;
      assert t.readers[q].Holds() && UriOf(t, q) == u;
    }
    forall p, q | 0 <= p < q < |t.readers| && SameConsumerHolds(t, p, q) ensures UriOf(t, p) != UriOf(t, q) {
      assert SameConsumerHolds(s, p, q);
    }
  }

  lemma ReadersKeptFinder(s: State, step: Step)
    requires Basic(s) && Enabled(s, step) && step.OfFinder() && InRange(Apply(s, step))
    ensures ReadersUnique(Apply(s, step))
  {
    ReadersFrame(s, Apply(s, step));
  }

  lemma ReadersKeptSubscriber(s: State, step: Step)
    requires Basic(s) && Enabled(s, step) && step.OfSubscriber() && InRange(Apply(s, step))
    ensures ReadersUnique(Apply(s, step))
  {
    ReadersFrame(s, Apply(s, step));
  }

  lemma ReadersKeptReader(s: State, step: Step)
    requires Basic(s) && Enabled(s, step) && step.OfReader() && InRange(Apply(s, step))
    ensures ReadersUnique(Apply(s, step))
  {
    if step.Leave? {
      ReadersLeft(s, step.r);
    } else if step.Start? && UriOf(s, step.r) !in s.consumers[s.readers[step.r].consumer].dopplers {
      ReadersStarted(s, step.r);
    } else {
      ReadersFrame(s, Apply(s, step));
    }
  }

  lemma ReadersKept(s: State, step: Step)
    requires Basic(s) && Enabled(s, step) && InRange(Apply(s, step))
    ensures ReadersUnique(Apply(s, step))
  {
    if step.OfFinder() {
      ReadersKeptFinder(s, step);
    } else if step.OfSubscriber() {
      ReadersKeptSubscriber(s, step);
    } else {
      ReadersKeptReader(s, step);
    }
  }

  // Reference counts

  lemma CountsFrame(s: State, t: State)
    requires InRange(s) && CountsRight(s) && |s.info| <= |t.info| && |s.readers| <= |t.readers|
    requires forall k :: 0 <= k < |s.info| ==> t.info[k].refCount == s.info[k].refCount
    requires forall k :: |s.info| <= k < |t.info| ==> t.info[k].refCount == 0
    requires forall r :: 0 <= r < |s.readers| ==>
      t.readers[r].Counted() == s.readers[r].Counted() && t.readers[r].client == s.readers[r].client
    requires forall r :: |s.readers| <= r < |t.readers| ==> t.readers[r].pc.Spawned?
    ensures CountsRight(t)
  {
    forall k: nat | k < |t.info| ensures t.info[k].refCount == |CountedOn(t, k)| {
      assert CountedOn(t, k) == CountedOn(s, k);
      if k >= |s.info| { assert CountedOn(s, k) == {}; }
    }
  }

  /** Replacing one reader moves at most that reader in or out of a client's count. */
  lemma CountedMoves(rs: seq<Reader>, r: nat, reader: Reader, k: nat)
    requires r < |rs|
    ensures |CountedIn(rs[r := reader], k)|
      == |CountedIn(rs, k)| + (if CountsFor(reader, k) then 1 else 0) - (if CountsFor(rs[r], k) then 1 else 0)
  {
    hide CountsFor;
    var before, after := CountedIn(rs, k), CountedIn(rs[r := reader], k);
    var rest := before - {r};
    assert after - {r} == rest;
    assert before == if CountsFor(rs[r], k) then rest + {r} else rest;
    assert after == if CountsFor(reader, k) then rest + {r} else rest;
  }

  lemma CountsUp(s: State, r: nat)
    requires Basic(s) && Enabled(s, Count(r))
    ensures CountsRight(Apply(s, Count(r)))
  {
    hide SlotsSafe, ReadersUnique, CountedIn;
    var t := Apply(s, Count(r));
    forall k: nat | k < |t.info| ensures t.info[k].refCount == |CountedOn(t, k)| {
      CountedMoves(s.readers, r, t.readers[r], k);
    }
  }

  lemma CountsDown(s: State, r: nat)
    requires Basic(s) && Enabled(s, Leave(r))
    ensures CountsRight(Apply(s, Leave(r)))
  {
    hide SlotsSafe, ReadersUnique, CountedIn;
    var t := Apply(s, Leave(r));
    forall k: nat | k < |t.info| ensures t.info[k].refCount == |CountedOn(t, k)| {
      CountedMoves(s.readers, r, t.readers[r], k);
    }
  }

  lemma CountsKept(s: State, step: Step)
    requires Basic(s) && Enabled(s, step)
    ensures CountsRight(Apply(s, step))
  {
    if step.Count? {
      CountsUp(s, step.r);
    } else if step.Leave? {
      CountsDown(s, step.r);
    } else {
      CountsKeptElsewhere(s, step);
    }
  }

  lemma CountsKeptElsewhere(s: State, step: Step)
    requires Basic(s) && Enabled(s, step) && !step.Count? && !step.Leave?
    ensures CountsRight(Apply(s, step))
  {
    hide SlotsSafe, ReadersUnique, CountsRight, Delta, UrisOf;
    CountsFrame(s, Apply(s, step));
  }

  // ----- Every run -----

  lemma BasicStep(s: State, step: Step)
    requires Basic(s) && Enabled(s, step)
    ensures Basic(Apply(s, step))
  {
    RangeKept(s, step);
    ListKept(s, step);
    SlotsKept(s, step);
    ReadersKept(s, step);
    CountsKept(s, step);
  }

  /** The invariant holds at every state of every run, whatever the schedule. */
  lemma {:induction false} BasicAlways(states: seq<State>, steps: seq<Step>, i: nat)
    requires IsRun(states, steps) && i < |states|
    ensures Basic(states[i])
    decreases i
  {
    if i == 0 {
      assert forall k: nat :: CountedOn(states[0], k) == {};
    } else {
      BasicAlways(states, steps, i - 1);
      assert Next(states[i - 1], steps[i - 1], states[i]);
      BasicStep(states[i - 1], steps[i - 1]);
    }
  }
}
