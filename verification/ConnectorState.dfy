/**
  State and steps of the doppler connector (plumbing/grpc_connector.go) as a concurrent protocol.

  Goroutines are interleaved at their atomic operations: one step per lock region, atomic load,
  compare-and-swap or atomic add.  Objects that the source allocates (consumer states, client
  infos, reader goroutines) are numbered in allocation order, so the sequences in `State` only
  ever grow and an index names an object for the whole run.
 */
module ConnectorState {
  import opened Wrappers

  datatype Client = Client(uri: string, disconnect: bool, refCount: int)

  /** Where a `Subscribe` call stands: scanning the slots, about to CAS, or past it. */
  datatype SubscribePc =
    | Scanning(slot: nat)
    | Loaded(slot: nat, seen: Option<nat>)
    | Claimed
    | Finished
    | Refused

  datatype Consumer = Consumer(dead: bool, dopplers: set<string>, pc: SubscribePc)

  /** Where a `consumeSubscription` goroutine stands. */
  datatype ReaderPc = Spawned | Added | Running(tried: bool) | Leaving | Exited | Rejected

  datatype Reader = Reader(consumer: nat, client: nat, pc: ReaderPc)
  {
    /** Holds its URI in the consumer's doppler set. */
    predicate Holds() { pc.Added? || pc.Running? || pc.Leaving? }

    /** Counted in the client's refCount. */
    predicate Counted() { pc.Running? || pc.Leaving? }

    /** Spawned but not yet counted. */
    predicate Pending() { pc.Spawned? || pc.Added? }

    predicate Unfinished() { Pending() || Counted() }
  }

  /** Progress of the one `handleFinderEvent` call that may hold the write lock. */
  datatype Finder =
    | Idle
    | Adding(todo: seq<string>, dead: seq<nat>)
    | Scanner(client: nat, slot: nat, todo: seq<string>, dead: seq<nat>)
  {
    function Dead(): seq<nat> { if Idle? then [] else dead }

    function Todo(): seq<string> { if Idle? then [] else todo }
  }

  datatype State = State(
    slots: seq<Option<nat>>,
    consumers: seq<Consumer>,
    clients: seq<nat>,
    info: seq<Client>,
    pool: set<string>,
    readers: seq<Reader>,
    finder: Finder,
    latest: seq<string>)

  function Init(slotCount: nat): State {
    State(seq(slotCount, _ => None), [], [], [], {}, [], Idle, [])
  }

  // ----- The difference between a finder event and the client list -----

  /** Position of the first `u`, or the length when there is none. */
  function FirstAt(names: seq<string>, u: string): (i: nat)
    ensures i <= |names|
    ensures i < |names| ==> names[i] == u
    ensures u !in names[..i]
  {
    if names == [] then 0
    else if names[0] == u then 0
    else
      var i := FirstAt(names[1..], u);
      assert names[..i + 1] == [names[0]] + names[1..][..i];
      i + 1
  }

  function Without<T>(s: seq<T>, i: nat): seq<T>
    requires i < |s|
  {
    s[..i] + s[i + 1..]
  }

  datatype DeltaResult<T> = DeltaResult(add: seq<string>, dead: seq<T>)

  /** What `delta` computes: each event URI strikes the first remaining client of that name, else is new. */
  function Delta<T>(remaining: seq<T>, names: seq<string>, uris: seq<string>): DeltaResult<T>
    requires |remaining| == |names|
    decreases |uris|
  {
    if uris == [] then DeltaResult([], remaining)
    else
      var i := FirstAt(names, uris[0]);
      if i < |names| then
        Delta(Without(remaining, i), Without(names, i), uris[1..])
      else
        var d := Delta(remaining, names, uris[1..]);
        DeltaResult([uris[0]] + d.add, d.dead)
  }

  function Remove(s: seq<nat>, x: nat): (r: seq<nat>)
    ensures forall y :: y in r <==> y in s && y != x
  {
    if s == [] then []
    else if s[0] == x then Remove(s[1..], x)
    else [s[0]] + Remove(s[1..], x)
  }

  // ----- Steps -----

  datatype Step =
    | NewConsumer                    // Subscribe entered
    | Load(c: nat)                   // addConsumerState: load one slot
    | Cas(c: nat)                    // addConsumerState: compare-and-swap
    | Refuse(c: nat)                 // addConsumerState: no slot left
    | Connect(c: nat)                // Subscribe: spawn a reader per client under the read lock
    | Kill(c: nat)                   // the consumer's context is done
    | Start(r: nat)                  // reader: tryAddDoppler
    | Count(r: nat)                  // reader: refCount + 1
    | Loop(r: nat, sawDead: bool)    // reader: retry loop; `dead` was loaded before `disconnect` is read
    | Leave(r: nat)                  // reader: deferred clean-up under the write lock
    | FinderBegin(uris: seq<string>) // handleFinderEvent: take the write lock, delta
    | FinderAdd                      // register and append one new doppler
    | FinderScan                     // visit one consumer slot
    | FinderScanned                  // all slots visited
    | FinderKill                     // disable one missing doppler
    | FinderEnd                      // release the lock
  {
    predicate OfFinder() {
      FinderBegin? || FinderAdd? || FinderScan? || FinderScanned? || FinderKill? || FinderEnd?
    }

    predicate OfReader() { Start? || Count? || Loop? || Leave? }

    predicate OfSubscriber() { !OfFinder() && !OfReader() }
  }

  function UrisOf(s: State): (names: seq<string>)
    requires Below(s.clients, |s.info|)
    ensures |names| == |s.clients|
    ensures forall i :: 0 <= i < |names| ==> names[i] == s.info[s.clients[i]].uri
  {
    seq(|s.clients|, i requires 0 <= i < |s.clients| => s.info[s.clients[i]].uri)
  }

  predicate Below(ids: seq<nat>, n: nat) {
    forall i :: 0 <= i < |ids| ==> ids[i] < n
  }

  /** All numbers stored in the state name existing objects. */
  predicate InRange(s: State) {
    && Below(s.clients, |s.info|)
    && (forall r :: 0 <= r < |s.readers| ==> s.readers[r].consumer < |s.consumers| && s.readers[r].client < |s.info|)
    && (forall i :: 0 <= i < |s.slots| && s.slots[i].Some? ==> s.slots[i].value < |s.consumers|)
    && Below(s.finder.Dead(), |s.info|)
    && (s.finder.Scanner? ==> s.finder.client < |s.info| && s.finder.slot <= |s.slots|)
  }

  predicate SlotFree(s: State, i: nat)
    requires InRange(s) && i < |s.slots|
  {
    s.slots[i].None? || s.consumers[s.slots[i].value].dead
  }

  predicate Enabled(s: State, step: Step)
    requires InRange(s)
  {
    match step
    case NewConsumer => true
    case Load(c) => c < |s.consumers| && s.consumers[c].pc.Scanning? && s.consumers[c].pc.slot < |s.slots|
    case Cas(c) => c < |s.consumers| && s.consumers[c].pc.Loaded? && s.consumers[c].pc.slot < |s.slots|
    case Refuse(c) => c < |s.consumers| && s.consumers[c].pc == Scanning(|s.slots|)
    case Connect(c) => c < |s.consumers| && s.consumers[c].pc.Claimed? && s.finder.Idle?
    case Kill(c) => c < |s.consumers|
    case Start(r) => r < |s.readers| && s.readers[r].pc.Spawned?
    case Count(r) => r < |s.readers| && s.readers[r].pc.Added?
    case Loop(r, sawDead) =>
      && r < |s.readers| && s.readers[r].pc.Running? && s.finder.Idle?
      && (sawDead ==> s.consumers[s.readers[r].consumer].dead)
    case Leave(r) => r < |s.readers| && s.readers[r].pc.Leaving? && s.finder.Idle?
    case FinderBegin(_) => s.finder.Idle?
    case FinderAdd => s.finder.Adding? && s.finder.todo != []
    case FinderScan => s.finder.Scanner? && s.finder.slot < |s.slots|
    case FinderScanned => s.finder.Scanner? && s.finder.slot == |s.slots|
    case FinderKill => s.finder.Adding? && s.finder.todo == [] && s.finder.dead != []
    case FinderEnd => s.finder.Adding? && s.finder.todo == [] && s.finder.dead == []
  }

  function SetPc(s: State, c: nat, pc: SubscribePc): State
    requires c < |s.consumers|
  {
    s.(consumers := s.consumers[c := s.consumers[c].(pc := pc)])
  }

  function SetReader(s: State, r: nat, pc: ReaderPc): State
    requires r < |s.readers|
  {
    s.(readers := s.readers[r := s.readers[r].(pc := pc)])
  }

  function SetDopplers(s: State, c: nat, dopplers: set<string>): State
    requires c < |s.consumers|
  {
    s.(consumers := s.consumers[c := s.consumers[c].(dopplers := dopplers)])
  }

  function SetInfo(s: State, k: nat, client: Client): State
    requires k < |s.info|
  {
    s.(info := s.info[k := client])
  }

  /** `pool.Close` followed by `close`. */
  function CloseClient(s: State, k: nat): State
    requires k < |s.info|
  {
    s.(pool := s.pool - {s.info[k].uri}, clients := Remove(s.clients, k))
  }

  /** `subtractClient` clears the flag of every client the event mentions. */
  function Revived(s: State, dead: seq<nat>): seq<Client> {
    seq(|s.info|, k requires 0 <= k < |s.info| =>
      if k in s.clients && k !in dead then s.info[k].(disconnect := false) else s.info[k])
  }

  /** A load of `dead` that saw it unset may be stale by now; one that saw it set is not. */
  function LoopPc(s: State, r: nat, sawDead: bool): ReaderPc
    requires InRange(s) && r < |s.readers| && s.readers[r].pc.Running?
  {
    var rd := s.readers[r];
    if (rd.pc.tried && s.info[rd.client].disconnect) || sawDead then Leaving else Running(true)
  }

  function Apply(s: State, step: Step): State
    requires InRange(s) && Enabled(s, step)
  {
    match step
    case NewConsumer => s.(consumers := s.consumers + [Consumer(false, {}, Scanning(0))])
    case Load(c) =>
      var i := s.consumers[c].pc.slot;
      SetPc(s, c, if SlotFree(s, i) then Loaded(i, s.slots[i]) else Scanning(i + 1))
    case Cas(c) =>
      var Loaded(i, seen) := s.consumers[c].pc;
      if s.slots[i] == seen then SetPc(s, c, Claimed).(slots := s.slots[i := Some(c)])
      else SetPc(s, c, Scanning(i + 1))
    case Refuse(c) => SetPc(s, c, Refused)
    case Connect(c) =>
      var spawned := seq(|s.clients|, i requires 0 <= i < |s.clients| => Reader(c, s.clients[i], Spawned));
      SetPc(s, c, Finished).(readers := s.readers + spawned)
    case Kill(c) => s.(consumers := s.consumers[c := s.consumers[c].(dead := true)])
    case Start(r) =>
      var Reader(c, k, _) := s.readers[r];
      var uri := s.info[k].uri;
      if uri in s.consumers[c].dopplers then SetReader(s, r, Rejected)
      else SetDopplers(SetReader(s, r, Added), c, s.consumers[c].dopplers + {uri})
    case Count(r) =>
      var k := s.readers[r].client;
      SetInfo(SetReader(s, r, Running(false)), k, s.info[k].(refCount := s.info[k].refCount + 1))
    case Loop(r, sawDead) => SetReader(s, r, LoopPc(s, r, sawDead))
    case Leave(r) =>
      var Reader(c, k, _) := s.readers[r];
      var client := s.info[k].(refCount := s.info[k].refCount - 1);
      var s1 := SetInfo(SetReader(s, r, Exited), k, client);
      var s2 := if LeaveCloses(s, r) then CloseClient(s1, k) else s1;
      SetDopplers(s2, c, s.consumers[c].dopplers - {client.uri})
    case FinderBegin(uris) =>
      var d := Delta(s.clients, UrisOf(s), uris);
      s.(info := Revived(s, d.dead), finder := Adding(d.add, d.dead), latest := uris)
    case FinderAdd =>
      var uri := s.finder.todo[0];
      var k := |s.info|;
      s.(pool := s.pool + {uri}, info := s.info + [Client(uri, false, 0)], clients := s.clients + [k],
         finder := Scanner(k, 0, s.finder.todo[1..], s.finder.dead))
    case FinderScan =>
      var i := s.finder.slot;
      var readers := if SlotFree(s, i) then s.readers
                     else s.readers + [Reader(s.slots[i].value, s.finder.client, Spawned)];
      s.(readers := readers, finder := s.finder.(slot := i + 1))
    case FinderScanned => s.(finder := Adding(s.finder.todo, s.finder.dead))
    case FinderKill =>
      var k := s.finder.Dead()[0];
      var s1 := SetInfo(s, k, s.info[k].(disconnect := true)).(finder := Adding([], s.finder.dead[1..]));
      if s.info[k].refCount == 0 then CloseClient(s1, k) else s1
    case FinderEnd => s.(finder := Idle)
  }

  predicate LeaveCloses(s: State, r: nat)
    requires InRange(s) && r < |s.readers|
  {
    s.info[s.readers[r].client].refCount - 1 <= 0 && s.info[s.readers[r].client].disconnect
  }

  // ----- Runs -----

  ghost predicate Next(s: State, step: Step, t: State) {
    InRange(s) && Enabled(s, step) && t == Apply(s, step)
  }

  /** A run: a sequence of states, each obtained from the one before by an enabled step. */
  ghost predicate IsRun(states: seq<State>, steps: seq<Step>) {
    && |states| == |steps| + 1
    && (exists n: nat :: states[0] == Init(n))
    && (forall i :: 0 <= i < |steps| ==> Next(states[i], steps[i], states[i + 1]))
  }
}
