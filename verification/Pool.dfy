/** `fetchClient` of plumbing/pool.go: a walk over the slots of a doppler that starts at a random one. */
module Pool {
  import opened Wrappers

  const MAX_INT: int := 0x7FFF_FFFF_FFFF_FFFF

  datatype Fetched = Client(client: nat) | NoClient | Panic

  /** Go's `(i + seed) % size`: 64-bit addition wraps, and the remainder takes the dividend's sign. */
  function Index(i: nat, seed: nat, size: nat): int
    requires size > 0
  {
    if i + seed <= MAX_INT then (i + seed) % size else -((2 * (MAX_INT + 1) - (i + seed)) % size)
  }

  lemma Unique(a: int, q: int, r: int, n: int)
    requires n > 0 && 0 <= r < n && a == q * n + r
    ensures a % n == r
  {
    var p, s := a / n, a % n;
    assert (p - q) * n == r - s;
    if p - q >= 1 {
      Times(p - q, n);
    } else if p - q <= -1 {
      assert (q - p) * n == s - r;
      Times(q - p, n);
    }
  }

  lemma Times(k: int, n: int)
    requires k >= 1 && n > 0
    ensures k * n >= n
  {
  }

  /** From any start, `size` consecutive places meet every slot. */
  lemma MeetsAll(seed: nat, size: nat, j: nat) returns (i: nat)
    requires j < size
    ensures i < size && (i + seed) % size == j
  {
    var q, r := seed / size, seed % size;
    assert seed == q * size + r;
    if j >= r {
      i := j - r;
      Unique(i + seed, q, j, size);
    } else {
      i := j - r + size;
      assert (q + 1) * size == q * size + size;
      Unique(i + seed, q + 1, j, size);
    }
  }

  /** A place is a slot exactly if the sum did not wrap or happens to be a multiple of the size. */
  lemma IndexInRange(i: nat, seed: nat, size: nat)
    requires i < size <= MAX_INT && seed <= MAX_INT
    ensures 0 <= Index(i, seed, size) < size <==>
      i + seed <= MAX_INT || (2 * (MAX_INT + 1) - (i + seed)) % size == 0
  {
  }

  /** The first `i` places are slots, and empty. */
  ghost predicate EmptyBefore(slots: seq<Option<nat>>, seed: nat, i: nat)
    requires i <= |slots|
  {
    forall k: nat :: k < i ==> 0 <= Index(k, seed, |slots|) < |slots| && slots[Index(k, seed, |slots|)].None?
  }

  /** The walk meets a place that is no slot before it meets a client. */
  ghost predicate Panics(slots: seq<Option<nat>>, seed: nat) {
    exists i: nat :: i < |slots| && Index(i, seed, |slots|) < 0 && EmptyBefore(slots, seed, i)
  }

  /** The client at a place before which all is empty: the walk returns no other. */
  ghost predicate Finds(slots: seq<Option<nat>>, seed: nat, client: nat) {
    exists i: nat ::
      && i < |slots| && EmptyBefore(slots, seed, i)
      && 0 <= Index(i, seed, |slots|) < |slots| && slots[Index(i, seed, |slots|)] == Some(client)
  }

  method FetchClient(slots: seq<Option<nat>>, seed: nat) returns (r: Fetched)
    requires |slots| <= MAX_INT && seed <= MAX_INT
    ensures r.Panic? <==> Panics(slots, seed)
    ensures forall c :: r == Client(c) <==> Finds(slots, seed, c)
    ensures r.NoClient? <==> EmptyBefore(slots, seed, |slots|)
    ensures seed + |slots| <= MAX_INT + 1 ==> !r.Panic?
    ensures seed + |slots| <= MAX_INT + 1 ==> (r.NoClient? <==> forall j :: 0 <= j < |slots| ==> slots[j].None?)
  {
    var i := 0;
    while i < |slots|
      invariant 0 <= i <= |slots|
      invariant EmptyBefore(slots, seed, i)
    {
      var idx := Index(i, seed, |slots|);
      IndexInRange(i, seed, |slots|);
      if idx < 0 || idx >= |slots| {
        return Panic;
      }
      if slots[idx].Some? {
        return Client(slots[idx].value);
      }
      i := i + 1;
    }
    if seed + |slots| <= MAX_INT + 1 {
      forall j: nat | j < |slots| ensures slots[j].None? {
        NothingMissed(slots, seed, j);
      }
    }
    return NoClient;
  }

  lemma NothingMissed(slots: seq<Option<nat>>, seed: nat, j: nat)
    requires seed + |slots| <= MAX_INT + 1 && j < |slots|
    requires forall k: nat :: k < |slots| ==> 0 <= Index(k, seed, |slots|) < |slots| && slots[Index(k, seed, |slots|)].None?
    ensures slots[j].None?
  {
    var i := MeetsAll(seed, |slots|, j);
    assert Index(i, seed, |slots|) == j;
  }

  /** Such a call exists: three empty slots and the greatest seed, whose second place wraps to -2. */
  lemma SeedOverflows()
    ensures Panics([None, None, None], MAX_INT)
  {
    var slots: seq<Option<nat>> := [None, None, None];
    assert Index(0, MAX_INT, 3) == 1 && Index(1, MAX_INT, 3) == -2;
    assert EmptyBefore(slots, MAX_INT, 1);
    assert Index(1, MAX_INT, |slots|) < 0;
  }

  /** And the panic can hide a client: the last slot holds one, and the walk does not get there. */
  lemma ClientMissed(client: nat)
    ensures Panics([None, None, Some(client)], MAX_INT)
  {
    var slots := [None, None, Some(client)];
    assert Index(0, MAX_INT, 3) == 1 && Index(1, MAX_INT, 3) == -2;
    assert EmptyBefore(slots, MAX_INT, 1);
    assert Index(1, MAX_INT, |slots|) < 0;
  }
}
