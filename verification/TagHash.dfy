/**
  `hashTags` of metron's two counter aggregators: a digest of a tag map that must not depend on the order
  in which the map is walked and must tell different maps apart.
 */
module TagHash {
  datatype Element = Element(k: string, v: string)

  // ----- Go's order on strings -----

  predicate Less(a: string, b: string) {
    if b == "" then false
    else if a == "" then true
    else a[0] < b[0] || (a[0] == b[0] && Less(a[1..], b[1..]))
  }

  lemma {:induction false} LessTrans(a: string, b: string, c: string)
    requires Less(a, b) && Less(b, c)
    ensures Less(a, c)
  {
    if a != "" && a[0] == b[0] && b[0] == c[0] {
      LessTrans(a[1..], b[1..], c[1..]);
    }
  }

  lemma {:induction false} LessTotal(a: string, b: string)
    ensures a == b || Less(a, b) || Less(b, a)
    ensures !(Less(a, b) && Less(b, a)) && !Less(a, a)
  {
    if a != "" && b != "" {
      LessTotal(a[1..], b[1..]);
      if a[0] == b[0] && a[1..] == b[1..] {
        assert a == [a[0]] + a[1..] && b == [b[0]] + b[1..];
      }
    }
    if a != "" {
      LessTotal(a[1..], a[1..]);
    }
  }

  // ----- Sorted listings of a map -----

  ghost predicate Sorted(es: seq<Element>) {
    forall i, j :: 0 <= i < j < |es| ==> Less(es[i].k, es[j].k)
  }

  /** The elements are the map's entries, each once, by key. */
  ghost predicate Lists(es: seq<Element>, tags: map<string, string>) {
    && Sorted(es)
    && (forall i :: 0 <= i < |es| ==> es[i].k in tags && tags[es[i].k] == es[i].v)
    && (forall k :: k in tags ==> Element(k, tags[k]) in es)
  }

  /** Whatever order the entries were collected in, sorting them ends in one and the same list. */
  lemma {:induction false} ListingUnique(a: seq<Element>, b: seq<Element>, tags: map<string, string>)
    requires Lists(a, tags) && Lists(b, tags)
    ensures a == b
  {
    ListingEmpty(a, tags);
    ListingEmpty(b, tags);
    if a != [] {
      assert Element(a[0].k, tags[a[0].k]) in b;
      assert Element(b[0].k, tags[b[0].k]) in a;
      HeadsAgree(a, b);
      TailLists(a, tags);
      TailLists(b, tags);
      ListingUnique(a[1..], b[1..], tags - {a[0].k});
      assert a == [a[0]] + a[1..] && b == [b[0]] + b[1..];
    }
  }

  lemma ListingEmpty(es: seq<Element>, tags: map<string, string>)
    requires Lists(es, tags)
    ensures es == [] <==> tags == map[]
  {
    if es != [] {
      assert es[0].k in tags;
    } else {
      assert tags.Keys == {};
    }
  }

  lemma HeadsAgree(a: seq<Element>, b: seq<Element>)
    requires Sorted(a) && Sorted(b) && a != [] && b != [] && a[0] in b && b[0] in a
    ensures a[0] == b[0]
  {
    var i :| 0 <= i < |b| && b[i] == a[0];
    var j :| 0 <= j < |a| && a[j] == b[0];
    if i > 0 && j > 0 {
      LessTotal(a[0].k, b[0].k);
    }
  }

  lemma TailLists(es: seq<Element>, tags: map<string, string>)
    requires Lists(es, tags) && es != []
    ensures Lists(es[1..], tags - {es[0].k})
  {
    forall i | 0 <= i < |es[1..]| ensures es[1..][i].k != es[0].k {
      assert Less(es[0].k, es[i + 1].k);
      LessTotal(es[0].k, es[i + 1].k);
    }
    forall k | k in tags && k != es[0].k ensures Element(k, tags[k]) in es[1..] {
      var i :| 0 <= i < |es| && es[i] == Element(k, tags[k]);
      assert es[1..][i - 1] == es[i];
    }
  }

  // ----- The hash -----

  function Render(es: seq<Element>, digest: string -> string): string {
    if es == [] then "" else digest(es[0].k) + digest(es[0].v) + Render(es[1..], digest)
  }

  function Strings(es: seq<Element>): set<string> {
    (set e | e in es :: e.k) + (set e | e in es :: e.v)
  }

  /** The digest has a fixed width and no collision among the strings in question. */
  ghost predicate Distinguishes(digest: string -> string, width: nat, strings: set<string>) {
    && width > 0
    && (forall x :: x in strings ==> |digest(x)| == width)
    && (forall x, y :: x in strings && y in strings && digest(x) == digest(y) ==> x == y)
  }

  lemma {:induction false} RenderInjective(a: seq<Element>, b: seq<Element>, digest: string -> string, width: nat)
    requires Distinguishes(digest, width, Strings(a) + Strings(b))
    requires Render(a, digest) == Render(b, digest)
    ensures a == b
  {
    hide Render, Distinguishes, Strings;
    if a == [] || b == [] {
      RenderEmpty(a, digest, width, Strings(a) + Strings(b));
      RenderEmpty(b, digest, width, Strings(a) + Strings(b));
    } else {
      MembersOf(a);
      MembersOf(b);
      RenderParts(a, digest, width, Strings(a) + Strings(b));
      RenderParts(b, digest, width, Strings(a) + Strings(b));
      Fewer(digest, width, Strings(a) + Strings(b), Strings(a[1..]) + Strings(b[1..]));
      RenderInjective(a[1..], b[1..], digest, width);
      assert a[0].k == b[0].k && a[0].v == b[0].v by {
        Told(digest, width, Strings(a) + Strings(b), a[0].k, b[0].k);
        Told(digest, width, Strings(a) + Strings(b), a[0].v, b[0].v);
      }
      assert a == [a[0]] + a[1..] && b == [b[0]] + b[1..];
    }
  }

  lemma RenderEmpty(es: seq<Element>, digest: string -> string, width: nat, strings: set<string>)
    requires Distinguishes(digest, width, strings) && Strings(es) <= strings
    ensures Render(es, digest) == "" <==> es == []
  {
    if es != [] {
      MembersOf(es);
      assert |digest(es[0].k)| == width;
    }
  }

  lemma RenderParts(es: seq<Element>, digest: string -> string, width: nat, strings: set<string>)
    requires Distinguishes(digest, width, strings) && es != [] && Strings(es) <= strings
    ensures
      var r := Render(es, digest);
      && |r| >= 2 * width && r[..width] == digest(es[0].k) && r[width..2 * width] == digest(es[0].v)
      && r[2 * width..] == Render(es[1..], digest)
  {
    MembersOf(es);
    var k, v, rest := digest(es[0].k), digest(es[0].v), Render(es[1..], digest);
    assert |k| == width && |v| == width;
    assert Render(es, digest) == k + v + rest;
  }

  lemma Told(digest: string -> string, width: nat, strings: set<string>, x: string, y: string)
    requires Distinguishes(digest, width, strings) && x in strings && y in strings && digest(x) == digest(y)
    ensures x == y
  {
  }

  lemma MembersOf(es: seq<Element>)
    requires es != []
    ensures es[0].k in Strings(es) && es[0].v in Strings(es) && Strings(es[1..]) <= Strings(es)
  {
    assert es[0] in es;
    forall e | e in es[1..] ensures e in es {
    }
  }

  lemma {:induction false} ListingExists(tags: map<string, string>)
    ensures exists es :: Lists(es, tags)
    decreases |tags|
  {
    if tags == map[] {
      NothingListed();
    } else {
      var k :| k in tags;
      ListingExists(tags - {k});
      var es :| Lists(es, tags - {k});
      InsertLists(es, Insert(es, Element(k, tags[k])), tags - {k}, tags, k);
    }
  }

  /** What `hashTags` returns. */
  ghost function HashOf(tags: map<string, string>, digest: string -> string): string {
    ListingExists(tags);
    var es :| Lists(es, tags);
    Render(es, digest)
  }

  function TagStrings(tags: map<string, string>): set<string> {
    tags.Keys + tags.Values
  }

  /** Equal hashes mean exactly equal tag maps. */
  lemma HashIdentifies(a: map<string, string>, b: map<string, string>, digest: string -> string, width: nat)
    requires Distinguishes(digest, width, TagStrings(a) + TagStrings(b))
    ensures HashOf(a, digest) == HashOf(b, digest) <==> a == b
  {
    hide Lists, Render, Distinguishes;
    var h, g := HashOf(a, digest), HashOf(b, digest);
    var es :| Lists(es, a) && h == Render(es, digest);
    var fs :| Lists(fs, b) && g == Render(fs, digest);
    if h == g {
      ListedStrings(es, a);
      ListedStrings(fs, b);
      Fewer(digest, width, TagStrings(a) + TagStrings(b), Strings(es) + Strings(fs));
      RenderInjective(es, fs, digest, width);
      SameMap(es, a, b);
    }
  }

  lemma Fewer(digest: string -> string, width: nat, all: set<string>, some: set<string>)
    requires Distinguishes(digest, width, all) && some <= all
    ensures Distinguishes(digest, width, some)
  {
  }

  lemma ListedStrings(es: seq<Element>, tags: map<string, string>)
    requires Lists(es, tags)
    ensures Strings(es) <= TagStrings(tags)
  {
    forall e | e in es ensures e.k in TagStrings(tags) && e.v in TagStrings(tags) {
      assert e.k in tags && tags[e.k] == e.v;
    }
  }

  lemma SameMap(es: seq<Element>, a: map<string, string>, b: map<string, string>)
    requires Lists(es, a) && Lists(es, b)
    ensures a == b
  {
    forall k | k in a ensures k in b && a[k] == b[k] {
      assert Element(k, a[k]) in es;
    }
    forall k | k in b ensures k in a {
      assert Element(k, b[k]) in es;
    }
  }

  // ----- The method -----

  /** Puts one more element in its place, as sorting does. */
  function Insert(es: seq<Element>, e: Element): seq<Element> {
    if es == [] || Less(e.k, es[0].k) then [e] + es else [es[0]] + Insert(es[1..], e)
  }

  lemma {:induction false} InsertMembers(es: seq<Element>, e: Element, x: Element)
    ensures x in Insert(es, e) <==> x in es || x == e
  {
    if es != [] && !Less(e.k, es[0].k) {
      InsertMembers(es[1..], e, x);
      assert es == [es[0]] + es[1..];
    }
  }

  lemma {:induction false} InsertSorts(es: seq<Element>, e: Element)
    requires Sorted(es) && forall i :: 0 <= i < |es| ==> es[i].k != e.k
    ensures Sorted(Insert(es, e))
  {
    if es != [] {
      LessTotal(e.k, es[0].k);
      if Less(e.k, es[0].k) {
        forall j | 0 < j < |es| ensures Less(e.k, es[j].k) {
          LessTrans(e.k, es[0].k, es[j].k);
        }
      } else {
        InsertSorts(es[1..], e);
        forall j | 0 <= j < |Insert(es[1..], e)| ensures Less(es[0].k, Insert(es[1..], e)[j].k) {
          InsertMembers(es[1..], e, Insert(es[1..], e)[j]);
        }
      }
    }
  }

  lemma InsertLists(es: seq<Element>, out: seq<Element>, tags: map<string, string>, more: map<string, string>, k: string)
    requires Lists(es, tags) && k !in tags && k in more && more - {k} == tags
    requires out == Insert(es, Element(k, more[k]))
    ensures Lists(out, more)
  {
    InsertSorts(es, Element(k, more[k]));
    forall x ensures x in out <==> x in es || x == Element(k, more[k]) {
      InsertMembers(es, Element(k, more[k]), x);
    }
    forall i | 0 <= i < |out| ensures out[i].k in more && more[out[i].k] == out[i].v {
      assert out[i] in out;
      if out[i] in es {
        assert out[i].k in tags;
      }
    }
    forall x | x in more ensures Element(x, more[x]) in out {
      if x != k {
        assert x in tags && tags[x] == more[x];
      }
    }
  }

  /** The map walked in any order, each entry sorted in. */
  method Collect(tags: map<string, string>) returns (elements: seq<Element>)
    ensures Lists(elements, tags)
  {
    hide Lists, Sorted;
    elements := [];
    var rest := tags.Keys;
    assert tags - rest == map[];
    NothingListed();
    while rest != {}
      invariant rest <= tags.Keys && Lists(elements, tags - rest)
      decreases rest
    {
      var k :| k in rest;
      ghost var less, more := tags - rest, tags - (rest - {k});
      assert more - {k} == less && k !in less && k in more;
      var longer := Insert(elements, Element(k, tags[k]));
      InsertLists(elements, longer, less, more, k);
      elements := longer;
      rest := rest - {k};
    }
    assert tags - rest == tags;
  }

  lemma NothingListed()
    ensures Lists([], map[])
  {
  }

  lemma HashOfListing(es: seq<Element>, tags: map<string, string>, digest: string -> string)
    requires Lists(es, tags)
    ensures HashOf(tags, digest) == Render(es, digest)
  {
    hide Lists, Render;
    ListingExists(tags);
    var fs :| Lists(fs, tags) && HashOf(tags, digest) == Render(fs, digest);
    ListingUnique(fs, es, tags);
  }

  method HashTags(tags: map<string, string>, digest: string -> string) returns (hash: string)
    ensures hash == HashOf(tags, digest)
  {
    hide Lists, HashOf;
    var elements := Collect(tags);
    HashOfListing(elements, tags, digest);
    hash := "";
    var i := 0;
    assert elements[0..] == elements;
    while i < |elements|
      invariant 0 <= i <= |elements| && Render(elements, digest) == hash + Render(elements[i..], digest)
    {
      RenderStep(elements, i, digest);
      hash := hash + digest(elements[i].k) + digest(elements[i].v);
      i := i + 1;
    }
    assert elements[i..] == [];
  }

  lemma RenderStep(es: seq<Element>, i: nat, digest: string -> string)
    requires i < |es|
    ensures Render(es[i..], digest) == digest(es[i].k) + digest(es[i].v) + Render(es[i + 1..], digest)
  {
    assert es[i..][1..] == es[i + 1..];
  }
}
