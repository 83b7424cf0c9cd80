/** Link keys, and a list of links read as a map from unordered pairs. */
module Links {
  import opened Text
  import opened World

  /** chaosLinkKey. */
  function LinkKey(a: string, b: string): string {
    if StrLess(b, a) then b + "|" + a else a + "|" + b
  }

  function KeyOfLink(l: Link): string {
    LinkKey(l.a, l.b)
  }

  lemma LinkKeySymmetric(a: string, b: string)
    ensures LinkKey(a, b) == LinkKey(b, a)
  {
    StrLessTotal(a, b);
  }

  /** A pair of names without a bar shares its key with no other unordered pair. */
  lemma LinkKeyInjective(a: string, b: string, c: string, d: string)
    requires '|' !in c && '|' !in d
    ensures LinkKey(a, b) == LinkKey(c, d) <==> (a == c && b == d) || (a == d && b == c)
  {
    LinkKeySymmetric(a, b);
    var x, y := if StrLess(b, a) then b else a, if StrLess(b, a) then a else b;
    var u, v := if StrLess(d, c) then d else c, if StrLess(d, c) then c else d;
    if x + "|" + y == u + "|" + v {
      OneBar(x, y, u, v);
    }
  }

  lemma OneBar(x: string, y: string, u: string, v: string)
    requires x + "|" + y == u + "|" + v && '|' !in u && '|' !in v
    ensures x == u && y == v
  {
    var k := u + "|" + v;
    assert k[|x|] == (x + "|" + y)[|x|] == '|';
    forall i | 0 <= i < |u| ensures k[i] != '|' { assert k[i] == u[i]; }
    forall i | |u| < i < |k| ensures k[i] != '|' { assert k[i] == v[i - |u| - 1]; }
    assert x == k[..|x|] == u && y == k[|x| + 1..] == v;
  }

  predicate SamePair(a: string, b: string, c: string, d: string) {
    (a == c && b == d) || (a == d && b == c)
  }

  /** The name that comes first in the key. */
  function First(a: string, b: string): string {
    if StrLess(b, a) then b else a
  }

  /** A bar of the key at which the two sides are in byte order. */
  predicate OrderedSplit(k: string, i: nat) {
    i < |k| && k[i] == '|' && !StrLess(k[i + 1..], k[..i])
  }

  /** A pair shares its key with another unordered pair exactly when the key has a second bar whose
      two sides are in byte order. */
  lemma LinkKeySharedIff(a: string, b: string)
    ensures (exists c, d :: LinkKey(c, d) == LinkKey(a, b) && !SamePair(a, b, c, d))
       <==> exists i: nat :: OrderedSplit(LinkKey(a, b), i) && i != |First(a, b)|
  {
    if exists c, d :: LinkKey(c, d) == LinkKey(a, b) && !SamePair(a, b, c, d) {
      var c, d :| LinkKey(c, d) == LinkKey(a, b) && !SamePair(a, b, c, d);
      OtherSplit(a, b, c, d);
    } else {
      forall i: nat | OrderedSplit(LinkKey(a, b), i) ensures i == |First(a, b)| {
        NoOtherPair(a, b, i);
      }
    }
  }

  lemma NoOtherPair(a: string, b: string, i: nat)
    requires OrderedSplit(LinkKey(a, b), i) && forall c, d :: LinkKey(c, d) == LinkKey(a, b) ==> SamePair(a, b, c, d)
    ensures i == |First(a, b)|
  {
    if i != |First(a, b)| {
      OtherPair(a, b, i);
    }
  }

  lemma OtherSplit(a: string, b: string, c: string, d: string)
    requires LinkKey(c, d) == LinkKey(a, b) && !SamePair(a, b, c, d)
    ensures OrderedSplit(LinkKey(a, b), |First(c, d)|) && |First(c, d)| != |First(a, b)|
  {
    KeySplit(c, d);
    KeySplit(a, b);
  }

  /** The key splits at the end of its first name, in byte order, into the two names. */
  lemma KeySplit(a: string, b: string)
    ensures var k, i := LinkKey(a, b), |First(a, b)|;
            && OrderedSplit(k, i) && k[..i] == First(a, b)
            && SamePair(a, b, k[..i], k[i + 1..])
  {
    StrLessTotal(a, b);
    var x, y := First(a, b), if StrLess(b, a) then a else b;
    var k := x + "|" + y;
    assert k[..|x|] == x && k[|x|] == '|' && k[|x| + 1..] == y;
  }

  lemma OtherPair(a: string, b: string, i: nat)
    requires OrderedSplit(LinkKey(a, b), i) && i != |First(a, b)|
    ensures var k := LinkKey(a, b); LinkKey(k[..i], k[i + 1..]) == k && !SamePair(a, b, k[..i], k[i + 1..])
  {
    var k := LinkKey(a, b);
    var c, d := k[..i], k[i + 1..];
    assert c + "|" + d == k;
    KeySplit(a, b);
    StrLessTotal(c, d);
  }

  /** Two pairs that do: x with y|z, and x|y with z. */
  lemma LinkKeyCollision()
    ensures LinkKey("x", "y|z") == LinkKey("x|y", "z") && !SamePair("x", "y|z", "x|y", "z")
  {
    assert !StrLess("y|z", "x") && !StrLess("z", "x|y");
  }

  // ---- lists as maps ----

  predicate UniqueKeys(links: seq<Link>) {
    forall i, j | 0 <= i < j < |links| :: KeyOfLink(links[i]) != KeyOfLink(links[j])
  }

  function AsMap(links: seq<Link>): map<string, Link> {
    if links == [] then map[]
    else AsMap(links[..|links| - 1])[KeyOfLink(links[|links| - 1]) := links[|links| - 1]]
  }

  /** The list after chaosDegradeLink put l in it: in place of the first entry with its key,
      or at the end. */
  function Upsert(links: seq<Link>, l: Link): seq<Link> {
    if links == [] then [l]
    else if KeyOfLink(links[0]) == KeyOfLink(l) then [l] + links[1..]
    else [links[0]] + Upsert(links[1..], l)
  }

  lemma {:induction false} MapEntries(links: seq<Link>, k: string)
    requires UniqueKeys(links)
    ensures k in AsMap(links) <==> exists l :: l in links && KeyOfLink(l) == k
    ensures k in AsMap(links) ==> AsMap(links)[k] in links && KeyOfLink(AsMap(links)[k]) == k
  {
    if links != [] {
      var init, last := links[..|links| - 1], links[|links| - 1];
      MapEntries(init, k);
      assert links == init + [last];
    }
  }

  lemma EntryOfKey(links: seq<Link>, l: Link)
    requires UniqueKeys(links) && l in links
    ensures KeyOfLink(l) in AsMap(links) && AsMap(links)[KeyOfLink(l)] == l
  {
    MapEntries(links, KeyOfLink(l));
  }

  lemma {:induction false} UpsertEntries(links: seq<Link>, l: Link)
    requires UniqueKeys(links)
    ensures UniqueKeys(Upsert(links, l))
    ensures forall x :: x in Upsert(links, l) <==> x == l || (x in links && KeyOfLink(x) != KeyOfLink(l))
  {
    if links != [] {
      var u := Upsert(links[1..], l);
      UpsertEntries(links[1..], l);
      assert links == [links[0]] + links[1..];
      if KeyOfLink(links[0]) == KeyOfLink(l) {
        assert Upsert(links, l) == [l] + links[1..];
      } else {
        assert Upsert(links, l) == [links[0]] + u;
        UniqueCons(links[0], u);
      }
    }
  }

  lemma UniqueCons(l: Link, more: seq<Link>)
    requires UniqueKeys(more) && forall x | x in more :: KeyOfLink(x) != KeyOfLink(l)
    ensures UniqueKeys([l] + more)
  {
    assert forall j | 0 <= j < |more| :: more[j] in more;
  }

  /** Upserting is a map update: one entry changes and every other survives. */
  lemma UpsertIsUpdate(links: seq<Link>, l: Link)
    requires UniqueKeys(links)
    ensures UniqueKeys(Upsert(links, l)) && AsMap(Upsert(links, l)) == AsMap(links)[KeyOfLink(l) := l]
  {
    UpsertEntries(links, l);
    var m, n := AsMap(Upsert(links, l)), AsMap(links)[KeyOfLink(l) := l];
    forall k ensures k in m <==> k in n
      ensures k in m ==> m[k] == n[k]
    {
      MapEntries(Upsert(links, l), k);
      MapEntries(links, k);
      if k == KeyOfLink(l) {
        EntryOfKey(Upsert(links, l), l);
      } else if k in AsMap(links) {
        EntryOfKey(Upsert(links, l), AsMap(links)[k]);
      }
    }
  }

  /** Distinct keys mean distinct pairs. */
  lemma KeysUniquePairs(links: seq<Link>)
    requires UniqueKeys(links)
    ensures UniquePairs(links)
  {
    forall i, j | 0 <= i < j < |links| ensures !links[j].Joins(links[i].a, links[i].b) {
      LinkKeySymmetric(links[i].a, links[i].b);
    }
  }

  /** The profile the list gives a pair of names is the one its map holds under their key. */
  lemma ProfileOfKey(links: seq<Link>, x: string, y: string)
    requires UniqueKeys(links) && '|' !in x && '|' !in y
    ensures var k := LinkKey(x, y);
            Profile(links, x, y) == if k in AsMap(links) then Some(AsMap(links)[k].params) else None
  {
    var k := LinkKey(x, y);
    KeysUniquePairs(links);
    MapEntries(links, k);
    ProfileListed(links, x, y);
    if k in AsMap(links) {
      var l := AsMap(links)[k];
      LinkKeyInjective(l.a, l.b, x, y);
      ProfileUnique(links, x, y, l);
    } else if Profile(links, x, y).Some? {
      var l :| l in links && l.Joins(x, y) && Profile(links, x, y).value == l.params;
      LinkKeyInjective(l.a, l.b, x, y);
    }
  }
}
