/** Dotted version numbers: the order the listings sort by, and what they keep. */
module Versions {
  import opened Text
  import opened Ordering

  // ---- strconv.Atoi, with its saturation ----

  const MAX_INT := 0x7fff_ffff_ffff_ffff
  const MAX_UINT := 0xffff_ffff_ffff_ffff

  /** The value strconv.Atoi returns for an unsigned text, its error being ignored: 0 for
      anything that is no number, the largest int once the digits overflow. n is the value of
      the digits read so far. */
  function AtoiFrom(s: string, n: nat): (v: nat)
    ensures v <= MAX_INT
  {
    if s == "" then (if n > MAX_INT then MAX_INT else n)
    else if !IsDigit(s[0]) then 0
    else if n >= MAX_UINT / 10 + 1 then MAX_INT
    else
      var m := 10 * n + DigitValue(s[0]);
      if m > MAX_UINT then MAX_INT else AtoiFrom(s[1..], m)
  }

  function Component(s0: string): nat {
    var s := TrimSpace(s0);
    if s == "" then 0 else AtoiFrom(s, 0)
  }

  // ---- versionLess ----

  function CutAtSuffix(s: string): string {
    var i, j := IndexOf(s, '-'), IndexOf(s, '+');
    s[..if i < j then i else j]
  }

  function Components(parts: seq<string>): (r: seq<nat>)
    ensures |r| == |parts|
    ensures forall i | 0 <= i < |r| :: r[i] == Component(parts[i])
  {
    seq(|parts|, i requires 0 <= i < |parts| => Component(parts[i]))
  }

  /** The numbers a version is compared by. */
  function Numbers(v: string): (r: seq<nat>)
    ensures r != []
  {
    Components(Split(CutAtSuffix(TrimPrefix(TrimSpace(v), "v")), '.'))
  }

  /** A missing component counts as 0. */
  function At(x: seq<nat>, i: nat): nat {
    if i < |x| then x[i] else 0
  }

  /** x and y agree before component k and x is smaller there. */
  predicate LessAt(x: seq<nat>, y: seq<nat>, k: nat) {
    At(x, k) < At(y, k) && forall i | 0 <= i < k :: At(x, i) == At(y, i)
  }

  ghost predicate NumbersLess(x: seq<nat>, y: seq<nat>) {
    exists k: nat :: LessAt(x, y, k)
  }

  ghost predicate Less(a: string, b: string) {
    NumbersLess(Numbers(a), Numbers(b))
  }

  /** versionLess. */
  method VersionLess(a: string, b: string) returns (r: bool)
    ensures r <==> Less(a, b)
  {
    r := CompareNumbers(Numbers(a), Numbers(b));
  }

  /** The loop of versionLess. */
  method CompareNumbers(av: seq<nat>, bv: seq<nat>) returns (r: bool)
    ensures r <==> NumbersLess(av, bv)
  {
    var i := 0;
    while i < |av| || i < |bv|
      invariant forall k | 0 <= k < i :: At(av, k) == At(bv, k)
      decreases |av| + |bv| - i
    {
      var x, y := At(av, i), At(bv, i);
      if x != y {
        LessDecided(av, bv, i);
        return x < y;
      }
      i := i + 1;
    }
    return false;
  }

  lemma LessDecided(x: seq<nat>, y: seq<nat>, k: nat)
    requires At(x, k) != At(y, k) && forall i | 0 <= i < k :: At(x, i) == At(y, i)
    ensures NumbersLess(x, y) <==> At(x, k) < At(y, k)
  {
    if At(x, k) < At(y, k) {
      assert LessAt(x, y, k);
    }
  }

  /** The numbers without the zeros they end in. */
  function StripZeros(x: seq<nat>): (r: seq<nat>)
    ensures |r| <= |x| && r == x[..|r|]
    ensures forall i | |r| <= i < |x| :: x[i] == 0
    ensures r != [] ==> r[|r| - 1] != 0
  {
    if x == [] || x[|x| - 1] != 0 then x else StripZeros(x[..|x| - 1])
  }

  /** Two versions are ordered neither way exactly when they are equal up to trailing zeros. */
  lemma TiesIff(a: string, b: string)
    ensures !Less(a, b) && !Less(b, a) <==> StripZeros(Numbers(a)) == StripZeros(Numbers(b))
  {
    var x, y := Numbers(a), Numbers(b);
    var u, v := StripZeros(x), StripZeros(y);
    if !Less(a, b) && !Less(b, a) {
      forall k: nat ensures At(x, k) == At(y, k) {
        AllEqual(x, y, k);
      }
      StripAgree(x, y);
      StripAgree(y, x);
      assert forall k | 0 <= k < |u| :: u[k] == At(x, k) && v[k] == At(y, k);
    } else {
      assert !(forall k: nat :: At(x, k) == At(y, k));
      var k: nat :| At(x, k) != At(y, k);
      StripKeeps(x, k);
      StripKeeps(y, k);
    }
  }

  lemma StripAgree(x: seq<nat>, y: seq<nat>)
    requires forall k: nat :: At(x, k) == At(y, k)
    ensures |StripZeros(x)| <= |StripZeros(y)|
  {
    var n := |StripZeros(x)|;
    if n > 0 {
      StripKeeps(y, n - 1);
      assert At(x, n - 1) == StripZeros(x)[n - 1];
    }
  }

  lemma StripKeeps(x: seq<nat>, k: nat)
    ensures At(x, k) == At(StripZeros(x), k)
  {
  }

  lemma {:induction false} AllEqual(x: seq<nat>, y: seq<nat>, k: nat)
    requires !NumbersLess(x, y) && !NumbersLess(y, x)
    ensures forall i | 0 <= i <= k :: At(x, i) == At(y, i)
  {
    if k > 0 {
      AllEqual(x, y, k - 1);
    }
    if At(x, k) != At(y, k) {
      LessDecided(x, y, k);
      LessDecided(y, x, k);
    }
  }

  /** versionLess is a strict weak order: irreflexive, transitive, and with transitive ties. */
  lemma StrictWeakOrder(a: string, b: string, c: string)
    ensures !Less(a, a)
    ensures Less(a, b) ==> !Less(b, a)
    ensures Less(a, b) && Less(b, c) ==> Less(a, c)
    ensures !Less(a, b) && !Less(b, c) ==> !Less(a, c)
  {
    var x, y, z := Numbers(a), Numbers(b), Numbers(c);
    if k: nat :| LessAt(x, y, k) {
      LessDecided(y, x, k);
      if m: nat :| LessAt(y, z, m) {
        assert LessAt(x, z, if k < m then k else m);
      }
    }
    if k: nat :| LessAt(x, z, k) {
      if !Less(a, b) && !Less(b, c) {
        NotBetween(x, y, z, k);
      }
    }
  }

  lemma {:induction false} AgreeBefore(x: seq<nat>, y: seq<nat>, z: seq<nat>, k: nat, i: nat)
    requires !NumbersLess(x, y) && !NumbersLess(y, z) && i <= k && forall j | 0 <= j < k :: At(x, j) == At(z, j)
    ensures forall j | 0 <= j < i :: At(x, j) == At(y, j)
  {
    if i > 0 {
      AgreeBefore(x, y, z, k, i - 1);
      if At(x, i - 1) != At(y, i - 1) {
        LessDecided(x, y, i - 1);
        LessDecided(y, z, i - 1);
      }
    }
  }

  lemma NotBetween(x: seq<nat>, y: seq<nat>, z: seq<nat>, k: nat)
    requires LessAt(x, z, k)
    ensures NumbersLess(x, y) || NumbersLess(y, z)
  {
    if !NumbersLess(x, y) && !NumbersLess(y, z) {
      AgreeBefore(x, y, z, k, k);
      LessDecided(x, z, k);
      if At(x, k) != At(y, k) {
        LessDecided(x, y, k);
      }
      if At(y, k) != At(z, k) {
        LessDecided(y, z, k);
      }
    }
  }

  lemma LessIsStrictWeak()
    ensures StrictWeak(Less)
  {
    forall a, b, c
      ensures !Less(a, a) && (Less(a, b) && Less(b, c) ==> Less(a, c)) && (!Less(a, b) && !Less(b, c) ==> !Less(a, c))
    {
      StrictWeakOrder(a, b, c);
    }
  }

  // ---- distinctVersions ----

  datatype Row = Row(version: string, os: string, arch: string)

  /** cleanVersion. */
  function CleanVersion(v: string, strip: bool): string {
    if strip then v[..IndexOf(v, '-')] else v
  }

  /** The row passes the filters and has a version. */
  predicate Kept(r: Row, strip: bool, osFilter: string, archFilter: string) {
    && (osFilter == "" || r.os == "" || r.os == osFilter)
    && (archFilter == "" || r.arch == "" || r.arch == archFilter)
    && CleanVersion(r.version, strip) != ""
  }

  /** distinctVersions: each cleaned version of a row that passes the filters, once, newest first. A
      row passes a filter when there is none, when it names nothing to filter by, or just that. */
  method DistinctVersions(rows: seq<Row>, strip: bool, osFilter: string, archFilter: string) returns (out: seq<string>)
    ensures NoDuplicates(out) && NewestFirst(Less, out)
    ensures forall v :: v in out ==> v != ""
    ensures forall v | v != "" :: v in out <==>
              exists r :: (r in rows && CleanVersion(r.version, strip) == v && (osFilter == "" || r.os == "" || r.os == osFilter)
                           && (archFilter == "" || r.arch == "" || r.arch == archFilter))
  {
    var seen: set<string> := {};
    out := [];
    for i := 0 to |rows|
      invariant NoDuplicates(out) && forall v :: v in out <==> v in seen
      invariant forall v :: v in out <==>
                  exists r :: r in rows[..i] && Kept(r, strip, osFilter, archFilter) && CleanVersion(r.version, strip) == v
    {
      var r := rows[i];
      assert rows[..i + 1] == rows[..i] + [r];
      if osFilter != "" && r.os != "" && r.os != osFilter {
        continue;
      }
      if archFilter != "" && r.arch != "" && r.arch != archFilter {
        continue;
      }
      var v := CleanVersion(r.version, strip);
      if v == "" || v in seen {
        continue;
      }
      seen := seen + {v};
      out := out + [v];
    }
    assert rows[..|rows|] == rows;
    out := SortNewestFirst(out);
  }

  /** sort.Slice with the reversed order. Only what it promises is used: a permutation of its
      input in which no earlier entry is older than a later one. */
  method SortNewestFirst(s: seq<string>) returns (r: seq<string>)
    ensures multiset(r) == multiset(s) && NewestFirst(Less, r)
    ensures forall v :: v in r <==> v in s
    ensures NoDuplicates(s) ==> NoDuplicates(r)
  {
    r := [];
    for i := 0 to |s|
      invariant multiset(r) == multiset(s[..i]) && NewestFirst(Less, r)
    {
      assert s[..i + 1] == s[..i] + [s[i]];
      r := Insert(r, s[i]);
    }
    assert s[..|s|] == s;
    SameEntries(r, s);
  }

  lemma SameEntries(r: seq<string>, s: seq<string>)
    requires multiset(r) == multiset(s)
    ensures forall v :: v in r <==> v in s
    ensures NoDuplicates(s) ==> NoDuplicates(r)
  {
    forall v ensures v in r <==> v in s {
      assert v in multiset(r) <==> v in multiset(s);
    }
    DuplicatesCount(r);
    DuplicatesCount(s);
  }

  lemma {:induction false} DuplicatesCount(s: seq<string>)
    ensures NoDuplicates(s) <==> forall v :: multiset(s)[v] <= 1
    decreases |s|
  {
    if s != [] {
      var init, last := s[..|s| - 1], s[|s| - 1];
      assert s == init + [last];
      DuplicatesCount(init);
      assert multiset(s) == multiset(init) + multiset{last};
      if NoDuplicates(s) {
        assert last !in init;
        assert last !in multiset(init);
      } else if NoDuplicates(init) {
        assert last in init;
        assert last in multiset(init);
        assert multiset(s)[last] >= 2;
      } else {
        var v :| multiset(init)[v] > 1;
        assert multiset(s)[v] > 1;
      }
    }
  }

  method Insert(s: seq<string>, v: string) returns (r: seq<string>)
    requires NewestFirst(Less, s)
    ensures multiset(r) == multiset(s) + multiset{v} && NewestFirst(Less, r)
  {
    var k := PlaceFor(s, v);
    LessIsStrictWeak();
    Inserted(Less, s, k, v);
    r := s[..k] + [v] + s[k..];
  }

  /** The first entry older than v. */
  method PlaceFor(s: seq<string>, v: string) returns (k: nat)
    ensures k <= |s| && NoneOlder(Less, s, k, v) && (k < |s| ==> Less(s[k], v))
  {
    k := 0;
    while k < |s|
      invariant k <= |s| && NoneOlder(Less, s, k, v)
    {
      var isOlder := VersionLess(s[k], v);
      if isOlder {
        break;
      }
      NoneOlderNext(Less, s, k, v);
      k := k + 1;
    }
  }

  // ---- latestPerMajor ----

  /** latestPerMajor: of a newest-first list, the entries that remain are one for each major,
      and none of the list's entries with the same major is newer. */
  method LatestPerMajor(versions: seq<string>) returns (out: seq<string>)
    requires NewestFirst(Less, versions)
    ensures out == Heads(versions) && NewestFirst(Less, out) && forall v | v in out :: v in versions
    ensures forall i, j | 0 <= i < j < |out| :: MajorOf(out[i]) != MajorOf(out[j])
    ensures Covers(Less, out, versions)
  {
    out := KeepHeads(versions);
    LessIsStrictWeak();
    HeadsDistinct(versions);
    HeadsNewestFirst(Less, versions);
    HeadsCover(Less, versions);
  }

  /** The loop of latestPerMajor. */
  method KeepHeads(versions: seq<string>) returns (out: seq<string>)
    ensures out == Heads(versions)
  {
    var seen: set<string> := {};
    out := [];
    for i := 0 to |versions|
      invariant out == Heads(versions[..i]) && forall m :: m in seen <==> HasMajor(out, m)
    {
      var v := versions[i];
      var m := MajorOf(v);
      assert versions[..i + 1][..i] == versions[..i];
      if m in seen {
        continue;
      }
      seen := seen + {m};
      forall n ensures HasMajor(out + [v], n) <==> n in seen { HasMajorSnoc(out, v, n); }
      out := out + [v];
    }
    assert versions[..|versions|] == versions;
  }

  // ---- defaultSeries ----

  lemma NeverLessThanNothing(v: string)
    ensures !Less(v, "")
  {
    assert Split("", '.') == [""];
    assert Numbers("") == [0];
  }

  /** defaultSeries over the rows of one keyword: a newest lts series if there is one, otherwise
      a newest ga one, otherwise nothing. */
  method DefaultSeries(rows: seq<Series>) returns (series: string, tag: string)
    requires forall r | r in rows :: r.status == "lts" || r.status == "ga"
    ensures if tag == "LTS" then series != "" && Best(Less, rows, "lts", series)
            else Best(Less, rows, "lts", "") && Best(Less, rows, "ga", series) && (tag == "GA" <==> series != "")
  {
    LessIsStrictWeak();
    var best: map<string, string> := map[];
    for i := 0 to |rows|
      invariant BestOfBoth(Less, rows[..i], best)
    {
      var r := rows[i];
      assert r in rows && rows[..i + 1] == rows[..i] + [r];
      var newer := VersionLess(Get(best, r.status), r.name);
      NeverLessThanNothing(Get(best, r.status));
      BothStep(Less, rows[..i], r, best);
      if Get(best, r.status) == "" || newer {
        best := best[r.status := r.name];
      }
    }
    assert rows[..|rows|] == rows;
    if Get(best, "lts") != "" {
      return Get(best, "lts"), "LTS";
    }
    if Get(best, "ga") != "" {
      return Get(best, "ga"), "GA";
    }
    return "", "";
  }

}
