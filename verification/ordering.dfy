/** Lists kept newest first under any strict weak order "is older than", and the first
    entry of each major in such a list. */
module Ordering {
  import opened Text

  type Rel = (string, string) -> bool

  /** Irreflexive and transitive, with transitive ties. */
  ghost predicate StrictWeak(less: Rel) {
    && (forall a :: !less(a, a))
    && (forall a, b, c :: less(a, b) && less(b, c) ==> less(a, c))
    && (forall a, b, c :: !less(a, b) && !less(b, c) ==> !less(a, c))
  }

  predicate NoDuplicates(s: seq<string>) {
    forall i, j | 0 <= i < j < |s| :: s[i] != s[j]
  }

  /** No earlier entry is older than a later one. */
  ghost predicate NewestFirst(less: Rel, s: seq<string>) {
    forall i, j | 0 <= i < j < |s| :: !less(s[i], s[j])
  }

  lemma NewestConcat(less: Rel, x: seq<string>, y: seq<string>)
    requires NewestFirst(less, x) && NewestFirst(less, y)
    requires forall i, j | 0 <= i < |x| && 0 <= j < |y| :: !less(x[i], y[j])
    ensures NewestFirst(less, x + y)
  {
  }

  /** An entry put before the first one older than it keeps the list newest first. */
  lemma InsertSorted(less: Rel, s: seq<string>, k: nat, v: string)
    requires StrictWeak(less) && NewestFirst(less, s) && k <= |s|
    requires (forall i | 0 <= i < k :: !less(s[i], v)) && (k < |s| ==> less(s[k], v))
    ensures NewestFirst(less, s[..k] + [v] + s[k..])
  {
    var x, y := s[..k], s[k..];
    forall j | 0 <= j < |y| ensures !less(v, y[j]) {
      assert less(s[k], v) && (j > 0 ==> !less(s[k], s[k + j]));
    }
    NewestConcat(less, [v], y);
    forall i, j | 0 <= i < |x| && 0 <= j < |[v] + y| ensures !less(x[i], ([v] + y)[j]) {
      assert j > 0 ==> ([v] + y)[j] == s[k + j - 1];
    }
    NewestConcat(less, x, [v] + y);
    assert x + [v] + y == x + ([v] + y);
  }

  lemma InsertElements(s: seq<string>, k: nat, v: string)
    requires k <= |s|
    ensures multiset(s[..k] + [v] + s[k..]) == multiset(s) + multiset{v}
  {
    assert s == s[..k] + s[k..];
  }

  /** The first k entries are not older than v. */
  ghost predicate NoneOlder(less: Rel, s: seq<string>, k: nat, v: string)
    requires k <= |s|
  {
    forall i | 0 <= i < k :: !less(s[i], v)
  }

  lemma NoneOlderNext(less: Rel, s: seq<string>, k: nat, v: string)
    requires k < |s| && NoneOlder(less, s, k, v) && !less(s[k], v)
    ensures NoneOlder(less, s, k + 1, v)
  {
  }

  lemma Inserted(less: Rel, s: seq<string>, k: nat, v: string)
    requires StrictWeak(less) && NewestFirst(less, s) && k <= |s|
    requires NoneOlder(less, s, k, v) && (k < |s| ==> less(s[k], v))
    ensures var r := s[..k] + [v] + s[k..]; multiset(r) == multiset(s) + multiset{v} && NewestFirst(less, r)
  {
    InsertSorted(less, s, k, v);
    InsertElements(s, k, v);
  }

  // ---- the first of each major ----

  /** majorOf. */
  function MajorOf(v: string): string {
    var n := SpanDigits(v);
    if n == 0 then v else v[..n]
  }

  predicate HasMajor(s: seq<string>, m: string) {
    exists i | 0 <= i < |s| :: MajorOf(s[i]) == m
  }

  function Heads(versions: seq<string>): seq<string> {
    if versions == [] then [] else
      var h, v := Heads(versions[..|versions| - 1]), versions[|versions| - 1];
      if HasMajor(h, MajorOf(v)) then h else h + [v]
  }

  lemma HasMajorSnoc(s: seq<string>, v: string, m: string)
    ensures HasMajor(s + [v], m) <==> HasMajor(s, m) || MajorOf(v) == m
  {
    if HasMajor(s, m) {
      var i :| 0 <= i < |s| && MajorOf(s[i]) == m;
      assert (s + [v])[i] == s[i];
    }
    assert (s + [v])[|s|] == v;
  }

  lemma {:induction false} HeadsDistinct(versions: seq<string>)
    ensures forall i, j | 0 <= i < j < |Heads(versions)| :: MajorOf(Heads(versions)[i]) != MajorOf(Heads(versions)[j])
    ensures forall v | v in Heads(versions) :: v in versions
  {
    if versions != [] {
      HeadsDistinct(versions[..|versions| - 1]);
    }
  }

  lemma {:induction false} HeadsNewestFirst(less: Rel, versions: seq<string>)
    requires NewestFirst(less, versions)
    ensures NewestFirst(less, Heads(versions))
  {
    if versions != [] {
      var init, v := versions[..|versions| - 1], versions[|versions| - 1];
      HeadsNewestFirst(less, init);
      HeadsDistinct(init);
      forall i | 0 <= i < |Heads(init)| ensures !less(Heads(init)[i], v) {
        assert Heads(init)[i] in init;
      }
      NewestConcat(less, Heads(init), [v]);
    }
  }

  /** Entry k's major is represented by an entry that is not older. */
  lemma {:induction false} HeadsAreNewest(less: Rel, versions: seq<string>, k: nat) returns (j: nat)
    requires StrictWeak(less) && NewestFirst(less, versions) && k < |versions|
    ensures j < |Heads(versions)| && MajorOf(Heads(versions)[j]) == MajorOf(versions[k])
    ensures !less(Heads(versions)[j], versions[k])
  {
    var n := |versions| - 1;
    if k < n {
      j := HeadsAreNewest(less, versions[..n], k);
    } else {
      j := NewestOfLast(less, versions);
    }
  }

  lemma NewestOfLast(less: Rel, versions: seq<string>) returns (j: nat)
    requires StrictWeak(less) && NewestFirst(less, versions) && versions != []
    ensures var v := versions[|versions| - 1];
            j < |Heads(versions)| && MajorOf(Heads(versions)[j]) == MajorOf(v) && !less(Heads(versions)[j], v)
  {
    var init, v := versions[..|versions| - 1], versions[|versions| - 1];
    var h := Heads(init);
    j := |h|;
    if HasMajor(h, MajorOf(v)) {
      j :| 0 <= j < |h| && MajorOf(h[j]) == MajorOf(v);
      HeadsDistinct(init);
      assert h[j] in init;
    }
  }

  /** Every entry's major is represented by an entry that is not older. */
  ghost predicate Covers(less: Rel, out: seq<string>, versions: seq<string>) {
    forall v | v in versions :: exists o :: o in out && MajorOf(o) == MajorOf(v) && !less(o, v)
  }

  lemma HeadsCover(less: Rel, versions: seq<string>)
    requires StrictWeak(less) && NewestFirst(less, versions)
    ensures Covers(less, Heads(versions), versions)
  {
    forall v | v in versions
      ensures exists o :: o in Heads(versions) && MajorOf(o) == MajorOf(v) && !less(o, v)
    {
      var k :| 0 <= k < |versions| && versions[k] == v;
      var j := HeadsAreNewest(less, versions, k);
      assert Heads(versions)[j] in Heads(versions);
    }
  }

  // ---- the newest series of a status ----

  datatype Series = Series(name: string, status: string)

  /** best is a newest non-empty name with that status, empty when there is none. */
  ghost predicate Best(less: Rel, rows: seq<Series>, status: string, best: string) {
    if best == "" then forall r | r in rows :: r.status == status ==> r.name == ""
    else Series(best, status) in rows && forall r | r in rows && r.status == status && r.name != "" :: !less(best, r.name)
  }

  lemma BestStep(less: Rel, rows: seq<Series>, r: Series, current: string)
    requires StrictWeak(less) && Best(less, rows, r.status, current) && !less(current, "")
    ensures Best(less, rows + [r], r.status, if current == "" || less(current, r.name) then r.name else current)
  {
  }

  lemma BestOther(less: Rel, rows: seq<Series>, r: Series, status: string, current: string)
    requires Best(less, rows, status, current) && r.status != status
    ensures Best(less, rows + [r], status, current)
  {
  }

  function Get(best: map<string, string>, status: string): string {
    if status in best then best[status] else ""
  }

  ghost predicate BestOfBoth(less: Rel, rows: seq<Series>, best: map<string, string>) {
    Best(less, rows, "lts", Get(best, "lts")) && Best(less, rows, "ga", Get(best, "ga"))
  }

  lemma BothStep(less: Rel, rows: seq<Series>, r: Series, best: map<string, string>)
    requires StrictWeak(less) && BestOfBoth(less, rows, best) && r.status in {"lts", "ga"}
    requires !less(Get(best, r.status), "")
    ensures var current := Get(best, r.status);
            BestOfBoth(less, rows + [r],
                       if current == "" || less(current, r.name) then best[r.status := r.name] else best)
  {
    var other := if r.status == "lts" then "ga" else "lts";
    BestStep(less, rows, r, Get(best, r.status));
    BestOther(less, rows, r, other, Get(best, other));
  }
}
