/** What versionLess reads off a version as people write it: numbers joined by dots, with
    spaces around, a v in front, and a tag behind. */
module VersionTexts {
  import opened Text
  import opened Ordering
  import opened Versions

  // ---- one number ----

  function Capped(n: nat): nat {
    if n > MAX_INT then MAX_INT else n
  }

  lemma ParseMore(s: string, i: nat)
    requires i < |s|
    ensures ParseNat(s[..i + 1]) == 10 * ParseNat(s[..i]) + DigitValue(s[i])
  {
    assert s[..i + 1][..i] == s[..i];
  }

  lemma {:induction false} ParseGrows(s: string, i: nat)
    requires i <= |s|
    ensures ParseNat(s[..i]) <= ParseNat(s)
    decreases |s| - i
  {
    if i < |s| {
      ParseMore(s, i);
      ParseGrows(s, i + 1);
    } else {
      assert s[..i] == s;
    }
  }

  /** Reading on from place i of a text, with the digits before it read. */
  lemma {:induction false} AtoiRest(s: string, i: nat)
    requires i <= SpanDigits(s) && ParseNat(s[..i]) <= MAX_UINT
    ensures var n := ParseNat(s[..SpanDigits(s)]);
            AtoiFrom(s[i..], ParseNat(s[..i]))
            == if SpanDigits(s) == |s| then Capped(n) else if n > MAX_UINT then MAX_INT else 0
    decreases |s| - i
  {
    var d := SpanDigits(s);
    if i < d {
      assert s[..d][i] == s[i];
      ParseMore(s, i);
      assert s[i..][1..] == s[i + 1..];
      assert s[..d][..i + 1] == s[..i + 1];
      ParseGrows(s[..d], i + 1);
      if ParseNat(s[..i + 1]) <= MAX_UINT {
        AtoiRest(s, i + 1);
      }
    }
  }

  /** A run of digits is the number it denotes, up to the largest int. A text with anything else
      in it is 0, unless the digits before that already passed the largest unsigned number. */
  lemma AtoiReads(s: string)
    ensures AllDigits(s) ==> AtoiFrom(s, 0) == Capped(ParseNat(s))
    ensures !AllDigits(s) ==>
              AtoiFrom(s, 0) == if ParseNat(s[..SpanDigits(s)]) > MAX_UINT then MAX_INT else 0
  {
    assert s[..0] == "" && s[0..] == s && s[..|s|] == s;
    AtoiRest(s, 0);
  }

  /** One component, whatever it is written like. */
  lemma ComponentReads(pre: string, s: string, post: string)
    requires Blank(pre) && Blank(post) && (s == "" || Solid(s))
    ensures AllDigits(s) ==> Component(pre + s + post) == Capped(ParseNat(s))
    ensures !AllDigits(s) && ParseNat(s[..SpanDigits(s)]) <= MAX_UINT ==> Component(pre + s + post) == 0
  {
    TrimIs(pre, s, post);
    AtoiReads(s);
  }

  // ---- a whole version ----

  function Numerals(xs: seq<nat>): (ts: seq<string>)
    ensures |ts| == |xs| && forall i | 0 <= i < |xs| :: ts[i] == Itoa(xs[i])
  {
    seq(|xs|, i requires 0 <= i < |xs| => Itoa(xs[i]))
  }

  function Dotted(xs: seq<nat>): string {
    Join(Numerals(xs), '.')
  }

  /** The largest number each component can be. */
  function AllCapped(xs: seq<nat>): (ys: seq<nat>)
    ensures |ys| == |xs| && forall i | 0 <= i < |xs| :: ys[i] == Capped(xs[i])
  {
    seq(|xs|, i requires 0 <= i < |xs| => Capped(xs[i]))
  }

  /** Nothing, or a release or build tag. */
  predicate IsTag(s: string) {
    s == "" || s[0] == '-' || s[0] == '+'
  }

  predicate IsDotted(s: string) {
    s != "" && IsDigit(s[0]) && IsDigit(s[|s| - 1]) && forall c | c in s :: IsDigit(c) || c == '.'
  }

  lemma {:induction false} DottedChars(xs: seq<nat>)
    requires xs != []
    ensures IsDotted(Dotted(xs))
  {
    var ts := Numerals(xs);
    if |xs| > 1 {
      DottedChars(xs[1..]);
      assert ts[1..] == Numerals(xs[1..]);
    }
  }

  lemma IndexOfAbsent(s: string, c: char)
    requires c !in s
    ensures IndexOf(s, c) == |s|
  {
    assert s[..|s|] == s;
    IndexOfIs(s, c, |s|);
  }

  lemma CutAt(s: string, tag: string)
    requires '-' !in s && '+' !in s && IsTag(tag)
    ensures CutAtSuffix(s + tag) == s
  {
    IndexOfConcat(s, tag, '-');
    IndexOfConcat(s, tag, '+');
    assert s + tag == s || tag[0] in tag;
    if tag == "" {
      assert s + tag == s;
      IndexOfAbsent(s, '-');
      IndexOfAbsent(s, '+');
      assert s[..|s|] == s;
    } else {
      IndexOfIs(tag, tag[0], 0);
      assert (s + tag)[..|s|] == s;
    }
  }

  /** v or nothing. */
  function Mark(v: bool): string {
    if v then "v" else ""
  }

  lemma Unmarked(v: bool, s: string, rest: string)
    requires IsDotted(s)
    ensures TrimPrefix(Mark(v) + s + rest, "v") == s + rest
  {
    var t := Mark(v) + s + rest;
    if v {
      assert t[..1] == "v" && t[1..] == s + rest;
    } else {
      assert t == s + rest && t[0] == s[0];
    }
  }

  /** A version as people write it. */
  function Written(v: bool, xs: seq<nat>, tag: string): string {
    Mark(v) + Dotted(xs) + tag
  }

  lemma Reduced(v: bool, s: string, tag: string)
    requires IsTag(tag) && IsDotted(s)
    ensures CutAtSuffix(TrimPrefix(Mark(v) + s + tag, "v")) == s
  {
    Unmarked(v, s, tag);
    CutAt(s, tag);
  }

  lemma SplitDotted(xs: seq<nat>)
    requires xs != []
    ensures Split(Dotted(xs), '.') == Numerals(xs)
  {
    forall t | t in Numerals(xs) ensures '.' !in t {
    }
    SplitJoin(Numerals(xs), '.');
  }

  lemma ComponentOfNumeral(n: nat)
    ensures Component(Itoa(n)) == Capped(n)
  {
    var s := Itoa(n);
    assert "" + s + "" == s && forall j | 0 <= j < |s| :: IsDigit(s[j]);
    ComponentReads("", s, "");
    ParseItoa(n);
  }

  lemma ComponentsOfNumerals(xs: seq<nat>)
    ensures Components(Numerals(xs)) == AllCapped(xs)
  {
    forall i | 0 <= i < |xs| ensures Component(Numerals(xs)[i]) == Capped(xs[i]) {
      ComponentOfNumeral(xs[i]);
    }
  }

  /** Spaces around a version do not count. */
  lemma SpacesAround(pre: string, s: string, post: string)
    requires Blank(pre) && Blank(post) && Solid(s)
    ensures Numbers(pre + s + post) == Numbers(s)
  {
    TrimIs(pre, s, post);
    TrimIs("", s, "");
    assert "" + s + "" == s;
  }

  /** versionLess compares a version by its numbers, each up to the largest int, whether or not a
      v stands in front and whatever tag follows. */
  lemma NumbersOfWritten(v: bool, xs: seq<nat>, tag: string)
    requires xs != [] && IsTag(tag)
    ensures Numbers(Written(v, xs, tag)) == AllCapped(xs)
  {
    DottedChars(xs);
    var s, core := Dotted(xs), Mark(v) + Dotted(xs);
    assert core[|core| - 1] == s[|s| - 1] && (v || core == s);
    var k := TrimRight(core, tag);
    Reduced(v, s, tag[..k]);
    SplitDotted(xs);
    ComponentsOfNumerals(xs);
  }

  // ---- the order on what is written ----

  function Head(x: seq<nat>): nat {
    if x == [] then 0 else x[0]
  }

  function Tail(x: seq<nat>): seq<nat> {
    if x == [] then [] else x[1..]
  }

  /** The lexicographic order, missing components being 0. */
  predicate LexLess(x: seq<nat>, y: seq<nat>)
    decreases |x| + |y|
  {
    (x != [] || y != []) && (Head(x) < Head(y) || (Head(x) == Head(y) && LexLess(Tail(x), Tail(y))))
  }

  lemma {:induction false} LexDecided(x: seq<nat>, y: seq<nat>, k: nat)
    requires LessAt(x, y, k)
    ensures LexLess(x, y)
    decreases k
  {
    if k > 0 {
      assert At(x, 0) == At(y, 0);
      assert forall i: nat :: At(Tail(x), i) == At(x, i + 1) && At(Tail(y), i) == At(y, i + 1);
      assert LessAt(Tail(x), Tail(y), k - 1);
      LexDecided(Tail(x), Tail(y), k - 1);
    }
  }

  lemma {:induction false} LexPlace(x: seq<nat>, y: seq<nat>) returns (k: nat)
    requires LexLess(x, y)
    ensures LessAt(x, y, k)
    decreases |x| + |y|
  {
    k := 0;
    if Head(x) == Head(y) {
      var j := LexPlace(Tail(x), Tail(y));
      k := j + 1;
      forall i | 0 <= i < k ensures At(x, i) == At(y, i) {
        if i > 0 {
          assert At(Tail(x), i - 1) == At(Tail(y), i - 1);
          TailAt(x, i - 1);
          TailAt(y, i - 1);
        }
      }
      TailAt(x, j);
      TailAt(y, j);
    }
  }

  lemma TailAt(x: seq<nat>, i: nat)
    ensures At(Tail(x), i) == At(x, i + 1)
  {
  }

  lemma LexIff(x: seq<nat>, y: seq<nat>)
    ensures NumbersLess(x, y) <==> LexLess(x, y)
  {
    if LexLess(x, y) {
      var k := LexPlace(x, y);
    } else if k: nat :| LessAt(x, y, k) {
      LexDecided(x, y, k);
    }
  }

  /** For versions as they are written, versionLess is the lexicographic order of their numbers. */
  lemma WrittenOrder(x: seq<nat>, vx: bool, tx: string, y: seq<nat>, vy: bool, ty: string)
    requires x != [] && y != [] && IsTag(tx) && IsTag(ty)
    ensures Less(Written(vx, x, tx), Written(vy, y, ty)) <==> LexLess(AllCapped(x), AllCapped(y))
  {
    NumbersOfWritten(vx, x, tx);
    NumbersOfWritten(vy, y, ty);
    LexIff(AllCapped(x), AllCapped(y));
  }

  lemma {:induction false} LexLast(front: seq<nat>, c: nat, d: nat)
    ensures LexLess(front + [c], front + [d]) <==> c < d
    decreases |front|
  {
    var x, y := front + [c], front + [d];
    if front == [] {
      assert Tail(x) == Tail(y) == [];
    } else {
      assert Tail(x) == front[1..] + [c] && Tail(y) == front[1..] + [d];
      LexLast(front[1..], c, d);
    }
  }

  /** Of two versions that differ in their last number only, the smaller number is older: 0.1.9
      comes before 0.1.10. */
  lemma LastDecides(front: seq<nat>, c: nat, d: nat)
    requires (forall n | n in front :: n <= MAX_INT) && c <= MAX_INT && d <= MAX_INT
    ensures Less(Written(false, front + [c], ""), Written(false, front + [d], "")) <==> c < d
  {
    var x, y := front + [c], front + [d];
    LexLast(front, c, d);
    CappedStays(x);
    CappedStays(y);
    WrittenOrder(x, false, "", y, false, "");
  }

  lemma CappedStays(xs: seq<nat>)
    requires forall n | n in xs :: n <= MAX_INT
    ensures AllCapped(xs) == xs
  {
    forall i | 0 <= i < |xs| ensures AllCapped(xs)[i] == xs[i] {
      assert xs[i] in xs;
    }
  }

  lemma DottedMore(n: nat, xs: seq<nat>)
    requires xs != []
    ensures Dotted([n] + xs) == Itoa(n) + "." + Dotted(xs)
  {
    assert Numerals([n] + xs) == [Itoa(n)] + Numerals(xs);
    JoinCons(Itoa(n), Numerals(xs), '.');
  }

  lemma ExampleTexts()
    ensures Written(false, [0, 1] + [9], "") == "0.1.9" && Written(false, [0, 1] + [10], "") == "0.1.10"
  {
    DottedMore(1, [9]);
    DottedMore(1, [10]);
    DottedMore(0, [1, 9]);
    DottedMore(0, [1, 10]);
    assert [1] + [9] == [1, 9] && [0] + [1, 9] == [0, 1] + [9] && [1] + [10] == [1, 10] && [0] + [1, 10] == [0, 1] + [10];
    assert Itoa(10) == Itoa(1) + Itoa(0) == "10";
    assert Dotted([9]) == "9" && Dotted([10]) == "10";
  }

  // ---- majors and builds ----

  lemma {:induction false} SpanAll(s: string, rest: string)
    requires AllDigits(s) && (rest == "" || !IsDigit(rest[0]))
    ensures SpanDigits(s + rest) == |s|
  {
    if s == "" {
      assert s + rest == rest;
    } else {
      assert (s + rest)[1..] == s[1..] + rest;
      SpanAll(s[1..], rest);
    }
  }

  /** The major of a version is its first number, whatever follows it; a text that starts with no
      digit is its own. */
  lemma MajorReads(n: nat, rest: string)
    requires rest == "" || !IsDigit(rest[0])
    ensures MajorOf(Itoa(n) + rest) == Itoa(n)
    ensures MajorOf(rest) == rest
  {
    SpanAll(Itoa(n), rest);
    assert (Itoa(n) + rest)[..|Itoa(n)|] == Itoa(n);
    SpanAll("", rest);
    assert "" + rest == rest;
  }

  /** Stripping the build drops what follows the first dash, dash included, and nothing else. */
  lemma CleanReads(s: string, build: string, strip: bool)
    requires '-' !in s
    ensures CleanVersion(s + "-" + build, true) == CleanVersion(s, strip) == s
    ensures CleanVersion(s + "-" + build, false) == s + "-" + build
  {
    IndexOfAbsent(s, '-');
    assert s[..|s|] == s;
    IndexOfIs(s + "-" + build, '-', |s|) by {
      assert (s + "-" + build)[..|s|] == s;
    }
    assert (s + "-" + build)[..|s|] == s;
  }
}
