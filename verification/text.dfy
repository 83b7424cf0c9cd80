/** Strings as the Go and shell sources use them: splitting and joining on one
    character, byte order, and decimal numerals. */
module Text {

  datatype Option<+T> = None | Some(value: T)

  predicate IsDigit(c: char) {
    '0' <= c <= '9'
  }

  predicate AllDigits(s: string) {
    forall i | 0 <= i < |s| :: IsDigit(s[i])
  }

  /** How many digits s starts with. */
  function SpanDigits(s: string): (n: nat)
    ensures n <= |s| && AllDigits(s[..n]) && (n < |s| ==> !IsDigit(s[n]))
  {
    if s == "" || !IsDigit(s[0]) then 0 else
      var n := 1 + SpanDigits(s[1..]);
      assert s[..n] == [s[0]] + s[1..][..n - 1];
      n
  }

  /** Position of the first c in s, or |s| when there is none. */
  function IndexOf(s: string, c: char): (i: nat)
    ensures i <= |s|
    ensures c !in s[..i]
    ensures i < |s| ==> s[i] == c
  {
    if s == "" || s[0] == c then 0 else
      var i := 1 + IndexOf(s[1..], c);
      assert s[..i] == [s[0]] + s[1..][..i - 1];
      i
  }

  lemma IndexOfIs(s: string, c: char, i: nat)
    requires i <= |s| && c !in s[..i] && (i < |s| ==> s[i] == c)
    ensures IndexOf(s, c) == i
  {
    var j := IndexOf(s, c);
    forall k | 0 <= k < i ensures s[k] != c { assert s[k] in s[..i]; }
    forall k | 0 <= k < j ensures s[k] != c { assert s[k] in s[..j]; }
  }

  /** The first c of a + b lies in a when a has one, and otherwise in b. */
  lemma IndexOfConcat(a: string, b: string, c: char)
    ensures c in a ==> IndexOf(a + b, c) == IndexOf(a, c) < |a|
    ensures c !in a ==> IndexOf(a + b, c) == |a| + IndexOf(b, c)
  {
    var i := if c in a then IndexOf(a, c) else |a| + IndexOf(b, c);
    if c in a {
      assert a == a[..IndexOf(a, c)] + a[IndexOf(a, c)..];
      assert (a + b)[..i] == a[..i];
    } else {
      assert (a + b)[..i] == a + b[..IndexOf(b, c)];
    }
    IndexOfIs(a + b, c, i);
  }

  /** strings.Split on one character. */
  function Split(s: string, sep: char): (parts: seq<string>)
    ensures parts != []
    ensures forall p | p in parts :: sep !in p
    decreases |s|
  {
    var i := IndexOf(s, sep);
    if i == |s| then [s] else [s[..i]] + Split(s[i + 1..], sep)
  }

  lemma SplitStep(s: string, sep: char)
    ensures var i, parts := IndexOf(s, sep), Split(s, sep);
            && parts[0] == s[..i]
            && parts[1..] == if i == |s| then [] else Split(s[i + 1..], sep)
  {
    assert s[..|s|] == s;
  }

  /** strings.Join with one character. */
  function Join(parts: seq<string>, sep: char): string {
    if parts == [] then ""
    else if |parts| == 1 then parts[0]
    else parts[0] + [sep] + Join(parts[1..], sep)
  }

  lemma {:induction false} SplitJoin(parts: seq<string>, sep: char)
    requires parts != [] && forall p | p in parts :: sep !in p
    ensures Split(Join(parts, sep), sep) == parts
  {
    var s := Join(parts, sep);
    if |parts| == 1 {
      assert s == parts[0] && s[..|s|] == s;
      IndexOfIs(s, sep, |s|);
    } else {
      assert s[..|parts[0]|] == parts[0];
      IndexOfIs(s, sep, |parts[0]|);
      assert s[|parts[0]| + 1..] == Join(parts[1..], sep);
      SplitJoin(parts[1..], sep);
    }
  }

  lemma {:induction false} JoinSplit(s: string, sep: char)
    ensures Join(Split(s, sep), sep) == s
    decreases |s|
  {
    var i := IndexOf(s, sep);
    SplitStep(s, sep);
    if i < |s| {
      var rest := s[i + 1..];
      JoinSplit(rest, sep);
      JoinCons(s[..i], Split(rest, sep), sep);
      HeadAndTail(Split(s, sep));
      CutOut(s, i);
    } else {
      assert s[..i] == s;
    }
  }

  lemma HeadAndTail<T>(s: seq<T>)
    requires s != []
    ensures s == [s[0]] + s[1..]
  {
  }

  lemma CutOut(s: string, i: nat)
    requires i < |s|
    ensures s == s[..i] + [s[i]] + s[i + 1..]
  {
  }

  lemma JoinCons(p: string, parts: seq<string>, sep: char)
    requires parts != []
    ensures Join([p] + parts, sep) == p + [sep] + Join(parts, sep)
  {
    assert ([p] + parts)[1..] == parts;
  }

  /** Go's < on strings. */
  predicate StrLess(a: string, b: string) {
    b != "" && (a == "" || a[0] < b[0] || (a[0] == b[0] && StrLess(a[1..], b[1..])))
  }

  lemma {:induction false} StrLessTotal(a: string, b: string)
    ensures StrLess(a, b) || StrLess(b, a) || a == b
    ensures !(StrLess(a, b) && StrLess(b, a))
    ensures a == b ==> !StrLess(a, b)
  {
    if a != "" && b != "" && a[0] == b[0] {
      StrLessTotal(a[1..], b[1..]);
      assert a == [a[0]] + a[1..] && b == [b[0]] + b[1..];
    }
  }

  function DigitChar(d: nat): (c: char)
    requires d < 10
    ensures IsDigit(c) && c as int - '0' as int == d
  {
    ('0' as int + d) as char
  }

  /** strconv.Itoa of a natural number. */
  function Itoa(n: nat): (s: string)
    ensures s != "" && AllDigits(s)
  {
    if n < 10 then [DigitChar(n)] else Itoa(n / 10) + [DigitChar(n % 10)]
  }

  function DigitValue(c: char): nat {
    if IsDigit(c) then c as int - '0' as int else 0
  }

  /** The number a run of decimal digits denotes. */
  function ParseNat(s: string): nat {
    if s == "" then 0 else 10 * ParseNat(s[..|s| - 1]) + DigitValue(s[|s| - 1])
  }

  lemma {:induction false} ParseItoa(n: nat)
    ensures ParseNat(Itoa(n)) == n
  {
    if n >= 10 {
      ParseItoa(n / 10);
      assert Itoa(n)[..|Itoa(n)| - 1] == Itoa(n / 10);
    } else {
      assert Itoa(n)[..0] == "";
    }
  }

  predicate HasSuffix(s: string, suffix: string) {
    |suffix| <= |s| && s[|s| - |suffix|..] == suffix
  }

  predicate HasPrefix(s: string, prefix: string) {
    |prefix| <= |s| && s[..|prefix|] == prefix
  }

  function TrimPrefix(s: string, prefix: string): string {
    if HasPrefix(s, prefix) then s[|prefix|..] else s
  }

  /** unicode.IsSpace. */
  predicate IsSpace(c: char) {
    || '\U{9}' <= c <= '\U{d}' || c == ' ' || c == '\U{85}' || c == '\U{a0}' || c == '\U{1680}'
    || '\U{2000}' <= c <= '\U{200a}' || c == '\U{2028}' || c == '\U{2029}' || c == '\U{202f}'
    || c == '\U{205f}' || c == '\U{3000}'
  }

  /** In ASCII these are the blank and the characters from tab to carriage return. */
  lemma AsciiSpaces(c: char)
    requires c < '\U{80}'
    ensures IsSpace(c) <==> c == ' ' || c == '\t' || c == '\n' || c == '\U{b}' || c == '\U{c}' || c == '\r'
  {
  }

  predicate NoSpaces(s: string) {
    forall i | 0 <= i < |s| :: !IsSpace(s[i])
  }

  /** strings.TrimSpace. */
  function TrimSpace(s: string): (r: string)
    ensures NoSpaces(s) ==> r == s
    ensures |r| <= |s|
  {
    if s == "" then s
    else if IsSpace(s[0]) then TrimSpace(s[1..])
    else if IsSpace(s[|s| - 1]) then TrimSpace(s[..|s| - 1])
    else s
  }

  predicate Blank(s: string) {
    forall i | 0 <= i < |s| :: IsSpace(s[i])
  }

  /** A text with something in it that starts and ends with no space. */
  predicate Solid(s: string) {
    s != "" && !IsSpace(s[0]) && !IsSpace(s[|s| - 1])
  }

  lemma {:induction false} TrimLeft(pre: string, s: string)
    requires Blank(pre)
    ensures TrimSpace(pre + s) == TrimSpace(s)
  {
    if pre == "" {
      assert pre + s == s;
    } else {
      assert (pre + s)[1..] == pre[1..] + s;
      TrimLeft(pre[1..], s);
    }
  }

  /** Behind a text that is kept, trailing spaces go, and what starts with no space stays in
      part. */
  lemma {:induction false} TrimRight(s: string, tail: string) returns (k: nat)
    requires Solid(s)
    ensures k <= |tail| && TrimSpace(s + tail) == s + tail[..k]
    ensures Blank(tail) ==> k == 0
    ensures tail != "" && !IsSpace(tail[0]) ==> k > 0
    decreases |tail|
  {
    k := |tail|;
    if tail == "" {
      assert s + tail == s;
    } else if IsSpace(tail[|tail| - 1]) {
      assert (s + tail)[..|s + tail| - 1] == s + tail[..|tail| - 1];
      k := TrimRight(s, tail[..|tail| - 1]);
      assert tail[..|tail| - 1][..k] == tail[..k];
    } else {
      assert tail[..k] == tail;
    }
  }

  /** Spaces on both sides are trimmed and nothing else is. */
  lemma TrimIs(pre: string, s: string, post: string)
    requires Blank(pre) && Blank(post) && (s == "" || Solid(s))
    ensures TrimSpace(pre + s + post) == s
  {
    assert pre + s + post == pre + (s + post);
    TrimLeft(pre, s + post);
    if s == "" {
      assert s + post == post && post + "" == post;
      TrimLeft(post, "");
    } else {
      var k := TrimRight(s, post);
      assert post[..k] == "";
    }
  }
}
