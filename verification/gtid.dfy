/** GTID_COUNT: how many transactions a GTID set has, counted on its normalised text. */
module Gtid {
  import opened Text

  /** Transactions lo to hi of one source, or the tag that the intervals behind it carry. */
  datatype Part = Interval(lo: nat, hi: nat) | Tag(name: string)

  datatype Source = Source(uuid: string, parts: seq<Part>)

  predicate IsPart(t: Part) {
    match t
    case Interval(lo, hi) => lo <= hi
    case Tag(name) => ':' !in name && ',' !in name && '-' !in name
  }

  /** What GTID_SUBTRACT(g, '') yields: sources with at least one interval each, in which no
      uuid contains a separator. Dashes are part of every uuid. */
  predicate IsSet(g: seq<Source>) {
    forall s | s in g :: ':' !in s.uuid && ',' !in s.uuid && s.parts != [] && forall t | t in s.parts :: IsPart(t)
  }

  function Size(t: Part): int {
    if t.Tag? then 0 else t.hi - t.lo + 1
  }

  function Total(ts: seq<Part>): int {
    if ts == [] then 0 else Size(ts[0]) + Total(ts[1..])
  }

  /** The number of transactions in the set. */
  function Count(g: seq<Source>): int {
    if g == [] then 0 else Total(g[0].parts) + Count(g[1..])
  }

  function TagsIn(ts: seq<Part>): nat {
    if ts == [] then 0 else (if ts[0].Tag? then 1 else 0) + TagsIn(ts[1..])
  }

  function Tags(g: seq<Source>): nat {
    if g == [] then 0 else TagsIn(g[0].parts) + Tags(g[1..])
  }

  // ---- the normalised text ----

  function PrintPart(t: Part): string {
    if t.Tag? then t.name
    else if t.lo == t.hi then Itoa(t.lo) else Itoa(t.lo) + "-" + Itoa(t.hi)
  }

  function PrintParts(ts: seq<Part>): string {
    if ts == [] then "" else ":" + PrintPart(ts[0]) + PrintParts(ts[1..])
  }

  /** Sources are separated by a comma and a line break. */
  function Print(g: seq<Source>): string {
    if g == [] then ""
    else g[0].uuid + PrintParts(g[0].parts) + if |g| == 1 then "" else ",\n" + Print(g[1..])
  }

  // ---- the SQL functions ----

  /** LOCATE of one character from position pos, counting from 1, and 0 for none. */
  function Locate(needle: char, s: string, pos: nat): nat
    requires 1 <= pos
  {
    if pos > |s| then 0 else
      var i := IndexOf(s[pos - 1..], needle);
      if i == |s| - (pos - 1) then 0 else pos + i
  }

  function IfZero(a: nat, b: nat): nat {
    if a == 0 then b else a
  }

  function Locate2(needle: char, s: string, pos: nat): (r: nat)
    requires 1 <= pos
    ensures pos <= |s| + 1 ==> pos <= r <= |s| + 1 && r == pos + IndexOf(s[pos - 1..], needle)
  {
    IfZero(Locate(needle, s, pos), |s| + 1)
  }

  /** SUBSTR from position pos, at most len characters. */
  function Substr(s: string, pos: nat, len: int): string
    requires 1 <= pos
  {
    if len <= 0 || pos > |s| then "" else if pos - 1 + len > |s| then s[pos - 1..] else s[pos - 1..pos - 1 + len]
  }

  /** How MySQL turns a text into a number in arithmetic: only its value on decimal numerals
      matters here. */
  type Conversion = string -> int

  ghost predicate ReadsNumerals(number: Conversion) {
    forall n: nat :: number(Itoa(n)) == n
  }

  function Least(a: nat, b: nat): nat {
    if a < b then a else b
  }

  /** What one piece of the text between two colons stands for: the size of the range before
      the first comma, or one for a single number. */
  function PieceAt(number: Conversion, p: string, dash: nat, comma: nat): int
    requires dash <= |p| && comma <= |p|
  {
    if dash < comma then number(p[dash + 1..comma]) - number(p[..dash]) + 1 else 1
  }

  function Piece(number: Conversion, p: string): int {
    PieceAt(number, p, IndexOf(p, '-'), IndexOf(p, ','))
  }

  function Worth(number: Conversion): Conversion {
    p => Piece(number, p)
  }

  lemma WorthIsPiece(number: Conversion, p: string)
    ensures Worth(number)(p) == Piece(number, p)
  {
  }

  function Sum(worth: Conversion, ps: seq<string>): int {
    if ps == [] then 0 else worth(ps[0]) + Sum(worth, ps[1..])
  }

  // ---- the loop ----

  /** What the loop has still to add, by the position of the colon it stands at. */
  function Left(worth: Conversion, text: string, colonPos: nat): int
    requires 1 <= colonPos <= |text| + 1
  {
    if colonPos == |text| + 1 then 0 else Sum(worth, Split(text[colonPos..], ':'))
  }

  lemma FirstColon(worth: Conversion, text: string)
    ensures var colon := Locate2(':', text, 1);
            1 <= colon <= |text| + 1 && Sum(worth, Split(text, ':')[1..]) == Left(worth, text, colon)
  {
    assert text[0..] == text;
  }

  lemma SumOfSplit(worth: Conversion, rest: string)
    ensures var i := IndexOf(rest, ':');
            Sum(worth, Split(rest, ':')) == worth(rest[..i]) + if i == |rest| then 0 else Sum(worth, Split(rest[i + 1..], ':'))
  {
    var i := IndexOf(rest, ':');
    SplitStep(rest, ':');
  }

  lemma NextColon(worth: Conversion, text: string, colonPos: nat, colon: nat)
    requires 1 <= colonPos <= |text| && colon == Locate2(':', text, colonPos + 1)
    ensures colonPos < colon <= |text| + 1
    ensures Left(worth, text, colonPos) == worth(text[colonPos..colon - 1]) + Left(worth, text, colon)
  {
    var rest := text[colonPos..];
    SumOfSplit(worth, rest);
    var i := IndexOf(rest, ':');
    assert colon == colonPos + 1 + i;
    assert text[colonPos..colon - 1] == rest[..i];
    if i < |rest| {
      assert rest[i + 1..] == text[colon..];
    }
  }

  /** A character sought from one place on, when only the text up to end matters. */
  lemma LocateWithin(c: char, text: string, start: nat, end: nat)
    requires start <= end <= |text|
    ensures var i, j := IndexOf(text[start..], c), IndexOf(text[start..end], c);
            if i < end - start then j == i else j == end - start
  {
    var p := text[start..end];
    assert text[start..] == p + text[end..];
    IndexOfConcat(p, text[end..], c);
  }

  /** One round, by positions in the whole text as the loop keeps them, counting from 1. */
  lemma RoundIsPieceAt(number: Conversion, text: string, start: nat, colon: nat, dash: nat, comma: nat)
    requires start < colon <= |text| + 1 && start < dash <= |text| + 1 && start < comma <= |text| + 1
    ensures PieceAt(number, text[start..colon - 1], Least(dash, colon) - start - 1, Least(comma, colon) - start - 1)
         == if dash < colon && dash < comma
            then number(Substr(text, dash + 1, Least(colon, comma) - (dash + 1)))
                 - number(Substr(text, start + 1, dash - (start + 1))) + 1
            else 1
  {
    if dash < colon && dash < comma {
      SubstrIs(text, start, colon - 1, dash + 1, Least(colon, comma));
      SubstrIs(text, start, colon - 1, start + 1, dash);
    }
  }

  lemma RoundIsPiece(number: Conversion, text: string, start: nat, colon: nat, dash: nat, comma: nat)
    requires start < colon <= |text| + 1 && start < dash <= |text| + 1 && start < comma <= |text| + 1
    requires dash == start + 1 + IndexOf(text[start..], '-') && comma == start + 1 + IndexOf(text[start..], ',')
    ensures Piece(number, text[start..colon - 1])
         == if dash < colon && dash < comma
            then number(Substr(text, dash + 1, Least(colon, comma) - (dash + 1)))
                 - number(Substr(text, start + 1, dash - (start + 1))) + 1
            else 1
  {
    var p := text[start..colon - 1];
    FoundWithin('-', text, start, colon, dash);
    FoundWithin(',', text, start, colon, comma);
    PieceBy(number, p, Least(dash, colon) - start - 1, Least(comma, colon) - start - 1);
    RoundIsPieceAt(number, text, start, colon, dash, comma);
  }

  lemma FoundWithin(c: char, text: string, start: nat, colon: nat, found: nat)
    requires start < colon <= |text| + 1 && found == start + 1 + IndexOf(text[start..], c)
    ensures IndexOf(text[start..colon - 1], c) == Least(found, colon) - start - 1
  {
    LocateWithin(c, text, start, colon - 1);
  }

  lemma PieceBy(number: Conversion, p: string, dash: nat, comma: nat)
    requires dash == IndexOf(p, '-') && comma == IndexOf(p, ',')
    ensures Piece(number, p) == PieceAt(number, p, dash, comma)
  {
  }

  lemma SliceOfSlice(text: string, start: nat, end: nat, i: nat, j: nat)
    requires start <= i <= j <= end <= |text|
    ensures text[start..end][i - start..j - start] == text[i..j]
  {
    var a, b := text[start..end][i - start..j - start], text[i..j];
    forall k | 0 <= k < |a| ensures a[k] == b[k] {
    }
  }

  lemma SubstrIs(text: string, start: nat, end: nat, pos: nat, upTo: nat)
    requires start < pos <= upTo <= end + 1 && end <= |text|
    ensures Substr(text, pos, upTo - pos) == text[start..end][pos - start - 1..upTo - start - 1]
  {
    SliceOfSlice(text, start, end, pos - 1, upTo - 1);
  }

  /** GTID_COUNT on a text already normalised: one round for every piece after a colon. It ends
      on every text, because the colon's position grows until it is one past the end. */
  method GtidCount(number: Conversion, text: string) returns (result: int)
    ensures result == Sum(Worth(number), Split(text, ':')[1..])
  {
    result := 0;
    var colonPos := Locate2(':', text, 1);
    FirstColon(Worth(number), text);
    while colonPos != |text| + 1
      invariant 1 <= colonPos <= |text| + 1
      invariant Sum(Worth(number), Split(text, ':')[1..]) == result + Left(Worth(number), text, colonPos)
      decreases |text| + 1 - colonPos
    {
      var dash := Locate2('-', text, colonPos + 1);
      var colon := Locate2(':', text, colonPos + 1);
      var comma := Locate2(',', text, colonPos + 1);
      NextColon(Worth(number), text, colonPos, colon);
      WorthIsPiece(number, text[colonPos..colon - 1]);
      RoundIsPiece(number, text, colonPos, colon, dash, comma);
      if dash < colon && dash < comma {
        result := result + number(Substr(text, dash + 1, Least(colon, comma) - (dash + 1)))
                  - number(Substr(text, colonPos + 1, dash - (colonPos + 1))) + 1;
      } else {
        result := result + 1;
      }
      colonPos := colon;
    }
  }

  // ---- the pieces of a printed set ----

  /** The texts of the parts of one source, the last one running on into end. */
  function Texts(ts: seq<Part>, end: string): seq<string> {
    if ts == [] then []
    else if |ts| == 1 then [PrintPart(ts[0]) + end]
    else [PrintPart(ts[0])] + Texts(ts[1..], end)
  }

  function Pieces(g: seq<Source>): seq<string> {
    if g == [] then []
    else Texts(g[0].parts, if |g| == 1 then "" else ",\n" + g[1].uuid) + Pieces(g[1..])
  }

  function Glue(ps: seq<string>): string {
    if ps == [] then "" else ":" + ps[0] + Glue(ps[1..])
  }

  lemma {:induction false} JoinIsGlue(u: string, ps: seq<string>)
    ensures Join([u] + ps, ':') == u + Glue(ps)
    decreases |ps|
  {
    if ps != [] {
      JoinIsGlue(ps[0], ps[1..]);
      assert ([u] + ps)[1..] == [ps[0]] + ps[1..];
    }
  }

  lemma {:induction false} GlueConcat(a: seq<string>, b: seq<string>)
    ensures Glue(a + b) == Glue(a) + Glue(b)
  {
    if a == [] {
      assert a + b == b;
    } else {
      GlueConcat(a[1..], b);
      assert (a + b)[1..] == a[1..] + b;
    }
  }

  lemma {:induction false} GlueTexts(ts: seq<Part>, end: string)
    requires ts != []
    ensures Glue(Texts(ts, end)) == PrintParts(ts) + end
  {
    if |ts| == 1 {
      assert ts[1..] == [];
    } else {
      GlueTexts(ts[1..], end);
    }
  }

  lemma {:induction false} PrintIsGlue(g: seq<Source>)
    requires IsSet(g) && g != []
    ensures Print(g) == g[0].uuid + Glue(Pieces(g))
  {
    var s, end := g[0], if |g| == 1 then "" else ",\n" + g[1].uuid;
    assert s in g;
    var body, rest := PrintParts(s.parts), Glue(Pieces(g[1..]));
    assert Glue(Pieces(g)) == body + end + rest by {
      GlueConcat(Texts(s.parts, end), Pieces(g[1..]));
      GlueTexts(s.parts, end);
    }
    if |g| > 1 {
      PrintIsGlue(g[1..]);
      Reassociate(s.uuid, body, ",\n", g[1].uuid, rest);
    } else {
      Reassociate(s.uuid, body, "", "", rest);
    }
  }

  lemma Reassociate(a: string, b: string, c: string, d: string, e: string)
    ensures a + b + (c + (d + e)) == a + (b + (c + d) + e)
  {
  }

  lemma IntervalText(t: Part)
    requires t.Interval?
    ensures var p := PrintPart(t);
            ':' !in p && ',' !in p && (t.lo == t.hi ==> '-' !in p) && (t.lo < t.hi ==> IndexOf(p, '-') == |Itoa(t.lo)|)
  {
    var lo, hi := Itoa(t.lo), Itoa(t.hi);
    assert '-' !in lo && ':' !in lo && ':' !in hi && ',' !in lo && ',' !in hi;
    if t.lo != t.hi {
      assert PrintPart(t) == lo + ("-" + hi);
      IndexOfConcat(lo, "-" + hi, '-');
    }
  }

  predicate IsEnd(end: string) {
    ':' !in end && (end == "" || end[0] == ',')
  }

  /** A tag is counted like one transaction. */
  lemma PieceOfTag(number: Conversion, t: Part, end: string)
    requires t.Tag? && IsPart(t) && IsEnd(end)
    ensures ':' !in PrintPart(t) + end && Piece(number, PrintPart(t) + end) == 1
  {
    IndexOfConcat(t.name, end, '-');
    IndexOfConcat(t.name, end, ',');
  }

  lemma PieceIsSize(number: Conversion, t: Part, end: string)
    requires t.Interval? && t.lo <= t.hi && IsEnd(end) && ReadsNumerals(number)
    ensures ':' !in PrintPart(t) + end && Piece(number, PrintPart(t) + end) == Size(t)
  {
    var p := PrintPart(t);
    IntervalText(t);
    IndexOfConcat(p, end, '-');
    IndexOfConcat(p, end, ',');
    if t.lo < t.hi {
      var lo, hi := Itoa(t.lo), Itoa(t.hi);
      assert p == lo + "-" + hi;
      assert (p + end)[..|lo|] == lo && (p + end)[|lo| + 1..|p|] == hi;
    }
  }

  lemma PieceOfPart(number: Conversion, t: Part, end: string)
    requires IsPart(t) && IsEnd(end) && ReadsNumerals(number)
    ensures ':' !in PrintPart(t) + end && Piece(number, PrintPart(t) + end) == Size(t) + if t.Tag? then 1 else 0
  {
    if t.Tag? {
      PieceOfTag(number, t, end);
    } else {
      PieceIsSize(number, t, end);
    }
  }

  lemma {:induction false} SumOfTexts(number: Conversion, ts: seq<Part>, end: string)
    requires ReadsNumerals(number) && IsEnd(end) && forall t | t in ts :: IsPart(t)
    ensures Sum(Worth(number), Texts(ts, end)) == Total(ts) + TagsIn(ts) && forall p | p in Texts(ts, end) :: ':' !in p
  {
    if ts != [] {
      var t := ts[0];
      PieceOfPart(number, t, end);
      PieceOfPart(number, t, "");
      assert PrintPart(t) + "" == PrintPart(t);
      SumOfTexts(number, ts[1..], end);
    }
  }

  lemma {:induction false} SumConcat(worth: Conversion, a: seq<string>, b: seq<string>)
    ensures Sum(worth, a + b) == Sum(worth, a) + Sum(worth, b)
  {
    if a == [] {
      assert a + b == b;
    } else {
      SumConcat(worth, a[1..], b);
      assert (a + b)[1..] == a[1..] + b;
    }
  }

  lemma {:induction false} SumOfPieces(number: Conversion, g: seq<Source>)
    requires IsSet(g) && ReadsNumerals(number)
    ensures Sum(Worth(number), Pieces(g)) == Count(g) + Tags(g) && forall p | p in Pieces(g) :: ':' !in p
  {
    if g != [] {
      var end := if |g| == 1 then "" else ",\n" + g[1].uuid;
      assert g[0] in g && (|g| > 1 ==> g[1] in g);
      SumOfTexts(number, g[0].parts, end);
      SumOfPieces(number, g[1..]);
      SumConcat(Worth(number), Texts(g[0].parts, end), Pieces(g[1..]));
    }
  }

  /** On the normalised text of any GTID set the loop adds up to the number of transactions and one
      more for each tag. */
  lemma PrintedSum(number: Conversion, g: seq<Source>)
    requires IsSet(g) && ReadsNumerals(number)
    ensures Sum(Worth(number), Split(Print(g), ':')[1..]) == Count(g) + Tags(g)
  {
    if g != [] {
      assert g[0] in g;
      SumOfPieces(number, g);
      PrintIsGlue(g);
      JoinIsGlue(g[0].uuid, Pieces(g));
      SplitJoin([g[0].uuid] + Pieces(g), ':');
    }
  }

  lemma {:induction false} NoTagsIn(ts: seq<Part>)
    ensures TagsIn(ts) == 0 <==> forall t | t in ts :: t.Interval?
  {
    if ts != [] {
      NoTagsIn(ts[1..]);
      if TagsIn(ts) == 0 {
        forall t | t in ts ensures t.Interval? {
          assert t == ts[0] || t in ts[1..];
        }
      } else if TagsIn(ts[1..]) > 0 {
        var t :| t in ts[1..] && !t.Interval?;
        assert t in ts;
      } else {
        assert ts[0] in ts;
      }
    }
  }

  lemma {:induction false} NoTagsIff(g: seq<Source>)
    ensures Tags(g) == 0 <==> forall s | s in g :: forall t | t in s.parts :: t.Interval?
  {
    if g != [] {
      NoTagsIn(g[0].parts);
      NoTagsIff(g[1..]);
      assert g == [g[0]] + g[1..];
    }
  }

  /** Counting the text of a set counts the set exactly when it has no tags. */
  method CountSet(number: Conversion, ghost g: seq<Source>, text: string) returns (result: int)
    requires IsSet(g) && ReadsNumerals(number)
    requires text == Print(g)
    ensures result == Count(g) + Tags(g)
    ensures result == Count(g) <==> forall s | s in g :: forall t | t in s.parts :: t.Interval?
  {
    NoTagsIff(g);
    result := GtidCount(number, text);
    PrintedSum(number, g);
  }
}
