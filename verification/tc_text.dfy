/** How tc reads the words of its command line: class ids, decimal counts and netem's settings. */
module TcText {
  import opened Text
  import opened Netem
  import opened NetemWords

  // ---- ids ----

  /** A class is major:minor, a handle major: alone. Both parts are hexadecimal numbers. */
  datatype Id = Id(major: nat, minor: nat)

  predicate IsHexDigit(c: char) {
    IsDigit(c) || 'a' <= c <= 'f' || 'A' <= c <= 'F'
  }

  function HexDigit(c: char): nat {
    if IsDigit(c) then c as int - '0' as int
    else if 'a' <= c <= 'f' then c as int - 'a' as int + 10
    else if 'A' <= c <= 'F' then c as int - 'A' as int + 10
    else 0
  }

  predicate IsHex(s: string) {
    forall i | 0 <= i < |s| :: IsHexDigit(s[i])
  }

  function HexValue(s: string): nat {
    if s == "" then 0 else 16 * HexValue(s[..|s| - 1]) + HexDigit(s[|s| - 1])
  }

  function ReadId(s: string): Option<Id> {
    var i := IndexOf(s, ':');
    if i == 0 || i == |s| || !IsHex(s[..i]) || !IsHex(s[i + 1..]) then None
    else if HexValue(s[..i]) >= 0x1_0000 || HexValue(s[i + 1..]) >= 0x1_0000 then None
    else Some(Id(HexValue(s[..i]), HexValue(s[i + 1..])))
  }

  /** What a decimal numeral of one or two digits stands for in base 16: itself up to 9. */
  function AsHex(k: nat): nat {
    16 * (k / 10) + k % 10
  }

  lemma HexOfItoa(k: nat)
    requires k < 100
    ensures IsHex(Itoa(k)) && HexValue(Itoa(k)) == AsHex(k)
  {
    var s := Itoa(k);
    assert AllDigits(s);
    if k < 10 {
      assert s[..0] == "";
    } else {
      assert s[..|s| - 1] == Itoa(k / 10) && Itoa(k / 10)[..0] == "";
    }
  }

  lemma ReadIdParts(a: string, b: string)
    requires a != "" && IsHex(a) && IsHex(b) && HexValue(a) < 0x1_0000 && HexValue(b) < 0x1_0000
    ensures ReadId(a + ":" + b) == Some(Id(HexValue(a), HexValue(b)))
  {
    var s := a + ":" + b;
    assert s[..|a|] == a;
    IndexOfIs(s, ':', |a|);
    assert s[|a| + 1..] == b;
  }

  /** The id the source prints for class k of the root: 1:10 is class 16. */
  function ClassText(k: nat): string {
    "1:" + Itoa(k)
  }

  function HandleText(k: nat): string {
    Itoa(k) + ":"
  }

  lemma ClassTextReads(k: nat)
    requires k < 100
    ensures ReadId(ClassText(k)) == Some(Id(1, AsHex(k)))
  {
    HexOfItoa(k);
    var one := "1";
    assert one[..0] == "";
    ReadIdParts(one, Itoa(k));
    assert ClassText(k) == one + ":" + Itoa(k);
  }

  lemma HandleTextReads(k: nat)
    requires k < 100
    ensures ReadId(HandleText(k)) == Some(Id(AsHex(k), 0))
  {
    HexOfItoa(k);
    ReadIdParts(Itoa(k), "");
    assert HandleText(k) == Itoa(k) + ":" + "";
  }

  // ---- counts ----

  function ReadCount(s: string): Option<nat> {
    if s == "" || !AllDigits(s) then None else Some(ParseNat(s))
  }

  lemma CountReads(n: nat)
    ensures ReadCount(Itoa(n)) == Some(n)
  {
    ParseItoa(n);
  }

  // ---- netem's settings ----

  function LowerAscii(c: char): char {
    if 'A' <= c <= 'Z' then (c as int + 32) as char else c
  }

  function LowerAll(s: string): string {
    seq(|s|, i requires 0 <= i < |s| => LowerAscii(s[i]))
  }

  /** tc compares units without regard to the case of ASCII letters. Of the units it knows
      these are the ones that can be printed. */
  predicate TcUnit(kind: Kind, u: string) {
    match kind
    case PctKind => u == "" || u == "%"
    case TimeKind => LowerAll(u) in {"", "ms", "us", "s"}
    case RateKind => LowerAll(u) in {"", "bit", "kbit", "mbit", "gbit", "tbit"}
  }

  predicate ReadsAs(kind: Kind, w: string) {
    NumberLen(w) > 0 && TcUnit(kind, w[NumberLen(w)..])
  }

  /** The numbers a setting takes, the first of them required. */
  function Takes(name: string): seq<Kind> {
    if name == "delay" then [TimeKind, TimeKind, PctKind]
    else if name in {"loss", "corrupt", "duplicate", "reorder"} then [PctKind, PctKind]
    else if name == "rate" then [RateKind]
    else []
  }

  predicate ReadsValues(name: string, vs: seq<string>) {
    1 <= |vs| <= |Takes(name)| && forall i | 0 <= i < |vs| :: ReadsAs(Takes(name)[i], vs[i])
  }

  predicate ReadsSettings(words: seq<string>)
    decreases |words|
  {
    words == []
    || (var vs := Numerals(words[1..]);
        ReadsValues(words[0], vs) && |vs| < |words| && ReadsSettings(words[1 + |vs|..]))
  }

  /** tc takes these words behind the class. */
  predicate ReadsNetem(words: seq<string>) {
    words != [] && words[0] == "netem" && ReadsSettings(words[1..])
  }

  predicate GroupReads(g: Group) {
    g.values != [] ==> ReadsValues(g.name, g.values)
  }

  lemma ReadsGroup(g: Group, rest: seq<string>)
    requires IsGroup(g) && (rest == [] || !Numeral(rest[0]))
    ensures ReadsSettings(GroupWords(g) + rest) <==> GroupReads(g) && ReadsSettings(rest)
  {
    if g.values == [] {
      assert GroupWords(g) + rest == rest;
    } else {
      NumeralsBehind(g.values, rest);
      ReadsFirst(GroupWords(g) + rest, g.name, g.values, rest);
    }
  }

  lemma ReadsFirst(words: seq<string>, name: string, vs: seq<string>, rest: seq<string>)
    requires words == [name] + vs + rest && Numerals(vs + rest) == vs
    ensures ReadsSettings(words) <==> ReadsValues(name, vs) && ReadsSettings(rest)
  {
    assert words[1..] == vs + rest && words[1 + |vs|..] == rest;
  }

  lemma {:induction false} ReadsGroups(gs: seq<Group>)
    requires forall g | g in gs :: IsGroup(g)
    ensures ReadsSettings(Flatten(gs)) <==> forall i | 0 <= i < |gs| :: GroupReads(gs[i])
    decreases |gs|
  {
    if gs != [] {
      assert IsGroup(gs[0]) && forall i | 1 <= i < |gs| :: gs[i] == gs[1..][i - 1];
      ReadsGroups(gs[1..]);
      FlattenHead(gs[1..]);
      ReadsGroup(gs[0], Flatten(gs[1..]));
    }
  }

  // ---- which accepted profiles tc reads ----

  /** Of the texts the validator takes for one value, tc reads those spelt in ASCII. */
  lemma ScalarReadsIff(kind: Kind, w: string)
    requires IsScalar(kind, w)
    ensures ReadsAs(kind, w) <==> IsAscii(w)
  {
    var n := NumberLen(w);
    var u := w[n..];
    forall i | 0 <= i < n ensures w[i] < '\U{80}' {
      NumberChars(w, i);
    }
    if IsAscii(w) {
      forall i | 0 <= i < |u| ensures u[i] < '\U{80}' {
        assert u[i] == w[n + i];
      }
      AsciiUnit(kind, u);
    } else {
      var k :| 0 <= k < |w| && w[k] >= '\U{80}';
      assert u[k - n] == w[k];
      ForeignUnit(kind, u, k - n);
    }
  }

  lemma AsciiUnit(kind: Kind, u: string)
    requires IsUnit(kind, u) && IsAscii(u)
    ensures TcUnit(kind, u)
  {
    assert forall i | 0 <= i < |u| :: Fold(u[i]) == LowerAscii(u[i]);
    assert FoldAll(u) == LowerAll(u);
    assert u != "" ==> FoldAll(u)[0] < '\U{80}';
  }

  lemma ForeignUnit(kind: Kind, u: string, k: nat)
    requires k < |u| && u[k] >= '\U{80}'
    ensures !TcUnit(kind, u)
  {
    var f := LowerAll(u);
    assert f[k] == u[k];
    assert kind.PctKind? ==> u != "%";
  }

  lemma DashedUnit(kind: Kind, u: string)
    requires '-' in u
    ensures !TcUnit(kind, u)
  {
    var k :| 0 <= k < |u| && u[k] == '-';
    assert LowerAll(u)[k] == '-';
    assert kind.PctKind? ==> u != "%";
  }

  /** tc reads no text with a dash in it as one number. */
  lemma DashUnread(kind: Kind, w: string)
    requires '-' in w
    ensures !ReadsAs(kind, w)
  {
    var k :| 0 <= k < |w| && w[k] == '-';
    var n := NumberLen(w);
    if k < n {
      NumberChars(w, k);
    } else {
      assert w[n..][k - n] == '-';
      DashedUnit(kind, w[n..]);
    }
  }

  lemma RollKeepsAscii(v: string, u: real)
    requires IsDraw(u) && IsAscii(v) && TrimSpace(v) == v
    ensures IsAscii(RollValue(v, u))
  {
    match MatchRange(v)
    case None =>
    case Some(r) =>
      var unit := if r.hiUnit == "" then r.loUnit else r.hiUnit;
      RangeUnitsAscii(v);
      AsciiConcat(Itoa(RollNumber(NumValue(r.lo), NumValue(r.hi), u)), unit);
  }

  lemma RangeUnitsAscii(v: string)
    requires MatchRange(v).Some? && IsAscii(v)
    ensures IsAscii(MatchRange(v).value.loUnit) && IsAscii(MatchRange(v).value.hiUnit)
  {
    var n := NumberLen(v);
    var k := n + SpanUnit(v[n..]);
    SliceIsAscii(v, n, k);
    SliceIsAscii(v, k + 1, |v|);
    var rest := v[k + 1..];
    SliceIsAscii(rest, NumberLen(rest), |rest|);
  }

  lemma SliceIsAscii(v: string, i: nat, j: nat)
    requires IsAscii(v) && i <= j <= |v|
    ensures IsAscii(v[i..j]) && (j == |v| ==> v[i..j] == v[i..])
  {
  }

  lemma AsciiConcat(a: string, b: string)
    requires AllDigits(a) || IsAscii(a)
    ensures IsAscii(b) ==> IsAscii(a + b)
  {
  }

  /** tc reads what an accepted value rolls to exactly when the value is spelt in ASCII. */
  lemma RolledReadsIff(kind: Kind, v: string, u: real)
    requires IsValue(kind, v) && IsDraw(u)
    ensures ReadsAs(kind, RollValue(v, u)) <==> IsAscii(v)
  {
    var _, _ := ValueShape(kind, v);
    if '-' in v && !IsAscii(v) {
      ForeignRangeStays(kind, v);
      DashUnread(kind, v);
    } else {
      AcceptedRolls(kind, v, u);
      ScalarReadsIff(kind, RollValue(v, u));
      if IsAscii(v) {
        RollKeepsAscii(v, u);
      } else {
        ScalarStays(kind, v, u);
      }
    }
  }

  lemma PctIsAscii(s: string)
    requires IsScalar(PctKind, s)
    ensures IsAscii(s)
  {
    var n := NumberLen(s);
    forall i | 0 <= i < |s| ensures s[i] < '\U{80}' {
      if i < n {
        NumberChars(s, i);
      } else {
        assert s[n..][i - n] == s[i];
      }
    }
  }

  /** Percentages are always spelt in ASCII and always read. */
  lemma PctReads(v: string, u: real)
    requires IsValue(PctKind, v) && v != "" && IsDraw(u)
    ensures IsAscii(v) && ReadsAs(PctKind, RollPct(v, u))
  {
    var p, q := ValueShape(PctKind, v);
    if '-' in v {
      PctIsAscii(p);
      PctIsAscii(q);
    } else {
      PctIsAscii(v);
    }
    assert TrimSpace(v) == v;
    AcceptedRolls(PctKind, v, u);
    SignedPct(RollValue(v, u));
    PctIsAscii(RollPct(v, u));
    ScalarReadsIff(PctKind, RollPct(v, u));
  }

  /** The field is written at all: a jitter only behind a delay, a correlation only behind a loss. */
  predicate Printed(p: Params, f: Field) {
    p.Get(f) != "" && (f == Jitter ==> p.delay != "" || p.reorder != "") && (f == LossCorr ==> p.loss != "")
  }

  /** Every field that is written is spelt in ASCII: no µs, and no letter that only folds to one. */
  predicate Plain(p: Params) {
    forall f: Field | Printed(p, f) :: IsAscii(p.Get(f))
  }

  lemma TwoReads(name: string, kind: Kind, x: string, y: string)
    requires x != "" && |Takes(name)| >= 2 && Takes(name)[0] == Takes(name)[1] == kind
    ensures ReadsValues(name, Two(x, y)) <==> ReadsAs(kind, x) && (y != "" ==> ReadsAs(kind, y))
  {
    assert y != "" ==> Two(x, y)[0] == x && Two(x, y)[1] == y;
  }

  lemma OneReads(name: string, kind: Kind, x: string)
    requires x != "" && |Takes(name)| >= 1 && Takes(name)[0] == kind
    ensures ReadsValues(name, One(x)) <==> ReadsAs(kind, x)
  {
  }

  lemma GroupsRead(r: Params)
    requires Rolled(r)
    ensures ReadsNetem(["netem"] + Flatten(Groups(r))) <==> forall i | 0 <= i < 6 :: GroupReads(Groups(r)[i])
  {
    GroupsAre(r);
    ReadsGroups(Groups(r));
    assert (["netem"] + Flatten(Groups(r)))[1..] == Flatten(Groups(r));
  }

  predicate FieldReads(p: Params, r: Params, f: Field) {
    && FieldFrom(p, r, f)
    && (r.Get(f) != "" ==> (ReadsAs(KindOf(f), r.Get(f)) <==> IsAscii(p.Get(f))))
  }

  predicate PlainField(p: Params, f: Field) {
    Printed(p, f) ==> IsAscii(p.Get(f))
  }

  lemma TenMsReads()
    ensures ReadsAs(TimeKind, "10ms")
  {
    var w := "10ms";
    assert w == "10" + "ms";
    DigitsAreNumber("10", "ms");
    assert w[2..] == "ms" && LowerAll("ms") == "ms";
  }

  lemma DelayGroupReads(p: Params, r: Params)
    requires FieldReads(p, r, Delay) && FieldReads(p, r, Jitter) && FieldReads(p, r, Reorder)
    ensures GroupReads(Groups(r)[0]) <==> PlainField(p, Delay) && PlainField(p, Jitter)
  {
    var delay := if r.reorder != "" && r.delay == "" then "10ms" else r.delay;
    assert r.Get(Delay) == r.delay && r.Get(Jitter) == r.jitter && r.Get(Reorder) == r.reorder;
    assert p.Get(Delay) == p.delay && p.Get(Jitter) == p.jitter && p.Get(Reorder) == p.reorder;
    if delay != "" {
      TenMsReads();
      TwoReads("delay", TimeKind, delay, r.jitter);
    }
  }

  lemma LossGroupReads(p: Params, r: Params)
    requires FieldReads(p, r, Loss) && FieldReads(p, r, LossCorr)
    ensures GroupReads(Groups(r)[1]) <==> PlainField(p, Loss) && PlainField(p, LossCorr)
  {
    assert r.Get(Loss) == r.loss && r.Get(LossCorr) == r.lossCorr && p.Get(Loss) == p.loss && p.Get(LossCorr) == p.lossCorr;
    if r.loss != "" {
      TwoReads("loss", PctKind, r.loss, r.lossCorr);
    }
  }

  lemma SingleGroupReads(p: Params, r: Params, f: Field, name: string)
    requires FieldReads(p, r, f) && (f == Corrupt || f == Duplicate || f == Reorder || f == Rate)
    requires |Takes(name)| >= 1 && Takes(name)[0] == KindOf(f)
    ensures GroupReads(Group(name, One(r.Get(f)))) <==> PlainField(p, f)
  {
    if r.Get(f) != "" {
      OneReads(name, KindOf(f), r.Get(f));
    }
  }

  /** The fields written in the i-th group are spelt in ASCII. */
  predicate PlainGroup(p: Params, i: nat) {
    if i == 0 then PlainField(p, Delay) && PlainField(p, Jitter)
    else if i == 1 then PlainField(p, Loss) && PlainField(p, LossCorr)
    else if i == 2 then PlainField(p, Corrupt)
    else if i == 3 then PlainField(p, Duplicate)
    else if i == 4 then PlainField(p, Reorder)
    else PlainField(p, Rate)
  }

  predicate FieldsRead(p: Params, r: Params) {
    forall f: Field :: FieldReads(p, r, f)
  }

  lemma GroupReadsIff(p: Params, r: Params, i: nat)
    requires FieldsRead(p, r) && i < 6
    ensures GroupReads(Groups(r)[i]) <==> PlainGroup(p, i)
  {
    match i
    case 0 =>
      assert FieldReads(p, r, Delay) && FieldReads(p, r, Jitter) && FieldReads(p, r, Reorder);
      DelayGroupReads(p, r);
    case 1 =>
      assert FieldReads(p, r, Loss) && FieldReads(p, r, LossCorr);
      LossGroupReads(p, r);
    case _ => OneGroupReadsIff(p, r, i);
  }

  lemma OneGroupReadsIff(p: Params, r: Params, i: nat)
    requires FieldsRead(p, r) && 2 <= i < 6
    ensures GroupReads(Groups(r)[i]) <==> PlainGroup(p, i)
  {
    var f := [Corrupt, Duplicate, Reorder, Rate][i - 2];
    assert FieldReads(p, r, f);
    match i
    case 2 => SingleGroupReads(p, r, Corrupt, "corrupt");
    case 3 => SingleGroupReads(p, r, Duplicate, "duplicate");
    case 4 => SingleGroupReads(p, r, Reorder, "reorder");
    case _ => SingleGroupReads(p, r, Rate, "rate");
  }

  function GroupOf(f: Field): (i: nat)
    ensures i < 6
  {
    match f
    case Delay => 0
    case Jitter => 0
    case Loss => 1
    case LossCorr => 1
    case Corrupt => 2
    case Duplicate => 3
    case Reorder => 4
    case Rate => 5
  }

  lemma GroupGivesField(p: Params, f: Field)
    requires PlainGroup(p, GroupOf(f))
    ensures PlainField(p, f)
  {
    match f
    case Delay =>
    case Jitter =>
    case Loss =>
    case LossCorr =>
    case Corrupt =>
    case Duplicate =>
    case Reorder =>
    case Rate =>
  }

  lemma AllGroupsPlain(p: Params)
    ensures (forall i | 0 <= i < 6 :: PlainGroup(p, i)) <==> Plain(p)
  {
    if forall i | 0 <= i < 6 :: PlainGroup(p, i) {
      forall f: Field ensures PlainField(p, f) {
        GroupGivesField(p, f);
      }
      forall f: Field | Printed(p, f) ensures IsAscii(p.Get(f)) {
        assert PlainField(p, f);
      }
    }
  }

  lemma FieldsReadIff(p: Params, r: Params)
    requires Rolled(r) && FieldsRead(p, r)
    ensures ReadsNetem(["netem"] + Flatten(Groups(r))) <==> Plain(p)
  {
    GroupsRead(r);
    forall i | 0 <= i < 6 ensures GroupReads(Groups(r)[i]) <==> PlainGroup(p, i) {
      GroupReadsIff(p, r, i);
    }
    AllGroupsPlain(p);
  }

  function DrawOf(d: Draws, f: Field): real {
    match f
    case Delay => d.delay
    case Jitter => d.jitter
    case Loss => d.loss
    case LossCorr => d.lossCorr
    case Corrupt => d.corrupt
    case Duplicate => d.duplicate
    case Reorder => d.reorder
    case Rate => d.rate
  }

  lemma RolledField(p: Params, d: Draws, f: Field)
    requires d.InUnit()
    ensures IsDraw(DrawOf(d, f))
    ensures RollAll(p, d).Get(f) == if KindOf(f).PctKind? then RollPct(p.Get(f), DrawOf(d, f)) else RollValue(p.Get(f), DrawOf(d, f))
  {
    match f
    case Delay =>
    case Jitter =>
    case Loss =>
    case LossCorr =>
    case Corrupt =>
    case Duplicate =>
    case Reorder =>
    case Rate =>
  }

  lemma FieldReadsAs(p: Params, d: Draws, f: Field)
    requires Valid(p) && d.InUnit()
    ensures FieldReads(p, RollAll(p, d), f)
  {
    RolledField(p, d, f);
    OneRolled(p, d, f);
    if p.Get(f) != "" {
      if KindOf(f).PctKind? {
        PctReads(p.Get(f), DrawOf(d, f));
      } else {
        RolledReadsIff(KindOf(f), p.Get(f), DrawOf(d, f));
      }
    }
  }

  lemma AllFieldsRead(p: Params, d: Draws)
    requires Valid(p) && d.InUnit()
    ensures FieldsRead(p, RollAll(p, d))
  {
    forall f: Field ensures FieldReads(p, RollAll(p, d), f) {
      FieldReadsAs(p, d, f);
    }
  }

  lemma WordsReadIff(p: Params, r: Params)
    requires RolledFrom(p, r) && FieldsRead(p, r)
    ensures ReadsNetem(Words(r, p.rate != "")) <==> Plain(p)
  {
    RolledWordsRead(p, r);
    assert Rolled(r) by {
      forall f: Field ensures r.Get(f) == "" || Numeral(r.Get(f)) {
        assert FieldFrom(p, r, f);
      }
    }
    FieldsReadIff(p, r);
  }

  /** tc reads the arguments of an accepted profile, whatever is drawn, exactly when the fields
      that are written are spelt in ASCII. */
  lemma ArgsReadIff(p: Params, d: Draws)
    requires Valid(p) && d.InUnit()
    ensures ReadsNetem(NetemArgs(p, d)) <==> Plain(p)
  {
    AllRolled(p, d);
    AllFieldsRead(p, d);
    WordsReadIff(p, RollAll(p, d));
  }
}
