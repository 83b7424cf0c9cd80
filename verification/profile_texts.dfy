/** What a profile's texts mean: which arguments name which field, which values the validator
    lets through, character by character, and which time a tidied value stands for. */
module ProfileTexts {
  import opened Text
  import opened Netem

  // ---- spaces ----

  lemma {:induction false} CleanConcat(a: string, b: string)
    ensures CleanSpaces(a + b) == CleanSpaces(a) + CleanSpaces(b)
  {
    if a == "" {
      assert a + b == b;
    } else {
      assert (a + b)[1..] == a[1..] + b;
      CleanConcat(a[1..], b);
    }
  }

  lemma {:induction false} CleanBlank(s: string)
    requires Blank(s)
    ensures CleanSpaces(s) == ""
  {
    if s != "" {
      CleanBlank(s[1..]);
    }
  }

  /** Cleaning drops a run of spaces wherever it stands and leaves what has none as it is. */
  lemma CleanReads(a: string, gap: string, b: string)
    requires Blank(gap)
    ensures CleanSpaces(a + gap + b) == CleanSpaces(a) + CleanSpaces(b)
    ensures NoSpaces(a) ==> CleanSpaces(a) == a
  {
    CleanConcat(a + gap, b);
    CleanConcat(a, gap);
    CleanBlank(gap);
    assert CleanSpaces(a) + "" == CleanSpaces(a);
  }

  lemma {:induction false} CleanTrimmed(s: string)
    ensures CleanSpaces(TrimSpace(s)) == CleanSpaces(s)
    decreases |s|
  {
    if s == "" {
    } else if IsSpace(s[0]) {
      CleanTrimmed(s[1..]);
      DropFirst(s);
    } else if IsSpace(s[|s| - 1]) {
      CleanTrimmed(s[..|s| - 1]);
      DropLast(s);
    }
  }

  lemma DropFirst(s: string)
    requires s != "" && IsSpace(s[0])
    ensures CleanSpaces(s) == CleanSpaces(s[1..])
  {
    assert [] + CleanSpaces(s[1..]) == CleanSpaces(s[1..]);
  }

  lemma DropLast(s: string)
    requires s != "" && IsSpace(s[|s| - 1])
    ensures CleanSpaces(s) == CleanSpaces(s[..|s| - 1])
  {
    var init, last := s[..|s| - 1], [s[|s| - 1]];
    assert s == init + last;
    CleanConcat(init, last);
    CleanBlank(last);
    assert CleanSpaces(init) + "" == CleanSpaces(init);
  }

  // ---- the names of the fields ----

  /** The names a field goes by. */
  function Names(f: Field): set<string> {
    match f
    case Delay => {"delay", "latency"}
    case Jitter => {"jitter"}
    case Loss => {"loss"}
    case LossCorr => {"corr", "losscorr", "burst"}
    case Corrupt => {"corrupt"}
    case Duplicate => {"dup", "duplicate"}
    case Reorder => {"reorder"}
    case Rate => {"rate", "bw", "bandwidth"}
  }

  /** The capitals of a letter: its own, and the two characters outside ASCII whose small letter
      is k or i. */
  predicate IsCapital(c: char, small: char) {
    || ('A' <= c <= 'Z' && c as int + 32 == small as int)
    || (c == '\U{212a}' && small == 'k') || (c == '\U{130}' && small == 'i')
  }

  /** w spells a name, in small letters or capitals. */
  predicate Spells(w: string, name: string) {
    |w| == |name| && forall i | 0 <= i < |w| :: w[i] == name[i] || IsCapital(w[i], name[i])
  }

  /** One argument: a name with spaces around and its value. */
  datatype Setting = Setting(field: Field, pre: string, name: string, post: string, value: string)
  {
    ghost predicate Ok() {
      Blank(pre) && Blank(post) && exists n :: n in Names(field) && Spells(name, n)
    }

    function Text(): string {
      pre + name + post + "=" + value
    }
  }

  ghost predicate AllOk(ss: seq<Setting>) {
    forall s | s in ss :: s.Ok()
  }

  function TextsOf(ss: seq<Setting>): (ts: seq<string>)
    ensures |ts| == |ss| && forall i | 0 <= i < |ss| :: ts[i] == ss[i].Text()
  {
    seq(|ss|, i requires 0 <= i < |ss| => ss[i].Text())
  }

  /** The profile with one setting after the other put in. */
  function PutSettings(ss: seq<Setting>): Params {
    if ss == [] then NO_PARAMS
    else PutSettings(ss[..|ss| - 1]).Put(ss[|ss| - 1].field, ss[|ss| - 1].value)
  }

  lemma NamesAreWords(f: Field, n: string)
    requires n in Names(f)
    ensures n != "" && forall i | 0 <= i < |n| :: 'a' <= n[i] <= 'z'
  {
  }

  /** The texts whose small letters are a name are those that spell it. */
  lemma SpellsIff(w: string, name: string)
    requires forall i | 0 <= i < |name| :: 'a' <= name[i] <= 'z'
    ensures ToLower(w) == name <==> Spells(w, name)
  {
    if Spells(w, name) {
      assert forall i | 0 <= i < |w| :: Lower(w[i]) == name[i];
    }
    if ToLower(w) == name {
      forall i | 0 <= i < |w| ensures w[i] == name[i] || IsCapital(w[i], name[i]) {
        assert name[i] == Lower(w[i]);
      }
    }
  }

  lemma SpellingIsWord(w: string, name: string)
    requires Spells(w, name) && name != "" && forall i | 0 <= i < |name| :: 'a' <= name[i] <= 'z'
    ensures ToLower(w) == name && NoSpaces(w) && '=' !in w && w != ""
  {
    SpellsIff(w, name);
    forall i | 0 <= i < |w| ensures !IsSpace(w[i]) && w[i] != '=' {
      assert w[i] == name[i] || IsCapital(w[i], name[i]);
    }
  }

  lemma KeyOfName(f: Field, n: string)
    requires n in Names(f)
    ensures KeyField(n) == Some(f)
  {
  }

  lemma BlankHasNoEquals(s: string)
    requires Blank(s)
    ensures '=' !in s
  {
  }

  /** An argument is split at its equals sign, and its name names its field. */
  lemma SettingReads(s: Setting)
    requires s.Ok()
    ensures IsAssignment(s.Text()) && KeyOf(s.Text()) == Some(s.field) && ValueOf(s.Text()) == TrimSpace(s.value)
  {
    var n :| n in Names(s.field) && Spells(s.name, n);
    NamesAreWords(s.field, n);
    SpellingIsWord(s.name, n);
    KeyOfName(s.field, n);
    TrimIs(s.pre, s.name, s.post);
    BlankHasNoEquals(s.pre);
    BlankHasNoEquals(s.post);
    var key := s.pre + s.name + s.post;
    CutAtEquals(key, s.value);
  }

  lemma CutAtEquals(key: string, value: string)
    requires '=' !in key
    ensures var a := key + "=" + value;
            IndexOf(a, '=') == |key| < |a| && a[..|key|] == key && a[|key| + 1..] == value
  {
    var a := key + "=" + value;
    assert a[..|key|] == key;
    IndexOfIs(a, '=', |key|);
  }

  /** The last value of every field is that of the profile, trimmed. */
  predicate LastAre(args: seq<string>, p: Params)
    requires AllAssignments(args)
  {
    forall f: Field :: LastValue(args, f) == TrimSpace(p.Get(f))
  }

  lemma LastAreSnoc(args: seq<string>, p: Params, s: Setting)
    requires AllAssignments(args) && LastAre(args, p) && s.Ok()
    ensures AllAssignments(args + [s.Text()]) && LastAre(args + [s.Text()], p.Put(s.field, s.value))
  {
    SettingReads(s);
    LastValueSnoc(args, s.Text());
    PutGet(p, s.field, s.value);
  }

  lemma NoneAre()
    ensures LastAre([], NO_PARAMS)
  {
  }

  lemma PutSnoc(ss: seq<Setting>, s: Setting)
    ensures PutSettings(ss + [s]) == PutSettings(ss).Put(s.field, s.value)
    ensures TextsOf(ss + [s]) == TextsOf(ss) + [s.Text()]
  {
    assert (ss + [s])[..|ss|] == ss;
  }

  lemma {:induction false} SettingsRead(ss: seq<Setting>)
    requires AllOk(ss)
    ensures AllAssignments(TextsOf(ss)) && LastAre(TextsOf(ss), PutSettings(ss))
    decreases |ss|
  {
    if ss == [] {
      NoneAre();
    } else {
      var init, last := ss[..|ss| - 1], ss[|ss| - 1];
      assert ss == init + [last];
      SettingsRead(init);
      PutSnoc(init, last);
      LastAreSnoc(TextsOf(init), PutSettings(init), last);
    }
  }

  lemma NormTrimmed(s: string)
    ensures NormTime(TrimSpace(s)) == NormTime(s)
  {
    CleanTrimmed(s);
  }

  /** Arguments that spell their names right ask for the profile with one value put in after the
      other, tidied. */
  lemma SettingsAsk(ss: seq<Setting>)
    requires AllOk(ss)
    ensures AllAssignments(TextsOf(ss)) && Requested(TextsOf(ss)) == Normalize(PutSettings(ss))
  {
    SettingsRead(ss);
    var p, args := PutSettings(ss), TextsOf(ss);
    assert LastValue(args, Delay) == TrimSpace(p.delay) && LastValue(args, Jitter) == TrimSpace(p.jitter);
    assert LastValue(args, Loss) == TrimSpace(p.loss) && LastValue(args, LossCorr) == TrimSpace(p.lossCorr);
    assert LastValue(args, Corrupt) == TrimSpace(p.corrupt) && LastValue(args, Duplicate) == TrimSpace(p.duplicate);
    assert LastValue(args, Reorder) == TrimSpace(p.reorder) && LastValue(args, Rate) == TrimSpace(p.rate);
    NormTrimmed(p.delay);
    NormTrimmed(p.jitter);
    CleanTrimmed(p.loss);
    CleanTrimmed(p.lossCorr);
    CleanTrimmed(p.corrupt);
    CleanTrimmed(p.duplicate);
    CleanTrimmed(p.reorder);
    CleanTrimmed(p.rate);
  }

  /** A profile as the usage text spells it. */
  function Spelled(p: Params): seq<Setting> {
    [Setting(Delay, "", "delay", "", p.delay), Setting(Jitter, "", "jitter", "", p.jitter),
     Setting(Loss, "", "loss", "", p.loss), Setting(LossCorr, "", "corr", "", p.lossCorr),
     Setting(Corrupt, "", "corrupt", "", p.corrupt), Setting(Duplicate, "", "dup", "", p.duplicate),
     Setting(Reorder, "", "reorder", "", p.reorder), Setting(Rate, "", "rate", "", p.rate)]
  }

  lemma PutTaken(ss: seq<Setting>, i: nat)
    requires i < |ss|
    ensures PutSettings(ss[..i + 1]) == PutSettings(ss[..i]).Put(ss[i].field, ss[i].value)
  {
    assert ss[..i + 1][..i] == ss[..i];
  }

  lemma FirstFour(p: Params)
    ensures PutSettings(Spelled(p)[..4]) == Params(p.delay, p.jitter, p.loss, p.lossCorr, "", "", "", "")
  {
    var ss := Spelled(p);
    PutTaken(ss, 0);
    PutTaken(ss, 1);
    PutTaken(ss, 2);
    PutTaken(ss, 3);
  }

  lemma SpelledPuts(p: Params)
    ensures PutSettings(Spelled(p)) == p
  {
    var ss := Spelled(p);
    FirstFour(p);
    PutTaken(ss, 4);
    PutTaken(ss, 5);
    PutTaken(ss, 6);
    PutTaken(ss, 7);
    assert ss[..8] == ss;
  }

  lemma SpelledOk(p: Params)
    ensures AllOk(Spelled(p))
  {
    forall s | s in Spelled(p) ensures s.Ok() {
      assert Spells(s.name, s.name) && s.name in Names(s.field);
    }
  }

  /** A profile spelled out as arguments is read back, tidied, and is accepted exactly when the
      tidied profile is valid. */
  lemma SpelledReadsBack(p: Params)
    ensures AllAssignments(TextsOf(Spelled(p))) && Requested(TextsOf(Spelled(p))) == Normalize(p)
  {
    SpelledOk(p);
    SpelledPuts(p);
    SettingsAsk(Spelled(p));
  }

  /** w spells a name of some field. */
  ghost predicate SpellsSome(w: string) {
    exists f: Field, n :: n in Names(f) && Spells(w, n)
  }

  /** No other name is read: an argument is an assignment exactly when it has an equals sign and
      what stands before the first one, spaces around it aside, spells a name of a field. */
  lemma IsAssignmentIff(arg: string)
    ensures IsAssignment(arg) <==>
              '=' in arg && SpellsSome(TrimSpace(arg[..IndexOf(arg, '=')]))
  {
    NameIff(TrimSpace(arg[..IndexOf(arg, '=')]));
    assert '=' !in arg ==> IndexOf(arg, '=') == |arg|;
    assert IndexOf(arg, '=') == |arg| ==> arg[..IndexOf(arg, '=')] == arg;
  }

  lemma NameIff(w: string)
    ensures KeyField(ToLower(w)).Some? <==> SpellsSome(w)
  {
    var key := ToLower(w);
    if KeyField(key).Some? {
      assert key in Names(KeyField(key).value);
      NamesAreWords(KeyField(key).value, key);
      SpellsIff(w, key);
    }
    if f: Field, n :| n in Names(f) && Spells(w, n) {
      NamesAreWords(f, n);
      SpellsIff(w, n);
      KeyOfName(f, n);
    }
  }

  // ---- what the validator lets through ----

  /** Digits, and maybe a dot with digits behind it. */
  predicate IsDecimal(whole: string, fraction: string) {
    && whole != "" && AllDigits(whole)
    && (fraction != "" ==> fraction[0] == '.' && |fraction| > 1 && AllDigits(fraction[1..]))
  }

  lemma {:induction false} ParseConcat(a: string, b: string)
    ensures ParseNat(a + b) == ParseNat(a) * Pow10(|b|) + ParseNat(b)
    decreases |b|
  {
    if b == "" {
      assert a + b == a;
    } else {
      var init, last := b[..|b| - 1], b[|b| - 1];
      assert (a + b)[..|a + b| - 1] == a + init && (a + b)[|a + b| - 1] == last;
      ParseConcat(a, init);
      Shift(ParseNat(a), Pow10(|init|), ParseNat(init), DigitValue(last));
    }
  }

  lemma Shift(x: nat, p: nat, y: nat, d: nat)
    ensures 10 * (x * p + y) + d == x * (10 * p) + (10 * y + d)
  {
    assert 10 * (x * p) == x * (10 * p);
  }

  /** How many digits follow the dot. */
  function Places(fraction: string): nat {
    if fraction == "" then 0 else |fraction| - 1
  }

  /** All digits without the dot. */
  function Undotted(whole: string, fraction: string): string {
    if fraction == "" then whole else whole + fraction[1..]
  }

  /** v is n divided by p. */
  predicate IsQuotient(v: real, n: nat, p: nat) {
    v * p as real == n as real
  }

  lemma DivideBack(v: real, a: nat, b: nat, n: nat, p: nat)
    requires p > 0 && v == a as real + b as real / p as real && n == a * p + b
    ensures IsQuotient(v, n, p)
  {
    var q := b as real / p as real;
    assert q * p as real == b as real;
    assert (a as real + q) * p as real == a as real * p as real + q * p as real;
    assert (a * p) as real == a as real * p as real;
  }

  lemma NumberIs(whole: string, fraction: string)
    requires IsDecimal(whole, fraction)
    ensures NumValue(whole + fraction) == ParseNat(whole) as real +
              if fraction == "" then 0.0 else ParseNat(fraction[1..]) as real / Pow10(|fraction| - 1) as real
  {
    var s, i := whole + fraction, |whole|;
    assert forall k | 0 <= k < i :: s[k] == whole[k];
    SpanDigitsIs(s, i);
    assert s[..i] == whole;
    if fraction == "" {
      assert s == whole;
    } else {
      assert s[i + 1..] == fraction[1..];
    }
  }

  /** The value of a decimal number is that of its digits, moved behind the dot. */
  lemma NumberReads(whole: string, fraction: string)
    requires IsDecimal(whole, fraction)
    ensures IsQuotient(NumValue(whole + fraction), ParseNat(Undotted(whole, fraction)), Pow10(Places(fraction)))
  {
    NumberIs(whole, fraction);
    if fraction == "" {
      Unscaled(NumValue(whole + fraction), ParseNat(whole), Pow10(0));
    } else {
      var digits := fraction[1..];
      ParseConcat(whole, digits);
      DivideBack(NumValue(whole + fraction), ParseNat(whole), ParseNat(digits), ParseNat(whole + digits), Pow10(|digits|));
    }
  }

  lemma Unscaled(v: real, n: nat, p: nat)
    requires p == 1 && v == n as real
    ensures IsQuotient(v, n, p)
  {
  }

  lemma AtMostHundredIff(whole: string, fraction: string)
    requires IsDecimal(whole, fraction)
    ensures NumValue(whole + fraction) <= 100.0 <==> ParseNat(Undotted(whole, fraction)) <= 100 * Pow10(Places(fraction))
  {
    NumberReads(whole, fraction);
    AtMostHundred(NumValue(whole + fraction), ParseNat(Undotted(whole, fraction)), Pow10(Places(fraction)));
  }

  lemma {:induction false} NumberSplits(s: string) returns (whole: string, fraction: string)
    requires NumberLen(s) > 0
    ensures IsDecimal(whole, fraction) && s[..NumberLen(s)] == whole + fraction
    decreases |s|
  {
    if |s| > 1 && IsDigit(s[1]) {
      var w, f := NumberSplits(s[1..]);
      whole, fraction := [s[0]] + w, f;
      assert s[..NumberLen(s)] == [s[0]] + s[1..][..NumberLen(s) - 1];
      assert whole + fraction == [s[0]] + (w + f);
    } else {
      var n := FractionLen(s[1..]);
      whole, fraction := s[..1], s[1..][..n];
      assert s[..1 + n] == whole + fraction;
      if n > 0 {
        assert fraction[1..] == s[1..][1..][..n - 1];
      }
    }
  }

  lemma FractionReads(fraction: string, u: string)
    requires fraction != "" ==> fraction[0] == '.' && |fraction| > 1 && AllDigits(fraction[1..])
    requires u == "" || (!IsDigit(u[0]) && u[0] != '.')
    ensures FractionLen(fraction + u) == |fraction|
  {
    if fraction == "" {
      assert fraction + u == u;
    } else {
      var digits := fraction[1..];
      assert (fraction + u)[1..] == digits + u;
      assert forall k | 0 <= k < |digits| :: (digits + u)[k] == digits[k];
      SpanDigitsIs(digits + u, |digits|);
    }
  }

  lemma {:induction false} DecimalLen(whole: string, fraction: string, u: string)
    requires IsDecimal(whole, fraction) && (u == "" || (!IsDigit(u[0]) && u[0] != '.'))
    ensures NumberLen(whole + (fraction + u)) == |whole + fraction|
    decreases |whole|
  {
    var s, rest := whole + (fraction + u), fraction + u;
    assert s[1..] == whole[1..] + rest;
    if |whole| > 1 {
      DecimalLen(whole[1..], fraction, u);
    } else {
      assert s[1..] == rest;
      FractionReads(fraction, u);
      assert rest == "" || !IsDigit(rest[0]);
    }
  }

  /** A text with these parts in a row, at most 100 if it is a percentage. */
  predicate IsSpelt(kind: Kind, s: string, whole: string, fraction: string, unit: string) {
    && s == whole + (fraction + unit) && IsDecimal(whole, fraction) && IsUnit(kind, unit)
    && (kind.PctKind? ==> ParseNat(Undotted(whole, fraction)) <= 100 * Pow10(Places(fraction)))
  }

  /** A single value is a decimal number and a unit of its kind; a percentage is at most 100. */
  lemma IsScalarIff(kind: Kind, s: string)
    ensures IsScalar(kind, s) <==> exists whole, fraction, unit :: IsSpelt(kind, s, whole, fraction, unit)
  {
    if IsScalar(kind, s) {
      var whole, fraction := ScalarSplits(kind, s);
    }
    if whole, fraction, unit :| IsSpelt(kind, s, whole, fraction, unit) {
      SpeltIsScalar(kind, s, whole, fraction, unit);
    }
  }

  lemma ScalarSplits(kind: Kind, s: string) returns (whole: string, fraction: string)
    requires IsScalar(kind, s)
    ensures IsSpelt(kind, s, whole, fraction, s[NumberLen(s)..])
  {
    var n := NumberLen(s);
    whole, fraction := NumberSplits(s);
    assert s == s[..n] + s[n..];
    assert whole + (fraction + s[n..]) == (whole + fraction) + s[n..];
    AtMostHundredIff(whole, fraction);
  }

  lemma AtMostHundred(v: real, n: nat, p: nat)
    requires p > 0 && IsQuotient(v, n, p)
    ensures v <= 100.0 <==> n <= 100 * p
  {
    if v <= 100.0 {
      ProductNotNegative(100.0 - v, p as real);
      assert (100.0 - v) * p as real == (100 * p) as real - n as real;
    } else {
      ProductPositive(v - 100.0, p as real);
      assert (v - 100.0) * p as real == n as real - (100 * p) as real;
    }
  }

  lemma SpeltIsScalar(kind: Kind, s: string, whole: string, fraction: string, unit: string)
    requires IsSpelt(kind, s, whole, fraction, unit)
    ensures IsScalar(kind, s) && NumberLen(s) == |whole + fraction| && NumberOf(s) == NumValue(whole + fraction)
    ensures s[NumberLen(s)..] == unit
  {
    if unit != "" {
      UnitChars(kind, unit, 0);
    }
    DecimalLen(whole, fraction, unit);
    var n := |whole + fraction|;
    assert s == (whole + fraction) + unit;
    assert s[..n] == whole + fraction && s[n..] == unit;
    AtMostHundredIff(whole, fraction);
  }

  /** A value is one of these, or two with a dash between them. */
  lemma IsValueIff(kind: Kind, v: string)
    ensures IsValue(kind, v) <==>
              IsScalar(kind, v) || exists p, q :: IsScalar(kind, p) && IsScalar(kind, q) && v == p + "-" + q
  {
    if IsValue(kind, v) {
      var p, q := ValueShape(kind, v);
    }
    if IsScalar(kind, v) {
      ScalarIsValue(kind, v);
    }
    if p, q :| IsScalar(kind, p) && IsScalar(kind, q) && v == p + "-" + q {
      ScalarChars(kind, p);
      ScalarChars(kind, q);
      SplitJoin([p, q], '-');
      assert Join([p, q], '-') == v by {
        JoinFew([p, q], '-');
      }
    }
  }

  predicate IsSmallS(c: char) {
    c == 's' || c == 'S' || c == '\U{17f}'
  }

  predicate IsMicro(c: char) {
    c == 'u' || c == 'U' || c == '\U{b5}' || c == '\U{3bc}' || c == '\U{39c}'
  }

  /** The units of a time, character by character: none, s, or m, u or µ before s. */
  lemma TimeUnitIff(u: string)
    ensures IsUnit(TimeKind, u) <==>
              || u == "" || (|u| == 1 && IsSmallS(u[0]))
              || (|u| == 2 && (u[0] == 'm' || u[0] == 'M' || IsMicro(u[0])) && IsSmallS(u[1]))
  {
    var f := FoldAll(u);
    assert |u| == 1 ==> f == [Fold(u[0])];
    assert |u| == 2 ==> f == [Fold(u[0]), Fold(u[1])];
    assert "ms" == ['m', 's'] && "us" == ['u', 's'] && "s" == ['s'];
  }

  /** The units of a rate: none, or bit, with k, m, g or t before it or not. */
  lemma RateUnitIff(u: string)
    ensures IsUnit(RateKind, u) <==>
              || u == ""
              || ((|u| == 3 || (|u| == 4 && (u[0] in "kmgtKMGT" || u[0] == '\U{212a}')))
                  && u[|u| - 3] in "bB" && u[|u| - 2] in "iI" && u[|u| - 1] in "tT")
  {
    var f := FoldAll(u);
    assert |u| == 3 ==> f == [Fold(u[0]), Fold(u[1]), Fold(u[2])];
    assert |u| == 4 ==> f == [Fold(u[0]), Fold(u[1]), Fold(u[2]), Fold(u[3])];
    assert "bit" == ['b', 'i', 't'] && "kbit" == ['k', 'b', 'i', 't'] && "mbit" == ['m', 'b', 'i', 't'];
    assert "gbit" == ['g', 'b', 'i', 't'] && "tbit" == ['t', 'b', 'i', 't'];
  }

  // ---- which time a delay stands for ----

  /** The microseconds in a unit, 0 for what is none. */
  function UnitMicros(u: string): nat {
    var f := FoldAll(u);
    if f == "s" then 1_000_000
    else if f == "ms" then 1_000
    else if f == "us" || f == "\U{b5}s" then 1
    else 0
  }

  function UnitPart(s: string): string {
    s[NumberLen(s)..]
  }

  function Times(v: real, k: nat): real {
    v * k as real
  }

  /** The microseconds a number with its unit names. */
  function Micros(s: string): Option<real> {
    if NumberLen(s) == 0 || UnitMicros(UnitPart(s)) == 0 then None
    else Some(Times(NumberOf(s), UnitMicros(UnitPart(s))))
  }

  /** What the unit of a value, or its absence, makes of its number. */
  function ScaleOf(s: string): nat {
    if UnitPart(s) == "" then 1_000 else UnitMicros(UnitPart(s))
  }

  /** Beside dropping its spaces, ms is put behind a text that starts like a number and ends in
      neither s nor S, and any other text is left alone. */
  lemma NormTimeReads(v: string)
    ensures var t := CleanSpaces(v);
            && (t == "" || !(t[0] == '.' || '0' <= t[0] <= '9') || t[|t| - 1] == 's' || t[|t| - 1] == 'S'
                ==> NormTime(v) == t)
            && (t != "" && (t[0] == '.' || '0' <= t[0] <= '9') && t[|t| - 1] != 's' && t[|t| - 1] != 'S'
                ==> NormTime(v) == t + "ms")
  {
  }

  lemma UnitsScale(u: string)
    requires IsUnit(TimeKind, u) && u != ""
    ensures UnitMicros(u) > 0 && IsSmallS(u[|u| - 1])
  {
    TimeUnitIff(u);
    assert ['\U{b5}', 's'] == "\U{b5}s";
  }

  lemma MillisScale()
    ensures UnitMicros("ms") == 1_000 && IsUnit(TimeKind, "ms")
  {
    assert FoldAll("ms") == "ms";
  }

  /** A value keeps its number before any unit put behind it. */
  lemma WithMillis(s: string)
    requires IsScalar(TimeKind, s) && UnitPart(s) == ""
    ensures IsScalar(TimeKind, s + "ms") && UnitPart(s + "ms") == "ms" && NumberOf(s + "ms") == NumberOf(s)
  {
    var n, t := NumberLen(s), s + "ms";
    assert n == |s| && s[..n] == s && t[..n] == s && t[n..] == "ms";
    NumberLenIs(s, t);
    MillisScale();
  }

  /** The last character of a value with a unit is an s, of one without a digit. */
  lemma LastOfScalar(s: string)
    requires IsScalar(TimeKind, s)
    ensures s != "" && IsDigit(s[0])
    ensures UnitPart(s) == "" ==> IsDigit(s[|s| - 1])
    ensures UnitPart(s) != "" ==> IsSmallS(s[|s| - 1])
  {
    var n := NumberLen(s);
    if s[n..] == "" {
      var whole, fraction := NumberSplits(s);
      assert s == whole + fraction;
      var part := if fraction == "" then whole else fraction[1..];
      assert part[|part| - 1] == s[|s| - 1] && AllDigits(part);
    } else {
      UnitsScale(s[n..]);
    }
  }

  /** The text that is tidied: spelt with an s, not with the long one. */
  predicate PlainEnd(s: string) {
    s != "" && s[|s| - 1] != '\U{17f}'
  }

  lemma ScalarTidied(s: string)
    requires IsScalar(TimeKind, s) && PlainEnd(s)
    ensures NormTime(s) == (if UnitPart(s) == "" then s + "ms" else s)
  {
    ScalarChars(TimeKind, s);
    LastOfScalar(s);
  }

  /** A single time goes to tc as the number of microseconds it names, a bare number being
      milliseconds, whatever is drawn. */
  lemma ScalarTime(s: string, u: real)
    requires IsScalar(TimeKind, s) && PlainEnd(s) && IsDraw(u)
    ensures Micros(RollValue(NormTime(s), u)) == Some(Times(NumberOf(s), ScaleOf(s)))
  {
    ScalarTidied(s);
    if UnitPart(s) == "" {
      WithMillis(s);
      MillisScale();
    } else {
      UnitsScale(UnitPart(s));
    }
    ScalarStays(TimeKind, NormTime(s), u);
  }

  lemma RangeTidied(p: string, q: string)
    requires IsScalar(TimeKind, p) && IsScalar(TimeKind, q) && PlainEnd(q)
    ensures NormTime(p + "-" + q) == p + "-" + (if UnitPart(q) == "" then q + "ms" else q)
  {
    var s := p + "-" + q;
    ScalarChars(TimeKind, p);
    ScalarChars(TimeKind, q);
    LastOfScalar(p);
    LastOfScalar(q);
    assert s[0] == p[0] && s[|s| - 1] == q[|q| - 1];
    assert NoSpaces(s);
    assert s + "ms" == p + "-" + (q + "ms");
  }

  lemma RolledTime(n: nat, unit: string)
    requires IsUnit(TimeKind, unit) && unit != ""
    ensures Micros(Itoa(n) + unit) == Some(Times(n as real, UnitMicros(unit)))
  {
    UnitChars(TimeKind, unit, 0);
    ItoaNumber(n, unit);
    UnitsScale(unit);
  }

  /** A range goes to tc as a number between its rounded ends in the unit of its second end, or in
      milliseconds when that has none. The unit of the first end never counts. */
  lemma RangeTime(p: string, q: string, u: real)
    requires IsScalar(TimeKind, p) && IsScalar(TimeKind, q) && IsAscii(p + "-" + q) && IsDraw(u)
    ensures Micros(RollValue(NormTime(p + "-" + q), u))
         == Some(Times(RollNumber(NumberOf(p), NumberOf(q), u) as real, ScaleOf(q)))
  {
    AsciiParts(p, q);
    LastOfScalar(q);
    RangeTidied(p, q);
    var r := if UnitPart(q) == "" then q + "ms" else q;
    if UnitPart(q) == "" {
      WithMillis(q);
      MillisScale();
    }
    AsciiJoined(p, r);
    RangeRollsTo(TimeKind, p, r, u);
    RolledTime(RollNumber(NumberOf(p), NumberOf(r), u), UnitPart(r));
  }

  lemma AsciiJoined(p: string, q: string)
    requires IsAscii(p) && IsAscii(q)
    ensures IsAscii(p + "-" + q)
  {
  }

  lemma NumeralScalar(n: nat)
    ensures IsScalar(TimeKind, Itoa(n)) && UnitPart(Itoa(n)) == "" && NumberOf(Itoa(n)) == n as real && PlainEnd(Itoa(n))
  {
    var s := Itoa(n);
    ItoaNumber(n, "");
    assert s + "" == s && s[..|s|] == s && s[|s|..] == "";
    assert IsDigit(s[|s| - 1]);
    TimeUnitIff("");
  }

  lemma OneSetting(s: Setting)
    ensures PutSettings([s]) == NO_PARAMS.Put(s.field, s.value)
  {
    assert [s][..0] == [];
  }

  lemma DelaySetting(v: string)
    ensures var one := Setting(Delay, "", "delay", "", v);
            AllOk([one]) && TextsOf([one]) == ["delay=" + v] && PutSettings([one]) == NO_PARAMS.(delay := v)
  {
    var one := Setting(Delay, "", "delay", "", v);
    assert Spells("delay", "delay") && "delay" in Names(Delay);
    assert one.Ok();
    assert one.Text() == "delay=" + v;
    OneSetting(one);
  }

  /** delay=n asks for a delay of n milliseconds, and goes to tc as that. */
  lemma DelayIsMilliseconds(n: nat, u: real)
    requires IsDraw(u)
    ensures AllAssignments(["delay=" + Itoa(n)])
    ensures var p := Requested(["delay=" + Itoa(n)]);
            && p == NO_PARAMS.(delay := Itoa(n) + "ms")
            && Micros(RollValue(p.delay, u)) == Some((1_000 * n) as real)
  {
    var s := Itoa(n);
    DelaySetting(s);
    SettingsAsk([Setting(Delay, "", "delay", "", s)]);
    NumeralScalar(n);
    ScalarTidied(s);
    ScalarTime(s, u);
    Thousand(n);
  }

  lemma Thousand(n: nat)
    ensures Times(n as real, 1_000) == (1_000 * n) as real
  {
  }

  // ---- percentages keep their number ----

  lemma SignKeepsNumber(s: string)
    requires IsScalar(PctKind, s)
    ensures NumberOf(s + "%") == NumberOf(s) || HasSuffix(s, "%")
  {
    var n := NumberLen(s);
    if !HasSuffix(s, "%") {
      assert s[n..] == "" && (s + "%")[..n] == s[..n];
      NumberLenIs(s, s + "%");
    }
  }

  /** A percentage goes to tc with the number it names, and a range of them with the number rolled. */
  lemma PctKeepsNumber(v: string, u: real)
    requires IsValue(PctKind, v) && IsDraw(u) && ('-' !in v || IsAscii(v))
    ensures '-' !in v ==> NumberOf(RollPct(v, u)) == NumberOf(v)
    ensures forall p, q :: IsScalar(PctKind, p) && IsScalar(PctKind, q) && v == p + "-" + q ==>
              NumberOf(RollPct(v, u)) == RollNumber(NumberOf(p), NumberOf(q), u) as real
  {
    var _, _ := ValueShape(PctKind, v);
    assert TrimSpace(v) == v;
    AcceptedRolls(PctKind, v, u);
    SignKeepsNumber(RollValue(v, u));
    if '-' !in v {
      ScalarStays(PctKind, v, u);
    }
    forall p, q | IsScalar(PctKind, p) && IsScalar(PctKind, q) && v == p + "-" + q
      ensures NumberOf(RollPct(v, u)) == RollNumber(NumberOf(p), NumberOf(q), u) as real
    {
      RolledPct(p, q, u);
    }
  }

  lemma RolledPct(p: string, q: string, u: real)
    requires IsScalar(PctKind, p) && IsScalar(PctKind, q) && IsAscii(p + "-" + q) && IsDraw(u)
    ensures NumberOf(RollValue(p + "-" + q, u)) == RollNumber(NumberOf(p), NumberOf(q), u) as real
  {
    var unit := UnitOf(p, q);
    RangeRollsTo(PctKind, p, q, u);
    if unit != "" {
      UnitChars(PctKind, unit, 0);
    }
    ItoaNumber(RollNumber(NumberOf(p), NumberOf(q), u), unit);
  }
}
