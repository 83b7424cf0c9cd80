/** Netem profiles: reading them from key=value arguments, tidying and checking
    them, rolling ranges to concrete values, and rendering the netem arguments.
    Numbers are exact reals and a random draw is any real in [0, 1). */
module Netem {
  import opened Text

  datatype Field = Delay | Jitter | Loss | LossCorr | Corrupt | Duplicate | Reorder | Rate

  /** What chaosKindTime, chaosKindPct and chaosKindRate stand for. */
  datatype Kind = TimeKind | PctKind | RateKind

  datatype Params = Params(delay: string, jitter: string, loss: string, lossCorr: string,
                           corrupt: string, duplicate: string, reorder: string, rate: string)
  {
    function Get(f: Field): string {
      match f
      case Delay => delay
      case Jitter => jitter
      case Loss => loss
      case LossCorr => lossCorr
      case Corrupt => corrupt
      case Duplicate => duplicate
      case Reorder => reorder
      case Rate => rate
    }

    function Put(f: Field, v: string): Params {
      match f
      case Delay => this.(delay := v)
      case Jitter => this.(jitter := v)
      case Loss => this.(loss := v)
      case LossCorr => this.(lossCorr := v)
      case Corrupt => this.(corrupt := v)
      case Duplicate => this.(duplicate := v)
      case Reorder => this.(reorder := v)
      case Rate => this.(rate := v)
    }

    predicate Empty() {
      delay == "" && loss == "" && corrupt == "" && duplicate == "" && reorder == "" && rate == ""
    }
  }

  const NO_PARAMS := Params("", "", "", "", "", "", "", "")
  const PARTITION := NO_PARAMS.(loss := "100%")

  function KindOf(f: Field): Kind {
    match f
    case Delay => TimeKind
    case Jitter => TimeKind
    case Rate => RateKind
    case _ => PctKind
  }

  // ---- the regular expressions, as direct string functions ----

  /** Length of the longest match of (\.\d+)? at the start of s. */
  function FractionLen(s: string): (n: nat)
    ensures n <= |s|
  {
    if |s| < 2 || s[0] != '.' || !IsDigit(s[1]) then 0 else 1 + SpanDigits(s[1..])
  }

  /** Length of the longest match of \d+(\.\d+)? at the start of s, 0 for none. */
  function NumberLen(s: string): (n: nat)
    ensures n <= |s|
    ensures n > 0 <==> s != "" && IsDigit(s[0])
  {
    if s == "" || !IsDigit(s[0]) then 0
    else if |s| > 1 && IsDigit(s[1]) then 1 + NumberLen(s[1..])
    else 1 + FractionLen(s[1..])
  }

  lemma {:induction false} DigitsSpanned(s: string, i: nat)
    requires i < SpanDigits(s)
    ensures IsDigit(s[i])
  {
    if i > 0 {
      DigitsSpanned(s[1..], i - 1);
    }
  }

  lemma {:induction false} NumberChars(s: string, i: nat)
    requires i < NumberLen(s)
    ensures IsDigit(s[i]) || s[i] == '.'
    decreases |s|
  {
    if i == 0 {
    } else if IsDigit(s[1]) {
      NumberChars(s[1..], i - 1);
    } else if i > 1 {
      DigitsSpanned(s[1..][1..], i - 2);
      assert s[1..][1..][i - 2] == s[i];
    }
  }

  predicate IsUnitChar(c: char) {
    'a' <= c <= 'z' || 'A' <= c <= 'Z' || c == '%'
  }

  function SpanUnit(s: string): (n: nat)
    ensures n <= |s|
  {
    if s == "" || !IsUnitChar(s[0]) then 0 else 1 + SpanUnit(s[1..])
  }

  datatype Range = Range(lo: string, loUnit: string, hi: string, hiUnit: string)

  /** chaosRangeRe. */
  function MatchRange(s: string): Option<Range> {
    var n, k := NumberLen(s), ScalarEnd(s);
    if n == 0 || k == |s| || s[k] != '-' then None else MatchHigh(s[..n], s[n..k], s[k + 1..])
  }

  /** Where a number and its unit at the start of s end. */
  function ScalarEnd(s: string): (k: nat)
    ensures NumberLen(s) <= k <= |s|
  {
    NumberLen(s) + SpanUnit(s[NumberLen(s)..])
  }

  function MatchHigh(lo: string, loUnit: string, rest: string): Option<Range> {
    var n := NumberLen(rest);
    if n == 0 || ScalarEnd(rest) != |rest| then None else Some(Range(lo, loUnit, rest[..n], rest[n..]))
  }

  /** The lower-case representative of a character under Go's (?i) case folding. */
  function Fold(c: char): char {
    if 'A' <= c <= 'Z' then (c as int + 32) as char
    else if c == '\U{17f}' then 's'
    else if c == '\U{212a}' then 'k'
    else if c == '\U{3bc}' || c == '\U{39c}' then '\U{b5}'
    else c
  }

  function FoldAll(s: string): string {
    seq(|s|, i requires 0 <= i < |s| => Fold(s[i]))
  }

  predicate IsUnit(kind: Kind, u: string) {
    match kind
    case PctKind => u == "" || u == "%"
    case TimeKind => FoldAll(u) in {"", "ms", "us", ['\U{b5}', 's'], "s"}
    case RateKind => FoldAll(u) in {"", "bit", "kbit", "mbit", "gbit", "tbit"}
  }

  function Pow10(n: nat): (p: nat)
    ensures p > 0
  {
    if n == 0 then 1 else 10 * Pow10(n - 1)
  }

  /** strconv.ParseFloat of a number matched by \d+(\.\d+)?. */
  function NumValue(s: string): (v: real)
    ensures v >= 0.0
  {
    var i := SpanDigits(s);
    ParseNat(s[..i]) as real
    + if i < |s| then ParseNat(s[i + 1..]) as real / Pow10(|s| - i - 1) as real else 0.0
  }

  /** chaosValidateScalar. */
  predicate IsScalar(kind: Kind, s: string) {
    var n := NumberLen(s);
    n > 0 && IsUnit(kind, s[n..]) && (kind.PctKind? ==> NumValue(s[..n]) <= 100.0)
  }

  /** chaosValidateValue: one scalar, or two with a dash between them. */
  predicate IsValue(kind: Kind, s: string) {
    var parts := Split(s, '-');
    |parts| <= 2 && forall p | p in parts :: IsScalar(kind, p)
  }

  // ---- normalisation ----

  /** chaosCleanSpaces. */
  function CleanSpaces(s: string): (r: string)
    ensures NoSpaces(r)
    ensures NoSpaces(s) ==> r == s
  {
    if s == "" then ""
    else (if IsSpace(s[0]) then [] else [s[0]]) + CleanSpaces(s[1..])
  }

  /** chaosNormTime. Every suffix it looks for (ms, us, µs, s) ends in s, and only s
      and S have s as their lower case. */
  function NormTime(s0: string): string {
    WithUnit(CleanSpaces(s0))
  }

  function WithUnit(s: string): string {
    if s == "" || (s[0] != '.' && !IsDigit(s[0])) then s
    else if s[|s| - 1] in "sS" then s
    else s + "ms"
  }

  function Normalize(p: Params): Params {
    Params(NormTime(p.delay), NormTime(p.jitter), CleanSpaces(p.loss), CleanSpaces(p.lossCorr),
           CleanSpaces(p.corrupt), CleanSpaces(p.duplicate), CleanSpaces(p.reorder), CleanSpaces(p.rate))
  }

  predicate Valid(p: Params) {
    forall f: Field :: p.Get(f) != "" ==> IsValue(KindOf(f), p.Get(f))
  }

  const FIELDS := [Delay, Jitter, Loss, LossCorr, Corrupt, Duplicate, Reorder, Rate]

  /** Where the source checks a field. */
  function Place(f: Field): (i: nat)
    ensures i < 8
  {
    match f
    case Delay => 0
    case Jitter => 1
    case Loss => 2
    case LossCorr => 3
    case Corrupt => 4
    case Duplicate => 5
    case Reorder => 6
    case Rate => 7
  }

  lemma ListedAtPlace(f: Field)
    ensures |FIELDS| == 8 && FIELDS[Place(f)] == f
  {
  }

  lemma PlaceOf(i: nat)
    requires i < |FIELDS|
    ensures Place(FIELDS[i]) == i
  {
  }

  /** f is the first field, in the order the source checks them, that is set and malformed. */
  predicate MalformedFirst(p: Params, f: Field) {
    && p.Get(f) != "" && !IsValue(KindOf(f), p.Get(f))
    && forall g: Field | Place(g) < Place(f) :: p.Get(g) != "" ==> IsValue(KindOf(g), p.Get(g))
  }

  /** Tidying a tidied profile changes nothing. */
  lemma NormalizeIdempotent(p: Params)
    ensures Normalize(Normalize(p)) == Normalize(p)
  {
    NormTimeIdempotent(p.delay);
    NormTimeIdempotent(p.jitter);
  }

  lemma NormTimeIdempotent(s: string)
    ensures NormTime(NormTime(s)) == NormTime(s)
  {
    UnitHasNoSpaces(CleanSpaces(s));
    UnitOnce(CleanSpaces(s));
  }

  lemma UnitHasNoSpaces(s: string)
    requires NoSpaces(s)
    ensures NoSpaces(WithUnit(s))
  {
  }

  lemma UnitOnce(s: string)
    ensures WithUnit(WithUnit(s)) == WithUnit(s)
  {
    var t := s + "ms";
    assert t[|t| - 1] == 's' && (s != "" ==> t[0] == s[0]);
  }

  // ---- reading key=value arguments ----

  datatype ParseError = NotKeyValue(arg: string) | UnknownKey(arg: string) | Malformed(field: Field)
  datatype Parsed = Accepted(params: Params) | Rejected(error: ParseError)

  /** unicode.ToLower on the characters that have an ASCII letter as lower case. */
  function Lower(c: char): char {
    if 'A' <= c <= 'Z' then (c as int + 32) as char
    else if c == '\U{212a}' then 'k'
    else if c == '\U{130}' then 'i'
    else c
  }

  function ToLower(s: string): string {
    seq(|s|, i requires 0 <= i < |s| => Lower(s[i]))
  }

  function KeyField(key: string): Option<Field> {
    if key in {"delay", "latency"} then Some(Delay)
    else if key == "jitter" then Some(Jitter)
    else if key == "loss" then Some(Loss)
    else if key in {"corr", "losscorr", "burst"} then Some(LossCorr)
    else if key == "corrupt" then Some(Corrupt)
    else if key in {"duplicate", "dup"} then Some(Duplicate)
    else if key == "reorder" then Some(Reorder)
    else if key in {"rate", "bw", "bandwidth"} then Some(Rate)
    else None
  }

  /** The field the key before the first equals sign names. */
  function KeyOf(arg: string): Option<Field> {
    KeyField(ToLower(TrimSpace(arg[..IndexOf(arg, '=')])))
  }

  predicate IsAssignment(arg: string) {
    IndexOf(arg, '=') < |arg| && KeyOf(arg).Some?
  }

  function ValueOf(arg: string): string
    requires IsAssignment(arg)
  {
    TrimSpace(arg[IndexOf(arg, '=') + 1..])
  }

  /** The value the last argument naming field f gives it, "" when none does. */
  function LastValue(args: seq<string>, f: Field): string
    requires forall a | a in args :: IsAssignment(a)
  {
    if args == [] then ""
    else if KeyOf(args[|args| - 1]) == Some(f) then ValueOf(args[|args| - 1])
    else LastValue(args[..|args| - 1], f)
  }

  predicate AllAssignments(args: seq<string>) {
    forall a | a in args :: IsAssignment(a)
  }

  /** The profile a list of assignments asks for, tidied. */
  function Requested(args: seq<string>): Params
    requires AllAssignments(args)
  {
    Normalize(Params(LastValue(args, Delay), LastValue(args, Jitter), LastValue(args, Loss),
                     LastValue(args, LossCorr), LastValue(args, Corrupt), LastValue(args, Duplicate),
                     LastValue(args, Reorder), LastValue(args, Rate)))
  }

  /** The error is about argument i, the first that is no assignment. */
  predicate Complains(args: seq<string>, error: ParseError, i: nat) {
    && i < |args| && AllAssignments(args[..i]) && !IsAssignment(args[i])
    && error == if '=' !in args[i] then NotKeyValue(args[i]) else UnknownKey(args[i])
  }

  /** chaosParseParams: the arguments are accepted exactly when each is an assignment and the
      tidied last values are valid, and the result holds just those values. Otherwise the error
      is about the first argument that is none, or else the first malformed field. */
  method ParseParams(args: seq<string>) returns (r: Parsed)
    ensures r.Accepted? <==> AllAssignments(args) && Valid(Requested(args))
    ensures r.Accepted? ==> r.params == Requested(args) == Normalize(r.params)
    ensures !AllAssignments(args) ==> r.Rejected? && exists i: nat :: Complains(args, r.error, i)
    ensures AllAssignments(args) && r.Rejected? ==> r.error.Malformed? && MalformedFirst(Requested(args), r.error.field)
  {
    r := ReadArguments(args);
    if r.Rejected? {
      return r;
    }
    GetAll(r.params, args);
    var p := Normalize(r.params);
    var bad := FirstMalformed(p);
    if bad.Some? {
      return Rejected(Malformed(bad.value));
    }
    return Accepted(p);
  }

  /** Its loop over the arguments. */
  method ReadArguments(args: seq<string>) returns (r: Parsed)
    ensures r.Accepted? <==> AllAssignments(args)
    ensures r.Accepted? ==> HoldsLast(r.params, args)
    ensures r.Rejected? ==> exists i: nat :: Complains(args, r.error, i)
  {
    var p := NO_PARAMS;
    for i := 0 to |args|
      invariant HoldsLast(p, args[..i])
    {
      var a := args[i];
      var field, error := ReadKey(a);
      if field.None? {
        NoAssignment(args, i);
        assert Complains(args, error, i);
        return Rejected(error);
      }
      NextValue(p, args[..i], a, field.value);
      assert args[..i + 1] == args[..i] + [a];
      p := p.Put(field.value, ValueOf(a));
    }
    assert args[..|args|] == args;
    return Accepted(p);
  }

  /** The field an argument names, or what is wrong with it. */
  method ReadKey(a: string) returns (field: Option<Field>, error: ParseError)
    ensures field.Some? <==> IsAssignment(a)
    ensures field.Some? ==> field == KeyOf(a)
    ensures field.None? ==> error == if '=' !in a then NotKeyValue(a) else UnknownKey(a)
  {
    error := NotKeyValue(a);
    if IndexOf(a, '=') == |a| {
      assert a[..|a|] == a;
      return None, error;
    }
    error := UnknownKey(a);
    field := KeyOf(a);
  }

  lemma NoAssignment(args: seq<string>, i: nat)
    requires i < |args|
    ensures !IsAssignment(args[i]) ==> !AllAssignments(args)
  {
    assert args[i] in args;
  }

  /** Each field of the profile is what the last argument naming it gives it. */
  predicate HoldsLast(p: Params, args: seq<string>) {
    AllAssignments(args) && forall f: Field :: p.Get(f) == LastValue(args, f)
  }

  /** One more argument, put into the profile. */
  lemma NextValue(p: Params, args: seq<string>, a: string, field: Field)
    requires HoldsLast(p, args) && IsAssignment(a) && KeyOf(a) == Some(field)
    ensures HoldsLast(p.Put(field, ValueOf(a)), args + [a])
  {
    LastValueSnoc(args, a);
    PutGet(p, field, ValueOf(a));
  }

  lemma PutGet(p: Params, f: Field, v: string)
    ensures forall g: Field :: p.Put(f, v).Get(g) == if g == f then v else p.Get(g)
  {
  }

  lemma LastValueSnoc(args: seq<string>, a: string)
    requires AllAssignments(args) && IsAssignment(a)
    ensures AllAssignments(args + [a])
    ensures forall f: Field :: LastValue(args + [a], f) == if KeyOf(a) == Some(f) then ValueOf(a) else LastValue(args, f)
  {
    assert (args + [a])[..|args|] == args;
  }

  lemma GetAll(p: Params, args: seq<string>)
    requires HoldsLast(p, args)
    ensures Normalize(p) == Requested(args) == Normalize(Normalize(p))
  {
    NormalizeIdempotent(p);
    assert p.Get(Delay) == p.delay && p.Get(Jitter) == p.jitter && p.Get(Loss) == p.loss;
    assert p.Get(LossCorr) == p.lossCorr && p.Get(Corrupt) == p.corrupt && p.Get(Duplicate) == p.duplicate;
    assert p.Get(Reorder) == p.reorder && p.Get(Rate) == p.rate;
  }

  /** chaosNetemParams.validate: the first malformed field, in the order the source checks them. */
  method FirstMalformed(p: Params) returns (r: Option<Field>)
    ensures r.None? <==> Valid(p)
    ensures r.Some? ==> MalformedFirst(p, r.value)
  {
    for i := 0 to |FIELDS|
      invariant forall j | 0 <= j < i :: p.Get(FIELDS[j]) != "" ==> IsValue(KindOf(FIELDS[j]), p.Get(FIELDS[j]))
    {
      var f := FIELDS[i];
      if p.Get(f) != "" && !IsValue(KindOf(f), p.Get(f)) {
        forall g: Field | Place(g) < Place(f) ensures p.Get(g) != "" ==> IsValue(KindOf(g), p.Get(g)) {
          ListedAtPlace(f);
          ListedAtPlace(g);
          PlaceOf(i);
        }
        return Some(f);
      }
    }
    forall f: Field ensures p.Get(f) != "" ==> IsValue(KindOf(f), p.Get(f)) {
      ListedAtPlace(f);
    }
    return None;
  }

  // ---- rolling ----

  predicate IsDraw(u: real) {
    0.0 <= u < 1.0
  }

  /** int(v + 0.5) for v >= 0. */
  function Round(v: real): nat
    requires v >= 0.0
  {
    (v + 0.5).Floor
  }

  /** chaosRollValue with the random draw u. */
  function RollValue(s0: string, u: real): string
    requires IsDraw(u)
  {
    var s := TrimSpace(s0);
    match MatchRange(s)
    case None => s
    case Some(r) =>
      var x, y := NumValue(r.lo), NumValue(r.hi);
      var unit := if r.hiUnit == "" then r.loUnit else r.hiUnit;
      Itoa(RollNumber(x, y, u)) + unit
  }

  /** rand*(hi-lo) for a gap d. */
  function Scale(u: real, d: real): (v: real)
    requires IsDraw(u) && d >= 0.0
    ensures 0.0 <= v <= d
  {
    ProductNotNegative(u, d);
    ProductNotNegative(1.0 - u, d);
    assert u * d + (1.0 - u) * d == d;
    u * d
  }

  lemma ProductNotNegative(a: real, b: real)
    requires a >= 0.0 && b >= 0.0
    ensures a * b >= 0.0
  {
  }

  lemma RoundMonotone(v: real, w: real)
    requires 0.0 <= v <= w
    ensures Round(v) <= Round(w)
  {
  }

  /** The number a range with ends x and y rolls to. */
  function RollNumber(x: real, y: real, u: real): (n: nat)
    requires x >= 0.0 && y >= 0.0 && IsDraw(u)
    ensures Round(if x <= y then x else y) <= n <= Round(if x <= y then y else x)
  {
    var lo, hi := if y < x then y else x, if y < x then x else y;
    var v := if hi > lo then lo + Scale(u, hi - lo) else lo;
    RoundMonotone(lo, v);
    RoundMonotone(v, hi);
    Round(v)
  }

  function Least(x: real, y: real): real {
    if y < x then y else x
  }

  function Greatest(x: real, y: real): real {
    if y < x then x else y
  }

  /** Every draw rolls to a number between the ends x and y. */
  ghost predicate AlwaysWithin(x: real, y: real)
    requires x >= 0.0 && y >= 0.0
  {
    forall u | IsDraw(u) :: Least(x, y) <= RollNumber(x, y, u) as real <= Greatest(x, y)
  }

  /** Rounding does not lead below v. */
  predicate RoundsUp(v: real) {
    v.Floor as real == v || v - v.Floor as real >= 0.5
  }

  /** Nor, from anything below v, above it. */
  predicate RoundsDown(v: real) {
    v - v.Floor as real <= 0.5
  }

  lemma BelowHigherEnd(u: real, d: real)
    requires IsDraw(u) && d > 0.0
    ensures Scale(u, d) < d
  {
    ProductPositive(1.0 - u, d);
    assert u * d + (1.0 - u) * d == d;
  }

  lemma ProductPositive(a: real, b: real)
    requires a > 0.0 && b > 0.0
    ensures a * b > 0.0
  {
  }

  /** The value that is rounded. */
  lemma ValueRolled(lo: real, hi: real, u: real) returns (v: real)
    requires 0.0 <= lo < hi && IsDraw(u)
    ensures lo <= v < hi && RollNumber(lo, hi, u) == Round(v)
  {
    v := lo + Scale(u, hi - lo);
    BelowHigherEnd(u, hi - lo);
  }

  /** The draw that gives v. */
  lemma DrawFor(lo: real, hi: real, v: real) returns (u: real)
    requires 0.0 <= lo <= v < hi
    ensures IsDraw(u) && RollNumber(lo, hi, u) == Round(v)
  {
    u := Quotient(v - lo, hi - lo);
  }

  lemma Quotient(a: real, d: real) returns (u: real)
    requires 0.0 <= a < d
    ensures IsDraw(u) && Scale(u, d) == a
  {
    u := a / d;
    assert u * d == a;
    if u < 0.0 {
      ProductPositive(-u, d);
    } else if u >= 1.0 {
      ProductNotNegative(u - 1.0, d);
    }
  }

  lemma RoundIs(v: real, n: nat)
    requires v >= 0.0 && n as real <= v + 0.5 < n as real + 1.0
    ensures Round(v) == n
  {
  }

  lemma RoundUpIff(v: real)
    requires v >= 0.0
    ensures RoundsUp(v) <==> v <= Round(v) as real
  {
    var n := v.Floor;
    if v - n as real >= 0.5 {
      RoundIs(v, n + 1);
    } else {
      RoundIs(v, n);
    }
  }

  lemma RoundDownBelow(v: real, hi: real)
    requires 0.0 <= v < hi && RoundsDown(hi)
    ensures Round(v) as real <= hi
  {
    var n, k := Round(v), hi.Floor;
    assert n as real <= v + 0.5;
    assert hi + 0.5 <= k as real + 1.0;
    assert n as real < (k + 1) as real;
    assert n <= k;
  }

  lemma RoundWithin(lo: real, hi: real, v: real)
    requires 0.0 <= lo <= v < hi && RoundsUp(lo) && RoundsDown(hi)
    ensures lo <= Round(v) as real <= hi
  {
    RoundUpIff(lo);
    RoundMonotone(lo, v);
    RoundDownBelow(v, hi);
  }

  lemma HalfPast(hi: real)
    requires hi >= 0.0 && !RoundsDown(hi)
    ensures var top := hi.Floor as real + 0.5; 0.0 <= top < hi && Round(top) as real > hi
  {
    RoundIs(hi.Floor as real + 0.5, hi.Floor + 1);
  }

  /** A value that is rounded past an end. */
  lemma RoundPast(lo: real, hi: real) returns (v: real)
    requires 0.0 <= lo < hi && !(RoundsUp(lo) && RoundsDown(hi))
    ensures lo <= v < hi && !(lo <= Round(v) as real <= hi)
  {
    RoundUpIff(lo);
    if !RoundsUp(lo) {
      v := lo;
    } else {
      HalfPast(hi);
      var top := hi.Floor as real + 0.5;
      v := if top < lo then lo else top;
      RoundMonotone(top, v);
    }
  }

  lemma SwapEnds(x: real, y: real, u: real)
    requires x >= 0.0 && y >= 0.0 && IsDraw(u)
    ensures RollNumber(x, y, u) == RollNumber(Least(x, y), Greatest(x, y), u)
  {
  }

  lemma WithinIff(lo: real, hi: real)
    requires 0.0 <= lo < hi
    ensures AlwaysWithin(lo, hi) <==> RoundsUp(lo) && RoundsDown(hi)
  {
    if RoundsUp(lo) && RoundsDown(hi) {
      forall u | IsDraw(u) ensures lo <= RollNumber(lo, hi, u) as real <= hi {
        var v := ValueRolled(lo, hi, u);
        RoundWithin(lo, hi, v);
      }
    } else {
      var v := RoundPast(lo, hi);
      var u := DrawFor(lo, hi, v);
      assert !(lo <= RollNumber(lo, hi, u) as real <= hi);
    }
  }

  /** The source says that a range gives an integer in [min, max]. That holds for every draw when both
      ends are whole, and in general exactly when the lower end does not round down and the
      upper is not past the half: 0.6-0.9 can only give 1. */
  lemma AlwaysWithinIff(x: real, y: real)
    requires x >= 0.0 && y >= 0.0
    ensures AlwaysWithin(x, y) <==>
              if x == y then x.Floor as real == x else RoundsUp(Least(x, y)) && RoundsDown(Greatest(x, y))
  {
    if x == y {
      SameEnds(x);
    } else {
      SwapWithin(x, y);
      WithinIff(Least(x, y), Greatest(x, y));
    }
  }

  lemma SwapWithin(x: real, y: real)
    requires x >= 0.0 && y >= 0.0
    ensures AlwaysWithin(x, y) <==> AlwaysWithin(Least(x, y), Greatest(x, y))
  {
    forall u | IsDraw(u) ensures RollNumber(x, y, u) == RollNumber(Least(x, y), Greatest(x, y), u) {
      SwapEnds(x, y, u);
    }
  }

  lemma SameEnds(x: real)
    requires x >= 0.0
    ensures AlwaysWithin(x, x) <==> x.Floor as real == x
  {
    forall u | IsDraw(u) ensures RollNumber(x, x, u) == Round(x) {
    }
    assert IsDraw(0.0);
    RoundStays(x);
  }

  lemma RoundStays(x: real)
    requires x >= 0.0
    ensures Round(x) as real == x <==> x.Floor as real == x
  {
    var n := x.Floor;
    if n as real == x {
      RoundIs(x, n);
    } else if x - n as real >= 0.5 {
      RoundIs(x, n + 1);
    } else {
      RoundIs(x, n);
    }
  }

  predicate IsAscii(s: string) {
    forall i | 0 <= i < |s| :: s[i] < '\U{80}'
  }

  // ---- what rolls to what ----

  lemma {:induction false} SpanDigitsIs(s: string, n: nat)
    requires n <= |s| && (forall i | 0 <= i < n :: IsDigit(s[i])) && (n < |s| ==> !IsDigit(s[n]))
    ensures SpanDigits(s) == n
  {
    if n > 0 {
      SpanDigitsIs(s[1..], n - 1);
    }
  }

  lemma FractionLenIs(s: string, t: string)
    requires var n := FractionLen(s);
             && n <= |t| && (forall i | 0 <= i < n :: t[i] == s[i]) && (n < |t| ==> !IsDigit(t[n]) && t[n] != '.')
    ensures FractionLen(t) == FractionLen(s)
  {
    var n := FractionLen(s);
    if n > 0 {
      forall i | 0 <= i < n - 1 ensures IsDigit(t[1..][i]) {
        DigitsSpanned(s[1..], i);
        assert t[i + 1] == s[i + 1];
      }
      SpanDigitsIs(t[1..], n - 1);
    }
  }

  /** The text a number matched matches again before any text that starts with neither a digit
      nor a dot. */
  lemma {:induction false} NumberLenIs(s: string, t: string)
    requires var n := NumberLen(s);
             && 0 < n <= |t| && (forall i | 0 <= i < n :: t[i] == s[i]) && (n < |t| ==> !IsDigit(t[n]) && t[n] != '.')
    ensures NumberLen(t) == NumberLen(s)
    decreases |s|
  {
    if |s| > 1 && IsDigit(s[1]) {
      assert t[1] == s[1];
      NumberLenIs(s[1..], t[1..]);
    } else {
      var n := NumberLen(s);
      assert n > 1 ==> t[1] == s[1] == '.';
      FractionLenIs(s[1..], t[1..]);
    }
  }

  lemma {:induction false} DigitsAreNumber(s: string, u: string)
    requires s != "" && AllDigits(s) && (u == "" || (!IsDigit(u[0]) && u[0] != '.'))
    ensures NumberLen(s + u) == |s|
    decreases |s|
  {
    assert (s + u)[1..] == s[1..] + u;
    if |s| > 1 {
      DigitsAreNumber(s[1..], u);
    } else {
      assert s[1..] + u == u;
    }
  }

  lemma {:induction false} SpanUnitIs(u: string, rest: string)
    requires forall i | 0 <= i < |u| :: IsUnitChar(u[i])
    requires rest == "" || !IsUnitChar(rest[0])
    ensures SpanUnit(u + rest) == |u|
  {
    if u == "" {
      assert u + rest == rest;
    } else {
      assert (u + rest)[1..] == u[1..] + rest;
      SpanUnitIs(u[1..], rest);
    }
  }

  /** Units are made of letters, a percent sign or µ. */
  lemma UnitChars(kind: Kind, u: string, i: nat)
    requires IsUnit(kind, u) && i < |u|
    ensures !IsSpace(u[i]) && u[i] != '-' && u[i] != '.' && !IsDigit(u[i])
    ensures u[i] < '\U{80}' ==> IsUnitChar(u[i])
  {
    var f := FoldAll(u);
    assert kind != PctKind ==> f[i] == Fold(u[i]) && ('a' <= f[i] <= 'z' || f[i] == '\U{b5}');
  }

  lemma ScalarChars(kind: Kind, s: string)
    requires IsScalar(kind, s)
    ensures s != "" && NoSpaces(s) && '-' !in s
  {
    var n := NumberLen(s);
    forall i | 0 <= i < |s| ensures !IsSpace(s[i]) && s[i] != '-' {
      if i >= n {
        UnitChars(kind, s[n..], i - n);
      } else {
        NumberChars(s, i);
      }
    }
  }

  /** A scalar followed by a dash, or by nothing, is read back as its number and unit. */
  lemma ScalarMatches(kind: Kind, s: string, tail: string)
    requires IsScalar(kind, s) && (tail == "" || tail[0] == '-')
    ensures NumberLen(s + tail) == NumberLen(s)
    ensures IsAscii(s) ==> SpanUnit((s + tail)[NumberLen(s)..]) == |s| - NumberLen(s)
  {
    var n := NumberLen(s);
    var u := s[n..];
    assert (s + tail)[n..] == u + tail;
    assert (s + tail)[..n] == s[..n];
    forall i | 0 <= i < |u|
      ensures !IsDigit(u[i]) && u[i] != '.' && (IsAscii(s) ==> IsUnitChar(u[i]))
    {
      UnitChars(kind, u, i);
    }
    if u != "" {
      assert (s + tail)[n] == u[0];
    }
    NumberLenIs(s, s + tail);
    if IsAscii(s) {
      SpanUnitIs(u, tail);
    }
  }

  /** An accepted value has no spaces; it is one scalar, or two around a dash. */
  lemma ValueShape(kind: Kind, v: string) returns (p: string, q: string)
    requires IsValue(kind, v)
    ensures NoSpaces(v)
    ensures '-' !in v ==> IsScalar(kind, v)
    ensures '-' in v ==> IsScalar(kind, p) && IsScalar(kind, q) && v == p + "-" + q
  {
    var parts := Split(v, '-');
    JoinSplit(v, '-');
    p, q := parts[0], parts[|parts| - 1];
    ScalarChars(kind, p);
    ScalarChars(kind, q);
    JoinFew(parts, '-');
    if |parts| == 2 {
      assert v == p + "-" + q;
    } else {
      assert v == p;
    }
  }

  lemma JoinFew(parts: seq<string>, sep: char)
    requires 1 <= |parts| <= 2
    ensures |parts| == 1 ==> Join(parts, sep) == parts[0]
    ensures |parts| == 2 ==> Join(parts, sep) == parts[0] + [sep] + parts[1] && sep in Join(parts, sep)
  {
    if |parts| == 2 {
      assert parts[1..] == [parts[1]];
      assert (parts[0] + [sep] + parts[1])[|parts[0]|] == sep;
    }
  }

  lemma ItoaNumber(n: nat, u: string)
    requires u == "" || (!IsDigit(u[0]) && u[0] != '.')
    ensures NumberLen(Itoa(n) + u) == |Itoa(n)|
    ensures (Itoa(n) + u)[..|Itoa(n)|] == Itoa(n) && (Itoa(n) + u)[|Itoa(n)|..] == u
    ensures NumValue(Itoa(n)) == n as real
  {
    var s := Itoa(n);
    assert s[..|s|] == s && (s + u)[..|s|] == s;
    DigitsAreNumber(s, u);
    SpanDigitsIs(s, |s|);
    ParseItoa(n);
  }

  /** Every accepted value that is no range, or is spelt in ASCII, rolls to a scalar. */
  lemma AcceptedRolls(kind: Kind, v: string, u: real)
    requires IsValue(kind, v) && IsDraw(u) && ('-' !in v || IsAscii(v))
    ensures IsScalar(kind, RollValue(v, u))
  {
    var p, q := ValueShape(kind, v);
    if '-' in v {
      RangeRolls(kind, p, q, u);
    } else {
      ScalarStays(kind, v, u);
    }
  }

  lemma ScalarStays(kind: Kind, v: string, u: real)
    requires IsScalar(kind, v) && IsDraw(u)
    ensures RollValue(v, u) == v
  {
    ScalarChars(kind, v);
    var n := NumberLen(v);
    var k := n + SpanUnit(v[n..]);
    assert k < |v| ==> v[k] in v;
  }

  lemma RangeMatches(kind: Kind, p: string, q: string)
    requires IsScalar(kind, p) && IsScalar(kind, q) && IsAscii(p) && IsAscii(q)
    ensures var n, m := NumberLen(p), NumberLen(q);
            MatchRange(p + "-" + q) == Some(Range(p[..n], p[n..], q[..m], q[m..]))
  {
    assert p + "-" + q == p + ("-" + q);
    ScalarMatches(kind, p, "-" + q);
    ScalarEnds(kind, q);
    DashedMatches(p, q, NumberLen(p), NumberLen(q));
  }

  lemma DashedMatches(p: string, q: string, n: nat, m: nat)
    requires n <= |p| && NumberLen(p + "-" + q) == n > 0 && SpanUnit((p + "-" + q)[n..]) == |p| - n
    requires m <= |q| && NumberLen(q) == m > 0 && SpanUnit(q[m..]) == |q| - m
    ensures MatchRange(p + "-" + q) == Some(Range(p[..n], p[n..], q[..m], q[m..]))
  {
    CutDashed(p + "-" + q, n, p, q);
    MatchRangeIs(p + "-" + q, n, |p|, m);
  }

  lemma ScalarEnds(kind: Kind, q: string)
    requires IsScalar(kind, q) && IsAscii(q)
    ensures SpanUnit(q[NumberLen(q)..]) == |q| - NumberLen(q)
  {
    assert q + "" == q;
    ScalarMatches(kind, q, "");
  }

  lemma AsciiParts(p: string, q: string)
    requires IsAscii(p + "-" + q)
    ensures IsAscii(p) && IsAscii(q)
  {
    assert forall i | 0 <= i < |p| :: p[i] == (p + "-" + q)[i];
    assert forall i | 0 <= i < |q| :: q[i] == (p + "-" + q)[|p| + 1 + i];
  }

  lemma MatchRangeIs(v: string, n: nat, k: nat, m: nat)
    requires n <= k < |v| && NumberLen(v) == n > 0 && SpanUnit(v[n..]) == k - n && v[k] == '-'
    requires var rest := v[k + 1..]; m <= |rest| && NumberLen(rest) == m > 0 && SpanUnit(rest[m..]) == |rest| - m
    ensures MatchRange(v) == Some(Range(v[..n], v[n..k], v[k + 1..][..m], v[k + 1..][m..]))
  {
    assert ScalarEnd(v) == k && ScalarEnd(v[k + 1..]) == |v[k + 1..]|;
  }

  lemma CutDashed(v: string, n: nat, p: string, q: string)
    requires v == p + "-" + q && n <= |p|
    ensures |p| < |v| && v[|p|] == '-' && v[|p| + 1..] == q && v[..n] == p[..n] && v[n..|p|] == p[n..]
  {
  }

  /** The number a scalar starts with. */
  function NumberOf(s: string): (v: real)
    ensures v >= 0.0
  {
    NumValue(s[..NumberLen(s)])
  }

  /** The unit of a range: the second one, or the first when there is no second. */
  function UnitOf(p: string, q: string): string {
    if q[NumberLen(q)..] == "" then p[NumberLen(p)..] else q[NumberLen(q)..]
  }

  /** What an accepted range in ASCII rolls to: a whole number between its rounded ends, whichever is
      larger, with its unit. */
  lemma RangeRollsTo(kind: Kind, p: string, q: string, u: real)
    requires IsScalar(kind, p) && IsScalar(kind, q) && IsDraw(u) && IsAscii(p + "-" + q)
    ensures var x, y := NumberOf(p), NumberOf(q);
            var n := RollNumber(x, y, u);
            RollValue(p + "-" + q, u) == Itoa(n) + UnitOf(p, q) && Round(Least(x, y)) <= n <= Round(Greatest(x, y))
  {
    ScalarChars(kind, p);
    ScalarChars(kind, q);
    assert TrimSpace(p + "-" + q) == p + "-" + q;
    AsciiParts(p, q);
    RangeMatches(kind, p, q);
  }

  lemma RangeRolls(kind: Kind, p: string, q: string, u: real)
    requires IsScalar(kind, p) && IsScalar(kind, q) && IsDraw(u) && IsAscii(p + "-" + q)
    ensures IsScalar(kind, RollValue(p + "-" + q, u))
  {
    var x, y, unit := NumberOf(p), NumberOf(q), UnitOf(p, q);
    RangeRollsTo(kind, p, q, u);
    if unit != "" {
      UnitChars(kind, unit, 0);
    }
    var k := RollNumber(x, y, u);
    ItoaNumber(k, unit);
    if kind.PctKind? {
      RoundMonotone(if x <= y then y else x, 100.0);
      assert k <= Round(100.0) == 100;
    }
  }

  /** A range with a character outside ASCII is not recognised and stays a range. */
  lemma ForeignRangeStays(kind: Kind, v: string)
    requires IsValue(kind, v) && '-' in v && !IsAscii(v)
    ensures MatchRange(v) == None && RollValue(v, 0.0) == v && !IsScalar(kind, v)
  {
    var p, q := ValueShape(kind, v);
    if IsScalar(kind, v) {
      ScalarChars(kind, v);
    }
    if MatchRange(v).Some? {
      RangeIsAscii(v);
    }
  }

  lemma {:induction false} SpanUnitChars(s: string, i: nat)
    requires i < SpanUnit(s)
    ensures IsUnitChar(s[i])
  {
    if i > 0 {
      SpanUnitChars(s[1..], i - 1);
    }
  }

  /** Characters from one place of v up to another are in ASCII. */
  predicate AsciiBetween(v: string, from: nat, to: nat)
    requires from <= to <= |v|
  {
    forall i | from <= i < to :: v[i] < '\U{80}'
  }

  lemma NumberIsAscii(v: string, from: nat, to: nat)
    requires from <= |v| && to == from + NumberLen(v[from..])
    ensures AsciiBetween(v, from, to)
  {
    forall i | from <= i < to ensures v[i] < '\U{80}' {
      NumberChars(v[from..], i - from);
    }
  }

  lemma UnitIsAscii(v: string, from: nat, to: nat)
    requires from <= |v| && to == from + SpanUnit(v[from..])
    ensures AsciiBetween(v, from, to)
  {
    forall i | from <= i < to ensures v[i] < '\U{80}' {
      SpanUnitChars(v[from..], i - from);
    }
  }

  lemma FirstHalfIsAscii(v: string, k: nat)
    requires k == ScalarEnd(v)
    ensures AsciiBetween(v, 0, k)
  {
    assert v[0..] == v;
    NumberIsAscii(v, 0, NumberLen(v));
    UnitIsAscii(v, NumberLen(v), k);
  }

  lemma SecondHalfIsAscii(v: string, from: nat)
    requires from <= |v|
    requires ScalarEnd(v[from..]) == |v| - from
    ensures AsciiBetween(v, from, |v|)
  {
    var rest := v[from..];
    FirstHalfIsAscii(rest, |rest|);
    forall i | from <= i < |v| ensures v[i] < '\U{80}' {
      assert v[i] == rest[i - from];
    }
  }

  lemma HalvesAreAscii(v: string) returns (k: nat)
    requires MatchRange(v).Some?
    ensures k < |v| && v[k] == '-' && AsciiBetween(v, 0, k) && AsciiBetween(v, k + 1, |v|)
  {
    k := ScalarEnd(v);
    FirstHalfIsAscii(v, k);
    SecondHalfIsAscii(v, k + 1);
  }

  lemma RangeIsAscii(v: string)
    requires MatchRange(v).Some?
    ensures IsAscii(v)
  {
    var k := HalvesAreAscii(v);
  }

  /** An accepted value rolls, on every draw, to one value the validator accepts, exactly
      when it is no range or is spelt in ASCII (a range in µs is returned unrolled). */
  lemma AcceptedRollsIff(kind: Kind, v: string)
    requires IsValue(kind, v)
    ensures (forall u :: IsDraw(u) ==> IsScalar(kind, RollValue(v, u))) <==> ('-' !in v || IsAscii(v))
  {
    if '-' !in v || IsAscii(v) {
      forall u | IsDraw(u) ensures IsScalar(kind, RollValue(v, u)) {
        AcceptedRolls(kind, v, u);
      }
    } else {
      ForeignRangeStays(kind, v);
      assert !IsScalar(kind, RollValue(v, 0.0));
    }
  }

  // ---- rendering ----

  /** One random draw per field. */
  datatype Draws = Draws(delay: real, jitter: real, loss: real, lossCorr: real,
                         corrupt: real, duplicate: real, reorder: real, rate: real)
  {
    predicate InUnit() {
      && IsDraw(delay) && IsDraw(jitter) && IsDraw(loss) && IsDraw(lossCorr)
      && IsDraw(corrupt) && IsDraw(duplicate) && IsDraw(reorder) && IsDraw(rate)
    }
  }

  /** chaosPct. */
  function RollPct(s0: string, u: real): string
    requires IsDraw(u)
  {
    var s := RollValue(TrimSpace(s0), u);
    if s == "" || HasSuffix(s, "%") then s else s + "%"
  }

  function Option1(name: string, value: string): seq<string> {
    if value == "" then [] else [name, value]
  }

  function Option2(name: string, value: string, extra: string): seq<string> {
    Option1(name, value) + if value == "" || extra == "" then [] else [extra]
  }

  /** Every field rolled to the text that goes to tc. */
  function RollAll(p: Params, d: Draws): Params
    requires d.InUnit()
  {
    Params(RollValue(p.delay, d.delay), RollValue(p.jitter, d.jitter),
           RollPct(p.loss, d.loss), RollPct(p.lossCorr, d.lossCorr), RollPct(p.corrupt, d.corrupt),
           RollPct(p.duplicate, d.duplicate), RollPct(p.reorder, d.reorder), RollValue(p.rate, d.rate))
  }

  function Words(r: Params, hasRate: bool): seq<string> {
    var delay := if r.reorder != "" && r.delay == "" then "10ms" else r.delay;
    ["netem"] + Option2("delay", delay, r.jitter) + Option2("loss", r.loss, r.lossCorr)
    + Option1("corrupt", r.corrupt) + Option1("duplicate", r.duplicate) + Option1("reorder", r.reorder)
    + if hasRate then ["rate", r.rate] else []
  }

  /** netemArgs: the words after the class of `tc qdisc replace`. */
  function NetemArgs(p: Params, d: Draws): seq<string>
    requires d.InUnit()
  {
    Words(RollAll(p, d), p.rate != "")
  }

  /** These are arguments profile p can roll to. */
  ghost predicate Renders(p: Params, args: seq<string>) {
    exists d: Draws :: d.InUnit() && args == NetemArgs(p, d)
  }

  /** No field is a range. */
  predicate Fixed(p: Params) {
    forall f: Field :: MatchRange(TrimSpace(p.Get(f))).None?
  }

  /** A profile without ranges always renders the same way. */
  lemma FixedRendersOnce(p: Params, x: seq<string>, y: seq<string>)
    requires Fixed(p) && Renders(p, x) && Renders(p, y)
    ensures x == y
  {
    var d: Draws :| d.InUnit() && x == NetemArgs(p, d);
    var e: Draws :| e.InUnit() && y == NetemArgs(p, e);
    FixedField(p.Get(Delay), d.delay, e.delay);
    FixedField(p.Get(Jitter), d.jitter, e.jitter);
    FixedField(p.Get(Loss), d.loss, e.loss);
    FixedField(p.Get(LossCorr), d.lossCorr, e.lossCorr);
    FixedField(p.Get(Corrupt), d.corrupt, e.corrupt);
    FixedField(p.Get(Duplicate), d.duplicate, e.duplicate);
    FixedField(p.Get(Reorder), d.reorder, e.reorder);
    FixedField(p.Get(Rate), d.rate, e.rate);
  }

  lemma FixedField(v: string, u: real, w: real)
    requires MatchRange(TrimSpace(v)).None? && IsDraw(u) && IsDraw(w)
    ensures RollValue(v, u) == RollValue(v, w)
    ensures RollPct(v, u) == RollPct(v, w)
  {
    TrimTwice(v);
  }

  lemma {:induction false} TrimTwice(s: string)
    ensures TrimSpace(TrimSpace(s)) == TrimSpace(s)
    decreases |s|
  {
    if s == "" {
    } else if IsSpace(s[0]) {
      TrimTwice(s[1..]);
    } else if IsSpace(s[|s| - 1]) {
      TrimTwice(s[..|s| - 1]);
    }
  }

  /** A partition drops everything, whatever is drawn. */
  lemma PartitionRenders(args: seq<string>)
    ensures Renders(PARTITION, args) <==> args == ["netem", "loss", "100%"]
  {
    forall d: Draws | d.InUnit()
      ensures NetemArgs(PARTITION, d) == ["netem", "loss", "100%"]
    {
      PartitionRolls(d);
      PartitionWords();
    }
    assert Draws(0.0, 0.0, 0.0, 0.0, 0.0, 0.0, 0.0, 0.0).InUnit();
  }

  lemma PartitionValid()
    ensures Valid(PARTITION)
  {
    var v := "100%";
    assert v == "100" + "%";
    DigitsAreNumber("100", "%");
    assert v[3..] == "%" && v[..3] == "100";
    HundredIs();
    SplitJoin([v], '-');
    forall f: Field | PARTITION.Get(f) != "" ensures IsValue(KindOf(f), PARTITION.Get(f)) {
      assert f == Loss;
    }
  }

  lemma HundredIs()
    ensures NumValue("100") == 100.0
  {
    var s := "100";
    SpanDigitsIs(s, 3);
    assert s[..3] == s && s[..2] == "10" && "10"[..1] == "1" && "1"[..0] == "";
    assert ParseNat("1") == 1 && ParseNat("10") == 10 && ParseNat(s) == 100;
  }

  lemma PartitionWords()
    ensures Words(PARTITION, false) == ["netem", "loss", "100%"]
  {
  }

  lemma PartitionRolls(d: Draws)
    requires d.InUnit()
    ensures RollAll(PARTITION, d) == PARTITION
  {
    var s := "100%";
    assert s == "100" + "%";
    DigitsAreNumber("100", "%");
    assert MatchRange(s).None?;
    assert NoSpaces(s);
    assert s[3..] == "%";
    assert RollPct(s, d.loss) == s;
    assert forall u :: IsDraw(u) ==> RollValue("", u) == "" && RollPct("", u) == "";
  }

  /** A reordering with a delay of zero, as delay=0 reorder=5 asks for. */
  const STALLED := NO_PARAMS.(delay := "0ms", reorder := "5")

  lemma StalledScalars()
    ensures IsScalar(TimeKind, "0ms") && IsScalar(PctKind, "5")
  {
    var v := "0ms";
    assert v == "0" + "ms" && v[1..] == "ms" && FoldAll("ms") == "ms";
    DigitsAreNumber("0", "ms");
    FiveIs();
  }

  lemma FiveIs()
    ensures IsScalar(PctKind, "5")
  {
    var v := "5";
    assert v == v + "" && v[1..] == "" && v[..1] == v && v[..0] == "";
    DigitsAreNumber(v, "");
    SpanDigitsIs(v, 1);
    assert ParseNat(v) == 5;
  }

  lemma StalledRolls(d: Draws)
    requires d.InUnit()
    ensures RollAll(STALLED, d) == STALLED.(reorder := "5%")
  {
    StalledScalars();
    ScalarStays(TimeKind, "0ms", d.delay);
    ScalarStays(PctKind, "5", d.reorder);
    ScalarChars(PctKind, "5");
    assert !HasSuffix("5", "%") && "5" + "%" == "5%";
    assert forall u :: IsDraw(u) ==> RollValue("", u) == "" && RollPct("", u) == "";
  }

  lemma ScalarIsValue(kind: Kind, v: string)
    requires IsScalar(kind, v)
    ensures IsValue(kind, v)
  {
    ScalarChars(kind, v);
    SplitJoin([v], '-');
  }

  lemma StalledValid()
    ensures Valid(STALLED)
  {
    StalledScalars();
    ScalarIsValue(TimeKind, "0ms");
    ScalarIsValue(PctKind, "5");
    forall f: Field | STALLED.Get(f) != "" ensures IsValue(KindOf(f), STALLED.Get(f)) {
      assert f == Delay || f == Reorder;
    }
  }

  lemma StalledWords()
    ensures Words(STALLED.(reorder := "5%"), false) == ["netem", "delay", "0ms", "reorder", "5%"]
  {
  }

  /** It is accepted, and its words put a delay of zero before the reordering. */
  lemma StalledRenders(d: Draws)
    requires d.InUnit()
    ensures Valid(STALLED) && NetemArgs(STALLED, d) == ["netem", "delay", "0ms", "reorder", "5%"]
  {
    StalledValid();
    StalledRolls(d);
    StalledWords();
  }

  /** What an accepted profile puts after tc is concrete: for every draw each field it sets
      renders as one value of the field's kind, and percentages carry their sign. */
  lemma AcceptedRendersConcrete(p: Params, f: Field, u: real)
    requires Valid(p) && p.Get(f) != "" && IsDraw(u)
    requires '-' !in p.Get(f) || IsAscii(p.Get(f))
    ensures KindOf(f).PctKind? ==> IsScalar(PctKind, RollPct(p.Get(f), u)) && HasSuffix(RollPct(p.Get(f), u), "%")
    ensures !KindOf(f).PctKind? ==> IsScalar(KindOf(f), RollValue(p.Get(f), u))
  {
    var v := p.Get(f);
    AcceptedRolls(KindOf(f), v, u);
    if KindOf(f).PctKind? {
      var _, _ := ValueShape(PctKind, v);
      assert TrimSpace(v) == v;
      SignedPct(RollValue(v, u));
    }
  }

  lemma SignedPct(s: string)
    requires IsScalar(PctKind, s)
    ensures var t := if s == "" || HasSuffix(s, "%") then s else s + "%"; IsScalar(PctKind, t) && HasSuffix(t, "%")
  {
    var n := NumberLen(s);
    if !HasSuffix(s, "%") {
      assert s[n..] == "";
      assert (s + "%")[..n] == s[..n] && (s + "%")[n..] == "%";
      NumberLenIs(s, s + "%");
    }
  }
}
