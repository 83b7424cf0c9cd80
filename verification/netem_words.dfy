/** Reading back the words that go to tc: after the name of each setting stand its numbers. */
module NetemWords {
  import opened Text
  import opened Netem

  predicate Numeral(w: string) {
    w != "" && IsDigit(w[0])
  }

  function Numerals(words: seq<string>): seq<string> {
    if words == [] || !Numeral(words[0]) then [] else [words[0]] + Numerals(words[1..])
  }

  /** The numbers directly behind the first word that is this name. */
  function Values(words: seq<string>, name: string): seq<string> {
    if words == [] then []
    else if words[0] == name then Numerals(words[1..])
    else Values(words[1..], name)
  }

  // ---- groups of a name and its numbers ----

  datatype Group = Group(name: string, values: seq<string>)

  predicate IsGroup(g: Group) {
    !Numeral(g.name) && forall v | v in g.values :: Numeral(v)
  }

  function GroupWords(g: Group): seq<string> {
    if g.values == [] then [] else [g.name] + g.values
  }

  function Flatten(gs: seq<Group>): seq<string> {
    if gs == [] then [] else GroupWords(gs[0]) + Flatten(gs[1..])
  }

  lemma {:induction false} NumeralsBehind(vs: seq<string>, rest: seq<string>)
    requires (forall v | v in vs :: Numeral(v)) && (rest == [] || !Numeral(rest[0]))
    ensures Numerals(vs + rest) == vs
  {
    if vs == [] {
      assert vs + rest == rest;
    } else {
      assert (vs + rest)[1..] == vs[1..] + rest;
      NumeralsBehind(vs[1..], rest);
    }
  }

  lemma {:induction false} ValuesBehind(front: seq<string>, rest: seq<string>, name: string)
    requires name !in front
    ensures Values(front + rest, name) == Values(rest, name)
  {
    if front == [] {
      assert front + rest == rest;
    } else {
      assert (front + rest)[1..] == front[1..] + rest;
      ValuesBehind(front[1..], rest, name);
    }
  }

  lemma {:induction false} FlattenHead(gs: seq<Group>)
    requires forall g | g in gs :: IsGroup(g)
    ensures var f := Flatten(gs); f == [] || !Numeral(f[0])
  {
    if gs != [] && gs[0].values == [] {
      FlattenHead(gs[1..]);
      assert GroupWords(gs[0]) + Flatten(gs[1..]) == Flatten(gs[1..]);
    } else if gs != [] {
      assert IsGroup(gs[0]);
    }
  }

  lemma {:induction false} NotNamed(gs: seq<Group>, name: string)
    requires !Numeral(name) && forall g | g in gs :: IsGroup(g) && g.name != name
    ensures name !in Flatten(gs)
  {
    if gs != [] {
      assert IsGroup(gs[0]) && gs[0].name != name;
      NotNamed(gs[1..], name);
    }
  }

  lemma GroupReads(g: Group, rest: seq<string>)
    requires IsGroup(g) && g.name !in rest && (rest == [] || !Numeral(rest[0]))
    ensures Values(GroupWords(g) + rest, g.name) == g.values
  {
    if g.values == [] {
      ValuesBehind(rest, [], g.name);
      assert rest + [] == rest && GroupWords(g) + rest == rest;
    } else {
      NumeralsBehind(g.values, rest);
      assert (GroupWords(g) + rest)[1..] == g.values + rest;
    }
  }

  lemma {:induction false} FlattenReads(gs: seq<Group>, i: nat)
    requires i < |gs| && forall g | g in gs :: IsGroup(g)
    requires forall j, k | 0 <= j < k < |gs| :: gs[j].name != gs[k].name
    ensures Values(Flatten(gs), gs[i].name) == gs[i].values
    decreases |gs|
  {
    var g, rest := gs[0], gs[1..];
    assert g in gs && gs[i] in gs;
    if i > 0 {
      FlattenReads(rest, i - 1);
      assert IsGroup(gs[i]);
      ValuesBehind(GroupWords(g), Flatten(rest), gs[i].name);
    } else {
      NotNamed(rest, g.name);
      FlattenHead(rest);
      GroupReads(g, Flatten(rest));
    }
  }

  // ---- the words of a profile ----

  function One(value: string): seq<string> {
    if value == "" then [] else [value]
  }

  function Two(value: string, extra: string): seq<string> {
    if value == "" then [] else [value] + One(extra)
  }

  function Groups(r: Params): seq<Group> {
    [Group("delay", Two(if r.reorder != "" && r.delay == "" then "10ms" else r.delay, r.jitter)),
     Group("loss", Two(r.loss, r.lossCorr)), Group("corrupt", One(r.corrupt)),
     Group("duplicate", One(r.duplicate)), Group("reorder", One(r.reorder)), Group("rate", One(r.rate))]
  }

  lemma FlattenCons(g: Group, gs: seq<Group>)
    ensures Flatten([g] + gs) == GroupWords(g) + Flatten(gs)
  {
    assert ([g] + gs)[1..] == gs;
  }

  lemma FlattenThree(a: Group, b: Group, c: Group, gs: seq<Group>)
    ensures Flatten([a, b, c] + gs) == GroupWords(a) + (GroupWords(b) + (GroupWords(c) + Flatten(gs)))
  {
    FlattenCons(c, gs);
    FlattenCons(b, [c] + gs);
    FlattenCons(a, [b] + ([c] + gs));
    assert [a] + ([b] + ([c] + gs)) == [a, b, c] + gs;
  }

  lemma FlattenSix(a: Group, b: Group, c: Group, d: Group, e: Group, f: Group)
    ensures Flatten([a, b, c, d, e, f])
         == GroupWords(a) + (GroupWords(b) + (GroupWords(c) + (GroupWords(d) + (GroupWords(e) + GroupWords(f)))))
  {
    FlattenThree(d, e, f, []);
    FlattenThree(a, b, c, [d, e, f]);
    assert [d, e, f] + [] == [d, e, f] && [a, b, c] + [d, e, f] == [a, b, c, d, e, f];
    assert GroupWords(f) + Flatten([]) == GroupWords(f);
  }

  lemma Associate(n: seq<string>, a: seq<string>, b: seq<string>, c: seq<string>, d: seq<string>, e: seq<string>, f: seq<string>)
    ensures n + a + b + c + d + e + f == n + (a + (b + (c + (d + (e + f)))))
  {
  }

  lemma OneIsGroup(name: string, value: string)
    ensures GroupWords(Group(name, One(value))) == Option1(name, value)
  {
  }

  lemma TwoIsGroup(name: string, value: string, extra: string)
    ensures GroupWords(Group(name, Two(value, extra))) == Option2(name, value, extra)
  {
  }

  lemma WordsAreGroups(r: Params)
    ensures Words(r, r.rate != "") == ["netem"] + Flatten(Groups(r))
  {
    var gs := Groups(r);
    var delay := if r.reorder != "" && r.delay == "" then "10ms" else r.delay;
    FlattenSix(gs[0], gs[1], gs[2], gs[3], gs[4], gs[5]);
    TwoIsGroup("delay", delay, r.jitter);
    TwoIsGroup("loss", r.loss, r.lossCorr);
    OneIsGroup("corrupt", r.corrupt);
    OneIsGroup("duplicate", r.duplicate);
    OneIsGroup("reorder", r.reorder);
    OneIsGroup("rate", r.rate);
    Associate(["netem"], Option2("delay", delay, r.jitter), Option2("loss", r.loss, r.lossCorr), Option1("corrupt", r.corrupt),
              Option1("duplicate", r.duplicate), Option1("reorder", r.reorder), Option1("rate", r.rate));
  }

  /** Each field is absent or starts like a number. */
  predicate Rolled(r: Params) {
    forall f: Field :: r.Get(f) == "" || Numeral(r.Get(f))
  }

  lemma GroupsAre(r: Params)
    requires Rolled(r)
    ensures forall g | g in Groups(r) :: IsGroup(g)
    ensures forall j, k | 0 <= j < k < |Groups(r)| :: Groups(r)[j].name != Groups(r)[k].name
  {
    assert r.Get(Delay) == r.delay && r.Get(Jitter) == r.jitter && r.Get(Loss) == r.loss && r.Get(LossCorr) == r.lossCorr;
    assert r.Get(Corrupt) == r.corrupt && r.Get(Duplicate) == r.duplicate;
    assert r.Get(Reorder) == r.reorder && r.Get(Rate) == r.rate;
    assert Numeral("10ms");
  }

  lemma GroupRead(r: Params, i: nat)
    requires Rolled(r) && i < 6
    ensures Values(Words(r, r.rate != ""), Groups(r)[i].name) == Groups(r)[i].values
  {
    var gs := Groups(r);
    GroupsAre(r);
    WordsAreGroups(r);
    GroupNamed(r, i);
    GroupReadBehind(gs, i);
  }

  lemma GroupNamed(r: Params, i: nat)
    requires i < 6
    ensures Groups(r)[i].name != "netem"
  {
  }

  lemma GroupReadBehind(gs: seq<Group>, i: nat)
    requires i < |gs| && gs[i].name != "netem" && forall g | g in gs :: IsGroup(g)
    requires forall j, k | 0 <= j < k < |gs| :: gs[j].name != gs[k].name
    ensures Values(["netem"] + Flatten(gs), gs[i].name) == gs[i].values
  {
    FlattenReads(gs, i);
    ValuesBehind(["netem"], Flatten(gs), gs[i].name);
  }

  /** The words are "netem" and, for every setting r has, its name with its number and its extra
      where there is one; nothing else. A jitter is written only behind a delay and a correlation
      only behind a loss, and a delay of 10ms appears where only the reordering needs one. */
  predicate SaysExactly(words: seq<string>, r: Params) {
    && words == ["netem"] + Flatten(Groups(r))
    && Values(words, "delay") == Two(if r.reorder != "" && r.delay == "" then "10ms" else r.delay, r.jitter)
    && Values(words, "loss") == Two(r.loss, r.lossCorr)
    && Values(words, "corrupt") == One(r.corrupt) && Values(words, "duplicate") == One(r.duplicate)
    && Values(words, "reorder") == One(r.reorder) && Values(words, "rate") == One(r.rate)
  }

  lemma WordsRead(r: Params, hasRate: bool)
    requires Rolled(r) && (hasRate <==> r.rate != "")
    ensures SaysExactly(Words(r, hasRate), r)
  {
    GroupRead(r, 0);
    GroupRead(r, 1);
    GroupRead(r, 2);
    GroupRead(r, 3);
    GroupRead(r, 4);
    GroupRead(r, 5);
    WordsAreGroups(r);
  }

  // ---- for an accepted profile ----

  lemma ScalarIsNumeral(kind: Kind, s: string)
    requires IsScalar(kind, s)
    ensures Numeral(s)
  {
  }

  /** A value the validator takes starts with a digit, and so does what it rolls to. */
  lemma ValueRolled(kind: Kind, v: string, u: real)
    requires IsValue(kind, v) && IsDraw(u)
    ensures Numeral(v) && Numeral(RollValue(v, u)) && TrimSpace(v) == v
  {
    var p, q := ValueShape(kind, v);
    if '-' in v {
      ScalarIsNumeral(kind, p);
      assert v[0] == p[0];
    }
    if '-' !in v || IsAscii(v) {
      AcceptedRolls(kind, v, u);
      ScalarIsNumeral(kind, RollValue(v, u));
    } else {
      ForeignRangeStays(kind, v);
    }
  }

  lemma FieldRolled(p: Params, f: Field, u: real)
    requires Valid(p) && IsDraw(u)
    ensures p.Get(f) == "" ==> RollValue(p.Get(f), u) == "" && RollPct(p.Get(f), u) == ""
    ensures p.Get(f) != "" ==> Numeral(RollValue(p.Get(f), u)) && Numeral(RollPct(p.Get(f), u))
  {
    if p.Get(f) != "" {
      ValueRolled(KindOf(f), p.Get(f), u);
    }
  }

  predicate FieldFrom(p: Params, r: Params, f: Field) {
    (r.Get(f) == "" || Numeral(r.Get(f))) && (r.Get(f) == "" <==> p.Get(f) == "")
  }

  /** Each field of a rolled profile is a number where the profile sets it, and absent
      otherwise. */
  predicate RolledFrom(p: Params, r: Params) {
    forall f: Field :: FieldFrom(p, r, f)
  }

  lemma OneRolled(p: Params, d: Draws, f: Field)
    requires Valid(p) && d.InUnit()
    ensures FieldFrom(p, RollAll(p, d), f)
  {
    match f
    case Delay => FieldRolled(p, f, d.delay);
    case Jitter => FieldRolled(p, f, d.jitter);
    case Loss => FieldRolled(p, f, d.loss);
    case LossCorr => FieldRolled(p, f, d.lossCorr);
    case Corrupt => FieldRolled(p, f, d.corrupt);
    case Duplicate => FieldRolled(p, f, d.duplicate);
    case Reorder => FieldRolled(p, f, d.reorder);
    case Rate => FieldRolled(p, f, d.rate);
  }

  lemma AllRolled(p: Params, d: Draws)
    requires Valid(p) && d.InUnit()
    ensures RolledFrom(p, RollAll(p, d))
  {
    forall f: Field ensures FieldFrom(p, RollAll(p, d), f) {
      OneRolled(p, d, f);
    }
  }

  lemma RolledWordsRead(p: Params, r: Params)
    requires RolledFrom(p, r)
    ensures SaysExactly(Words(r, p.rate != ""), r)
  {
    assert FieldFrom(p, r, Rate);
    assert forall f: Field :: FieldFrom(p, r, f) ==> r.Get(f) == "" || Numeral(r.Get(f));
    WordsRead(r, p.rate != "");
  }

  /** What tc is told for an accepted profile, for every draw: each setting that is set, with
      its rolled number, and no other. */
  lemma ArgsMeanProfile(p: Params, d: Draws)
    requires Valid(p) && d.InUnit()
    ensures RolledFrom(p, RollAll(p, d)) && SaysExactly(NetemArgs(p, d), RollAll(p, d))
  {
    AllRolled(p, d);
    RolledWordsRead(p, RollAll(p, d));
  }
}
