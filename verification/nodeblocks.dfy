/** The first pass over the arguments of a deployment: node names open blocks, the items that
    follow belong to the block, and which container image each node gets is kept inside one
    string, osvers, of the form node0=el8,node1=el9. */
module NodeBlocks {
  import opened Text
  import Keywords

  // ---- the string and the map in it ----

  /** The last c in s, or |s| when there is none. */
  function LastIndexOf(s: string, c: char): (i: nat)
    ensures i <= |s| && (i < |s| ==> s[i] == c)
  {
    if c !in s then |s|
    else if s[|s| - 1] == c then |s| - 1
    else LastIndexOf(s[..|s| - 1], c)
  }

  /** Replacing =[^=]+$ by text: the last equals sign, when something follows it, and what
      follows. */
  function Rewrite(osvers: string, text: string): string {
    var i := LastIndexOf(osvers, '=');
    if i + 1 < |osvers| then osvers[..i] + text else osvers
  }

  function AddPair(m: map<string, string>, pair: string): map<string, string> {
    var keyValue := Split(pair, '=');
    if |keyValue| == 2 then m[keyValue[0] := keyValue[1]] else m
  }

  function AddPairs(m: map<string, string>, pairs: seq<string>): map<string, string>
    decreases |pairs|
  {
    if pairs == [] then m else AddPair(AddPairs(m, pairs[..|pairs| - 1]), pairs[|pairs| - 1])
  }

  method ConvertStringToMap(input: string) returns (result: map<string, string>)
    ensures result == AddPairs(map[], Split(input, ','))
  {
    result := map[];
    var pairs := Split(input, ',');
    for i := 0 to |pairs|
      invariant result == AddPairs(map[], pairs[..i])
    {
      assert pairs[..i + 1][..i] == pairs[..i];
      var keyValue := Split(pairs[i], '=');
      if |keyValue| == 2 {
        result := result[keyValue[0] := keyValue[1]];
      }
    }
    assert pairs[..|pairs|] == pairs;
  }

  // ---- what the string stands for ----

  /** A node with its system, or the bare name left of a node whose system was removed. */
  datatype Entry = Live(name: string, os: string) | Removed(name: string)

  predicate IsWord(s: string) {
    ',' !in s && '=' !in s
  }

  predicate Writable(e: Entry) {
    IsWord(e.name) && (e.Live? ==> IsWord(e.os) && e.os != "")
  }

  predicate AllWritable(es: seq<Entry>) {
    forall e | e in es :: Writable(e)
  }

  function EntryText(e: Entry): string {
    if e.Live? then e.name + "=" + e.os else e.name
  }

  function TextOf(es: seq<Entry>): string {
    if es == [] then ""
    else if |es| == 1 then EntryText(es[0])
    else TextOf(es[..|es| - 1]) + "," + EntryText(es[|es| - 1])
  }

  function AddEntry(m: map<string, string>, e: Entry): map<string, string> {
    if e.Live? then m[e.name := e.os] else m
  }

  function MapOf(es: seq<Entry>): map<string, string> {
    if es == [] then map[] else AddEntry(MapOf(es[..|es| - 1]), es[|es| - 1])
  }

  function Texts(es: seq<Entry>): (ts: seq<string>)
    ensures |ts| == |es| && forall i | 0 <= i < |es| :: ts[i] == EntryText(es[i])
  {
    seq(|es|, i requires 0 <= i < |es| => EntryText(es[i]))
  }

  lemma {:induction false} JoinSnoc(ps: seq<string>, p: string, sep: char)
    requires ps != []
    ensures Join(ps + [p], sep) == Join(ps, sep) + [sep] + p
    decreases |ps|
  {
    if |ps| == 1 {
      assert (ps + [p])[1..] == [p];
    } else {
      JoinSnoc(ps[1..], p, sep);
      assert (ps + [p])[1..] == ps[1..] + [p];
    }
  }

  /** What stands in front of an entry added at the end. */
  function Front(es: seq<Entry>): string {
    if es == [] then "" else TextOf(es) + ","
  }

  lemma TextSnoc(es: seq<Entry>, e: Entry)
    ensures TextOf(es + [e]) == Front(es) + EntryText(e)
  {
    assert (es + [e])[..|es|] == es;
  }

  lemma SnocIs<T>(s: seq<T>)
    requires s != []
    ensures s == s[..|s| - 1] + [s[|s| - 1]]
  {
  }

  lemma {:induction false} TextIsJoin(es: seq<Entry>)
    ensures TextOf(es) == Join(Texts(es), ',')
    decreases |es|
  {
    if |es| > 1 {
      var init, last := es[..|es| - 1], es[|es| - 1];
      SnocIs(es);
      TextSnoc(init, last);
      TextIsJoin(init);
      assert Texts(es) == Texts(init) + [EntryText(last)];
      JoinSnoc(Texts(init), EntryText(last), ',');
    }
  }

  lemma AddEntryText(m: map<string, string>, e: Entry)
    requires Writable(e)
    ensures AddPair(m, EntryText(e)) == AddEntry(m, e)
  {
    if e.Live? {
      SplitJoin([e.name, e.os], '=');
      assert Join([e.name, e.os], '=') == EntryText(e);
    } else {
      SplitJoin([e.name], '=');
    }
  }

  lemma {:induction false} AddTexts(es: seq<Entry>)
    requires AllWritable(es)
    ensures AddPairs(map[], Texts(es)) == MapOf(es)
    decreases |es|
  {
    if es != [] {
      var init, last := es[..|es| - 1], es[|es| - 1];
      AddTexts(init);
      assert Texts(es)[..|es| - 1] == Texts(init);
      AddEntryText(MapOf(init), last);
    }
  }

  /** Decoding the text of some entries gives the systems of the live ones. */
  lemma DecodeText(es: seq<Entry>)
    requires AllWritable(es) && es != []
    ensures AddPairs(map[], Split(TextOf(es), ',')) == MapOf(es)
  {
    TextIsJoin(es);
    forall t | t in Texts(es) ensures ',' !in t {
      var i :| 0 <= i < |es| && Texts(es)[i] == t;
      assert Writable(es[i]);
    }
    SplitJoin(Texts(es), ',');
    AddTexts(es);
  }

  // ---- rewriting the string is rewriting the last live entry ----

  /** The entries up to the last live one, and whether there is one. */
  function UpToLive(es: seq<Entry>): (r: seq<Entry>)
    ensures r == [] || (r[|r| - 1].Live? && r <= es)
  {
    if es == [] || es[|es| - 1].Live? then es else UpToLive(es[..|es| - 1])
  }

  function LastLive(es: seq<Entry>): Option<Entry> {
    var r := UpToLive(es);
    if r == [] then None else Some(r[|r| - 1])
  }

  /** The last live entry replaced, and the bare names behind it gone. */
  function Replace(es: seq<Entry>, f: string -> Entry): seq<Entry> {
    var r := UpToLive(es);
    if r == [] then es else r[..|r| - 1] + [f(r[|r| - 1].name)]
  }

  lemma {:induction false} LastIndexBehind(s: string, t: string, c: char)
    requires c !in t
    ensures var i, j := LastIndexOf(s, c), LastIndexOf(s + t, c);
            j == if i < |s| then i else |s + t|
    decreases |t|
  {
    if t == "" {
      assert s + t == s;
    } else {
      var init := t[..|t| - 1];
      assert t == init + [t[|t| - 1]];
      assert (s + t)[..|s + t| - 1] == s + init && s + t == (s + init) + [t[|t| - 1]];
      LastIndexBehind(s, init, c);
      LastIndexFound(s + init, c);
    }
  }

  lemma {:induction false} LastIndexFound(s: string, c: char)
    ensures LastIndexOf(s, c) < |s| <==> c in s
  {
    if c in s && s[|s| - 1] != c {
      assert s == s[..|s| - 1] + [s[|s| - 1]];
      LastIndexFound(s[..|s| - 1], c);
    }
  }

  lemma RewriteBehind(s: string, t: string, text: string)
    requires '=' !in t && (LastIndexOf(s, '=') + 1 < |s| || '=' !in s)
    ensures Rewrite(s + t, text) == if '=' in s then Rewrite(s, text) else s + t
  {
    LastIndexBehind(s, t, '=');
    LastIndexFound(s, '=');
    CutConcat(s, t, LastIndexOf(s, '='));
  }

  lemma CutConcat(s: string, t: string, i: nat)
    requires i <= |s|
    ensures (s + t)[..i] == s[..i]
  {
  }

  lemma RewriteAt(front: string, name: string, os: string, text: string)
    requires '=' !in os && os != ""
    ensures var s := front + (name + "=" + os);
            && Rewrite(s, text) == front + (name + text)
            && '=' in s && LastIndexOf(s, '=') + 1 < |s|
  {
    var before := front + name;
    var s := before + "=" + os;
    assert front + (name + "=" + os) == s && front + (name + text) == before + text;
    LastIndexBehind(before + "=", os, '=');
    CutConcat(before, "=" + os, |before|);
    assert s == before + ("=" + os) && s[|before|] == '=';
  }

  /** The text replacing =os turns the entry of each name into the one f gives. */
  ghost predicate Writes(text: string, f: string -> Entry) {
    forall name :: EntryText(f(name)) == name + text
  }

  lemma {:induction false} RewriteText(es: seq<Entry>, text: string, f: string -> Entry)
    requires AllWritable(es) && Writes(text, f)
    ensures Rewrite(TextOf(es), text) == TextOf(Replace(es, f))
    ensures '=' in TextOf(es) <==> UpToLive(es) != []
    ensures '=' in TextOf(es) ==> LastIndexOf(TextOf(es), '=') + 1 < |TextOf(es)|
    decreases |es|
  {
    if es != [] {
      var init, last := es[..|es| - 1], es[|es| - 1];
      assert Writable(last);
      if last.Live? {
        SnocIs(es);
        RewriteLive(init, last.name, last.os, text, f(last.name));
        assert Replace(es, f) == init + [f(last.name)];
      } else {
        RewriteText(init, text, f);
        RewriteRemoved(es, text, f);
      }
    }
  }

  lemma RewriteLive(init: seq<Entry>, name: string, os: string, text: string, e: Entry)
    requires '=' !in os && os != "" && EntryText(e) == name + text
    ensures var s := TextOf(init + [Live(name, os)]);
            && Rewrite(s, text) == TextOf(init + [e])
            && '=' in s && LastIndexOf(s, '=') + 1 < |s|
  {
    TextSnoc(init, Live(name, os));
    TextSnoc(init, e);
    RewriteAt(Front(init), name, os, text);
  }

  lemma RewriteRemoved(es: seq<Entry>, text: string, f: string -> Entry)
    requires es != [] && Writable(es[|es| - 1]) && es[|es| - 1].Removed?
    requires var init := es[..|es| - 1];
             && Rewrite(TextOf(init), text) == TextOf(Replace(init, f))
             && ('=' in TextOf(init) <==> UpToLive(init) != [])
             && ('=' in TextOf(init) ==> LastIndexOf(TextOf(init), '=') + 1 < |TextOf(init)|)
    ensures Rewrite(TextOf(es), text) == TextOf(Replace(es, f))
    ensures '=' in TextOf(es) <==> UpToLive(es) != []
    ensures '=' in TextOf(es) ==> LastIndexOf(TextOf(es), '=') + 1 < |TextOf(es)|
  {
    var init, name := es[..|es| - 1], es[|es| - 1].name;
    var t := if |es| == 1 then name else "," + name;
    RemovedText(init, name, t);
    SnocIs(es);
    ReplaceRemoved(es, f);
    RewriteBehind(TextOf(init), t, text);
    StillLast(TextOf(init), t);
  }

  lemma ReplaceRemoved(es: seq<Entry>, f: string -> Entry)
    requires es != [] && es[|es| - 1].Removed?
    ensures UpToLive(es) == UpToLive(es[..|es| - 1])
    ensures Replace(es, f) == if UpToLive(es) == [] then es else Replace(es[..|es| - 1], f)
  {
  }

  lemma RemovedText(init: seq<Entry>, name: string, t: string)
    requires IsWord(name) && t == if init == [] then name else "," + name
    ensures TextOf(init + [Removed(name)]) == TextOf(init) + t && '=' !in t
  {
    TextSnoc(init, Removed(name));
    if init == [] {
      EmptyConcat(name);
    } else {
      Associate(TextOf(init), ",", name);
    }
  }

  lemma EmptyConcat(s: string)
    ensures "" + s == s
  {
  }

  lemma StillLast(s: string, t: string)
    requires '=' !in t && ('=' in s ==> LastIndexOf(s, '=') + 1 < |s|)
    ensures '=' in s + t <==> '=' in s
    ensures '=' in s + t ==> LastIndexOf(s + t, '=') + 1 < |s + t|
  {
    LastIndexBehind(s, t, '=');
    LastIndexFound(s, '=');
  }

  // ---- the pass over the arguments ----

  type Parser = string -> Keywords.Keyword

  /** What a replacement template becomes for a match, by the rules of Go's regexp. */
  type Expansion = (string, string) -> string

  /** Only what starts with a dollar sign is replaced. */
  ghost predicate RegexpRules(expand: Expansion) {
    && (forall template, found :: '$' !in template ==> expand(template, found) == template)
    && (forall template, found :: HasPrefix(template, "=") ==> HasPrefix(expand(template, found), "="))
  }

  datatype Context = Context(parse: Parser, expand: Expansion, provider: string)

  datatype State = State(osvers: string, providers: map<string, string>, exposed: map<string, string>,
                         definitions: map<string, seq<string>>, current: string)

  function Start(c: Context): State {
    State("node0=el8", map["node0" := c.provider], map[], map[], "node0")
  }

  /** What an argument does to the systems of the nodes. */
  datatype Effect = Open(name: string, first: bool) | Tag(os: string) | Remove | Keep

  predicate IsNode(arg: string) {
    HasPrefix(arg, "node")
  }

  function ProviderOf(s: State): string {
    if s.current in s.providers then s.providers[s.current] else ""
  }

  /** The provider an item of a block selects for its node, if it selects one. */
  function Selects(c: Context, s: State, arg: string): Option<string> {
    var k := c.parse(arg);
    if k.cmd == "os" then None
    else if "docker-image" in k.args then Some("docker-image")
    else if "expose" in k.args then None
    else if k.cmd == "k3d" || arg == "provider:kubectl" || (ProviderOf(s) != "kubectl" && HasSuffix(k.cmd, "-operator"))
    then Some("kubectl")
    else None
  }

  predicate Exposes(k: Keywords.Keyword) {
    k.cmd != "os" && "docker-image" !in k.args && "expose" in k.args
  }

  function EffectOf(c: Context, s: State, arg: string, i: nat): Effect {
    if IsNode(arg) then Open(arg, i == 0)
    else if c.parse(arg).cmd == "os" then Tag(TrimPrefix(arg, "os:"))
    else if Selects(c, s, arg).Some? then Remove
    else Keep
  }

  function Matched(osvers: string): string {
    osvers[LastIndexOf(osvers, '=')..]
  }

  function Rewritten(c: Context, osvers: string, template: string): string {
    Rewrite(osvers, c.expand(template, Matched(osvers)))
  }

  /** The text matched is what is rewritten: it starts with the last equals sign, and the rest of
      the string stays. */
  lemma MatchedIsRewritten(osvers: string, text: string)
    requires LastIndexOf(osvers, '=') + 1 < |osvers|
    ensures var front, found := osvers[..LastIndexOf(osvers, '=')], Matched(osvers);
            && osvers == front + found && Rewrite(osvers, text) == front + text
            && |found| > 1 && found[0] == '=' && '=' !in found[1..]
  {
    var i := LastIndexOf(osvers, '=');
    NoneBehind(osvers, '=');
    assert Matched(osvers)[1..] == osvers[i + 1..];
  }

  lemma {:induction false} NoneBehind(s: string, c: char)
    requires LastIndexOf(s, c) < |s|
    ensures c !in s[LastIndexOf(s, c) + 1..]
    decreases |s|
  {
    if s[|s| - 1] != c {
      var init, i := s[..|s| - 1], LastIndexOf(s, c);
      LastIndexFound(init, c);
      NoneBehind(init, c);
      assert s[i + 1..] == init[i + 1..] + [s[|s| - 1]];
    }
  }

  function OnText(c: Context, e: Effect, osvers: string): string {
    match e
    case Open(name, first) => if first then name + "=el8" else osvers + "," + name + "=el8"
    case Tag(os) => Rewritten(c, osvers, "=" + os)
    case Remove => Rewritten(c, osvers, "")
    case Keep => osvers
  }

  function Step(c: Context, s: State, arg: string, i: nat): State {
    var osvers := OnText(c, EffectOf(c, s, arg, i), s.osvers);
    if IsNode(arg) then
      s.(osvers := osvers, current := arg, providers := s.providers[arg := c.provider])
    else
      var k := c.parse(arg);
      var own := if s.current in s.definitions then s.definitions[s.current] else [];
      var chosen := Selects(c, s, arg);
      s.(osvers := osvers,
         definitions := s.definitions[s.current := own + [arg]],
         providers := if chosen.Some? then s.providers[s.current := chosen.value] else s.providers,
         exposed := if Exposes(k) then s.exposed[s.current := k.args["expose"]] else s.exposed)
  }

  function Run(c: Context, args: seq<string>): State {
    if args == [] then Start(c) else Step(c, Run(c, args[..|args| - 1]), args[|args| - 1], |args| - 1)
  }

  method HandleArg(c: Context, s: State, arg: string, i: nat) returns (t: State)
    ensures t == Step(c, s, arg, i)
  {
    var osvers, currentNode, nodeProvider, exposePorts := s.osvers, s.current, s.providers, s.exposed;
    var nodeDefinitions := s.definitions;
    if IsNode(arg) {
      osvers := if i == 0 then arg + "=el8" else osvers + "," + arg + "=el8";
      currentNode := arg;
      nodeProvider := nodeProvider[currentNode := c.provider];
    } else {
      var own := if currentNode in nodeDefinitions then nodeDefinitions[currentNode] else [];
      nodeDefinitions := nodeDefinitions[currentNode := own + [arg]];
      var keyword := c.parse(arg);
      if keyword.cmd == "os" {
        osvers := Rewritten(c, osvers, "=" + TrimPrefix(arg, "os:"));
      } else if "docker-image" in keyword.args {
        nodeProvider := nodeProvider[currentNode := "docker-image"];
        osvers := Rewritten(c, osvers, "");
      } else if "expose" in keyword.args {
        exposePorts := exposePorts[currentNode := keyword.args["expose"]];
      } else if keyword.cmd == "k3d" {
        nodeProvider := nodeProvider[currentNode := "kubectl"];
        osvers := Rewritten(c, osvers, "");
      } else if arg == "provider:kubectl" {
        nodeProvider := nodeProvider[currentNode := "kubectl"];
        osvers := Rewritten(c, osvers, "");
      } else if ProviderOf(s) != "kubectl" && HasSuffix(keyword.cmd, "-operator") {
        nodeProvider := nodeProvider[currentNode := "kubectl"];
        osvers := Rewritten(c, osvers, "");
      }
    }
    return State(osvers, nodeProvider, exposePorts, nodeDefinitions, currentNode);
  }

  method DeployHosts(c: Context, args: seq<string>) returns (s: State)
    ensures s == Run(c, args)
  {
    s := Start(c);
    for i := 0 to |args|
      invariant s == Run(c, args[..i])
    {
      s := HandleArg(c, s, args[i], i);
      assert args[..i + 1][..i] == args[..i];
    }
    assert args[..|args|] == args;
  }

  // ---- the string follows the entries ----

  function OnEntries(e: Effect, es: seq<Entry>): seq<Entry> {
    match e
    case Open(name, first) => if first then [Live(name, "el8")] else es + [Live(name, "el8")]
    case Tag(os) => Replace(es, name => Live(name, os))
    case Remove => Replace(es, name => Removed(name))
    case Keep => es
  }

  /** The effect with the system that is written: an os item's text is a template. */
  function Written(c: Context, e: Effect, osvers: string): Effect {
    if e.Tag? then Tag(TrimPrefix(c.expand("=" + e.os, Matched(osvers)), "=")) else e
  }

  /** The effect of the last argument. */
  function LastEffect(c: Context, args: seq<string>): Effect
    requires args != []
  {
    var s := Run(c, args[..|args| - 1]);
    Written(c, EffectOf(c, s, args[|args| - 1], |args| - 1), s.osvers)
  }

  lemma WrittenAsGiven(c: Context, os: string, osvers: string)
    requires RegexpRules(c.expand) && '$' !in os
    ensures Written(c, Tag(os), osvers) == Tag(os)
  {
    assert c.expand("=" + os, Matched(osvers)) == "=" + os;
  }

  function EntriesOf(c: Context, args: seq<string>): seq<Entry> {
    if args == [] then [Live("node0", "el8")] else
      var init := args[..|args| - 1];
      OnEntries(LastEffect(c, args), EntriesOf(c, init))
  }

  /** Node names and systems are non-empty words. */
  predicate Plain(e: Effect) {
    match e
    case Open(name, first) => IsWord(name) && name != ""
    case Tag(os) => IsWord(os) && os != ""
    case _ => true
  }

  predicate AllPlain(c: Context, args: seq<string>) {
    args != [] ==>
      var init := args[..|args| - 1];
      AllPlain(c, init) && Plain(LastEffect(c, args))
  }

  lemma ReplaceWritable(es: seq<Entry>, f: string -> Entry)
    requires AllWritable(es) && es != [] && forall name | IsWord(name) :: Writable(f(name))
    ensures AllWritable(Replace(es, f)) && Replace(es, f) != []
  {
    var r := UpToLive(es);
    if r != [] {
      PrefixWritable(es, r);
      SnocWritable(r[..|r| - 1], f(r[|r| - 1].name));
    }
  }

  lemma PrefixWritable(es: seq<Entry>, r: seq<Entry>)
    requires AllWritable(es) && r <= es && r != []
    ensures AllWritable(r[..|r| - 1]) && Writable(r[|r| - 1])
  {
    assert r[|r| - 1] == es[|r| - 1] && es[|r| - 1] in es;
    forall e | e in r[..|r| - 1] ensures e in es {
    }
  }

  lemma SnocWritable(es: seq<Entry>, e: Entry)
    requires AllWritable(es) && Writable(e)
    ensures AllWritable(es + [e])
  {
  }

  lemma TagFollows(es: seq<Entry>, os: string)
    requires AllWritable(es) && es != [] && IsWord(os) && os != ""
    ensures var next := Replace(es, name => Live(name, os));
            Rewrite(TextOf(es), "=" + os) == TextOf(next) && AllWritable(next) && next != []
  {
    var f := name => Live(name, os);
    forall name ensures EntryText(f(name)) == name + ("=" + os) {
    }
    RewriteText(es, "=" + os, f);
    ReplaceWritable(es, f);
  }

  lemma RemoveFollows(es: seq<Entry>)
    requires AllWritable(es) && es != []
    ensures var next := Replace(es, name => Removed(name));
            Rewrite(TextOf(es), "") == TextOf(next) && AllWritable(next) && next != []
  {
    var f := name => Removed(name);
    forall name ensures EntryText(f(name)) == name + "" {
    }
    RewriteText(es, "", f);
    ReplaceWritable(es, f);
  }

  lemma OpenFollows(es: seq<Entry>, name: string)
    requires AllWritable(es) && es != [] && IsWord(name)
    ensures TextOf(es) + "," + name + "=el8" == TextOf(es + [Live(name, "el8")]) && AllWritable(es + [Live(name, "el8")])
  {
    TextSnoc(es, Live(name, "el8"));
    DefaultText(name);
    Associate(TextOf(es) + ",", name, "=el8");
  }

  lemma DefaultText(name: string)
    ensures EntryText(Live(name, "el8")) == name + "=el8"
  {
  }

  lemma Associate(a: string, b: string, c: string)
    ensures a + b + c == a + (b + c)
  {
  }

  lemma TemplateWritten(c: Context, os: string, osvers: string)
    requires RegexpRules(c.expand)
    ensures c.expand("=" + os, Matched(osvers)) == "=" + Written(c, Tag(os), osvers).os
  {
    var text := c.expand("=" + os, Matched(osvers));
    assert HasPrefix("=" + os, "=") && HasPrefix(text, "=");
    assert text == text[..1] + text[1..];
  }

  lemma OnTextFollows(c: Context, e: Effect, es: seq<Entry>)
    requires RegexpRules(c.expand) && Plain(Written(c, e, TextOf(es))) && AllWritable(es) && es != []
    ensures var next := OnEntries(Written(c, e, TextOf(es)), es);
            OnText(c, e, TextOf(es)) == TextOf(next) && AllWritable(next) && next != []
  {
    match e
    case Open(name, first) => OpenFollows(es, name);
    case Tag(os) =>
      TemplateWritten(c, os, TextOf(es));
      TagFollows(es, Written(c, e, TextOf(es)).os);
    case Remove =>
      assert c.expand("", Matched(TextOf(es))) == "";
      RemoveFollows(es);
    case Keep =>
  }

  /** For an argument without a dollar sign the system written is the one it names. */
  lemma LastEffectAsGiven(c: Context, args: seq<string>)
    requires RegexpRules(c.expand) && args != [] && '$' !in args[|args| - 1]
    ensures LastEffect(c, args) == EffectOf(c, Run(c, args[..|args| - 1]), args[|args| - 1], |args| - 1)
  {
    var s, arg := Run(c, args[..|args| - 1]), args[|args| - 1];
    var e := EffectOf(c, s, arg, |args| - 1);
    if e.Tag? {
      assert '$' !in TrimPrefix(arg, "os:");
      WrittenAsGiven(c, e.os, s.osvers);
    }
  }

  /** The systems the containers get. */
  function Decoded(c: Context, args: seq<string>): map<string, string> {
    AddPairs(map[], Split(Run(c, args).osvers, ','))
  }

  /** After any arguments with plain names and systems, the string is the text of the entries, so
      decoding it gives the systems of the live ones: an os item changes the last node not yet
      removed, an item that selects another provider removes it. */
  lemma OsversFollows(c: Context, args: seq<string>)
    requires RegexpRules(c.expand) && AllPlain(c, args)
    ensures var es := EntriesOf(c, args);
            && Run(c, args).osvers == TextOf(es) && AllWritable(es) && es != []
            && Decoded(c, args) == MapOf(es)
  {
    TextFollows(c, args);
    DecodeText(EntriesOf(c, args));
  }

  lemma {:induction false} TextFollows(c: Context, args: seq<string>)
    requires RegexpRules(c.expand) && AllPlain(c, args)
    ensures var es := EntriesOf(c, args); Run(c, args).osvers == TextOf(es) && AllWritable(es) && es != []
    decreases |args|
  {
    if args != [] {
      var init := args[..|args| - 1];
      TextFollows(c, init);
      OnTextFollows(c, EffectOf(c, Run(c, init), args[|args| - 1], |args| - 1), EntriesOf(c, init));
    }
  }

  // ---- and the entries follow the blocks ----

  /** What a reader expects: every item changes the node whose block it stands in. */
  datatype Blocks = Blocks(systems: map<string, string>, current: string)

  function OnBlocks(e: Effect, b: Blocks): Blocks {
    match e
    case Open(name, first) => Blocks((if first then map[] else b.systems)[name := "el8"], name)
    case Tag(os) => if b.current in b.systems then b.(systems := b.systems[b.current := os]) else b
    case Remove => b.(systems := b.systems - {b.current})
    case Keep => b
  }

  function BlocksOf(c: Context, args: seq<string>): Blocks {
    if args == [] then Blocks(map["node0" := "el8"], "node0") else
      var init := args[..|args| - 1];
      OnBlocks(LastEffect(c, args), BlocksOf(c, init))
  }

  /** The same with every system as the argument names it. */
  function Asked(c: Context, args: seq<string>): Blocks {
    if args == [] then Blocks(map["node0" := "el8"], "node0") else
      var init := args[..|args| - 1];
      OnBlocks(EffectOf(c, Run(c, init), args[|args| - 1], |args| - 1), Asked(c, init))
  }

  /** Without a dollar sign in the arguments the two are one. */
  lemma {:induction false} AskedIsBlocks(c: Context, args: seq<string>)
    requires RegexpRules(c.expand) && forall a | a in args :: '$' !in a
    ensures Asked(c, args) == BlocksOf(c, args)
    decreases |args|
  {
    if args != [] {
      LastEffectAsGiven(c, args);
      AskedIsBlocks(c, args[..|args| - 1]);
    }
  }

  predicate Agree(es: seq<Entry>, b: Blocks) {
    && MapOf(es) == b.systems
    && (b.current in b.systems ==> es != [] && es[|es| - 1] == Live(b.current, b.systems[b.current]))
  }

  /** The entries before the last live one. */
  function BeforeLast(es: seq<Entry>): seq<Entry> {
    var r := UpToLive(es);
    if r == [] then [] else r[..|r| - 1]
  }

  /** The item does not reach past its block. A system stays in it when its node is not yet removed,
      or there is no other node left, or the other node has that system already. A removal stays in
      it when no other entry of its node is alive; behind an earlier removal, when what it removes
      is there once more. */
  predicate StaysInBlock(e: Effect, es: seq<Entry>, b: Blocks) {
    (e.Tag? || e.Remove?) && LastLive(es).Some? ==>
      var last, before := LastLive(es).value, MapOf(BeforeLast(es));
      if e.Tag? then b.current in b.systems || last == Live(last.name, e.os)
      else if b.current in b.systems then b.current !in before
      else last.name in before && last == Live(last.name, before[last.name])
  }

  lemma MapSnoc(es: seq<Entry>, e: Entry)
    ensures MapOf(es + [e]) == AddEntry(MapOf(es), e)
  {
    assert (es + [e])[..|es|] == es;
  }

  /** Bare names behind the last live entry do not show in the map. */
  lemma {:induction false} MapUpToLive(es: seq<Entry>)
    ensures MapOf(UpToLive(es)) == MapOf(es)
    decreases |es|
  {
    if es != [] && es[|es| - 1].Removed? {
      MapUpToLive(es[..|es| - 1]);
    }
  }

  /** What replacing the last live entry does to the map. */
  lemma MapOfReplace(es: seq<Entry>, f: string -> Entry)
    requires UpToLive(es) != []
    ensures var last, before := LastLive(es).value, MapOf(BeforeLast(es));
            && last.Live? && MapOf(es) == before[last.name := last.os]
            && MapOf(Replace(es, f)) == AddEntry(before, f(last.name))
  {
    var r := UpToLive(es);
    MapUpToLive(es);
    SnocIs(r);
    MapSnoc(BeforeLast(es), r[|r| - 1]);
    MapSnoc(BeforeLast(es), f(r[|r| - 1].name));
  }

  lemma TagAgreesIff(os: string, es: seq<Entry>, b: Blocks)
    requires Agree(es, b)
    ensures MapOf(OnEntries(Tag(os), es)) == OnBlocks(Tag(os), b).systems <==> StaysInBlock(Tag(os), es, b)
  {
    if UpToLive(es) != [] {
      var last, before := LastLive(es).value, MapOf(BeforeLast(es));
      MapOfReplace(es, name => Live(name, os));
      TagMaps(before, last.name, last.os, os);
    } else {
      MapUpToLive(es);
    }
  }

  lemma TagMaps(m: map<string, string>, n: string, was: string, os: string)
    ensures m[n := os] == m[n := was] <==> os == was
    ensures m[n := was][n := os] == m[n := os]
  {
    assert m[n := os][n] == os && m[n := was][n] == was;
  }

  lemma RemoveAgreesIff(es: seq<Entry>, b: Blocks)
    requires Agree(es, b)
    ensures MapOf(OnEntries(Remove, es)) == OnBlocks(Remove, b).systems <==> StaysInBlock(Remove, es, b)
  {
    if UpToLive(es) != [] {
      var last, before := LastLive(es).value, MapOf(BeforeLast(es));
      MapOfReplace(es, name => Removed(name));
      RemoveMaps(before, last.name, last.os, b.current);
    } else {
      MapUpToLive(es);
    }
  }

  lemma RemoveMaps(m: map<string, string>, n: string, was: string, current: string)
    ensures m == m[n := was] - {n} <==> n !in m
    ensures current !in m[n := was] ==> m[n := was] - {current} == m[n := was]
    ensures m == m[n := was] <==> n in m && m[n] == was
  {
    assert m[n := was][n] == was;
  }

  lemma OpenAgrees(name: string, first: bool, es: seq<Entry>, b: Blocks)
    requires Agree(es, b)
    ensures MapOf(OnEntries(Open(name, first), es)) == OnBlocks(Open(name, first), b).systems
  {
    if first {
      MapSnoc([], Live(name, "el8"));
      assert [] + [Live(name, "el8")] == [Live(name, "el8")];
    } else {
      MapSnoc(es, Live(name, "el8"));
    }
  }

  /** One argument keeps the string's map equal to the intended one exactly when it stays in its
      block. */
  lemma StepAgreesIff(e: Effect, es: seq<Entry>, b: Blocks)
    requires Agree(es, b)
    ensures MapOf(OnEntries(e, es)) == OnBlocks(e, b).systems <==> StaysInBlock(e, es, b)
  {
    match e
    case Open(name, first) => OpenAgrees(name, first, es, b);
    case Tag(os) => TagAgreesIff(os, es, b);
    case Remove => RemoveAgreesIff(es, b);
    case Keep =>
  }

  lemma StepKeepsAgree(e: Effect, es: seq<Entry>, b: Blocks)
    requires Agree(es, b) && StaysInBlock(e, es, b)
    ensures Agree(OnEntries(e, es), OnBlocks(e, b))
  {
    StepAgreesIff(e, es, b);
  }

  /** Every item stays in its block. */
  predicate AllStay(c: Context, args: seq<string>) {
    args != [] ==>
      var init := args[..|args| - 1];
      AllStay(c, init) && StaysInBlock(LastEffect(c, args), EntriesOf(c, init), BlocksOf(c, init))
  }

  lemma {:induction false} EntriesFollow(c: Context, args: seq<string>)
    requires AllStay(c, args)
    ensures Agree(EntriesOf(c, args), BlocksOf(c, args))
    decreases |args|
  {
    if args != [] {
      var init := args[..|args| - 1];
      EntriesFollow(c, init);
      StepKeepsAgree(LastEffect(c, args), EntriesOf(c, init), BlocksOf(c, init));
    } else {
      MapSnoc([], Live("node0", "el8"));
      assert [] + [Live("node0", "el8")] == [Live("node0", "el8")];
    }
  }

  /** After every argument, decoding the string gives each node its last system, el8 if it was given
      none, and leaves out exactly the nodes that went to another provider. */
  predicate AlwaysIntended(c: Context, args: seq<string>) {
    && (args != [] ==> AlwaysIntended(c, args[..|args| - 1]))
    && Decoded(c, args) == BlocksOf(c, args).systems
  }

  /** That is so if and only if every item stays in its block. */
  lemma {:induction false} OsversIsIntendedIff(c: Context, args: seq<string>)
    requires RegexpRules(c.expand) && AllPlain(c, args)
    ensures AlwaysIntended(c, args) <==> AllStay(c, args)
    decreases |args|
  {
    OsversFollows(c, args);
    if args != [] {
      var init := args[..|args| - 1];
      OsversIsIntendedIff(c, init);
      if AllStay(c, init) {
        EntriesFollow(c, init);
        StepAgreesIff(LastEffect(c, args), EntriesOf(c, init), BlocksOf(c, init));
      }
    } else {
      EntriesFollow(c, args);
    }
  }

  lemma {:induction false} PairsAreWords(pairs: seq<string>)
    requires forall p | p in pairs :: ',' !in p
    ensures forall k | k in AddPairs(map[], pairs) :: IsWord(k) && IsWord(AddPairs(map[], pairs)[k])
    decreases |pairs|
  {
    if pairs != [] {
      var init, last := pairs[..|pairs| - 1], pairs[|pairs| - 1];
      PairsAreWords(init);
      var parts := Split(last, '=');
      forall p | p in parts ensures IsWord(p) {
        PartOf(last, '=', p);
      }
    }
  }

  lemma {:induction false} PartOf(s: string, sep: char, p: string)
    requires p in Split(s, sep)
    ensures forall c | c in p :: c in s
    decreases |s|
  {
    var i := IndexOf(s, sep);
    SplitStep(s, sep);
    if p == s[..i] {
      PrefixIn(s, i);
    } else {
      assert p in Split(s, sep)[1..];
      PartOf(s[i + 1..], sep, p);
      SuffixIn(s, i + 1);
    }
  }

  lemma PrefixIn(s: string, i: nat)
    requires i <= |s|
    ensures forall c | c in s[..i] :: c in s
  {
  }

  lemma SuffixIn(s: string, i: nat)
    requires i <= |s|
    ensures forall c | c in s[i..] :: c in s
  {
  }

  /** Only words can be what was intended: a name or a system with a comma or an equals sign never
      comes out of the string again. */
  lemma OnlyWordsComeBack(c: Context, args: seq<string>)
    ensures Decoded(c, args) == BlocksOf(c, args).systems ==>
              forall n | n in BlocksOf(c, args).systems :: IsWord(n) && IsWord(BlocksOf(c, args).systems[n])
  {
    PairsAreWords(Split(Run(c, args).osvers, ','));
  }

  // ---- arguments it goes wrong for ----

  /** An item that gives its node another provider, whatever came before. */
  predicate Diverts(c: Context, arg: string) {
    var k := c.parse(arg);
    !IsNode(arg) && k.cmd != "os" && ("docker-image" in k.args || ("expose" !in k.args && k.cmd == "k3d"))
  }

  /** An os item with a system that is a word and no template. */
  predicate GivesSystem(c: Context, arg: string, os: string) {
    && c.parse(arg).cmd == "os" && arg == "os:" + os && IsWord(os) && os != "" && '$' !in os
  }

  predicate IsNodeWord(name: string) {
    IsNode(name) && IsWord(name)
  }

  /** One more argument. */
  lemma More(c: Context, args: seq<string>, arg: string)
    ensures var more := args + [arg];
            && EntriesOf(c, more) == OnEntries(LastEffect(c, more), EntriesOf(c, args))
            && BlocksOf(c, more) == OnBlocks(LastEffect(c, more), BlocksOf(c, args))
            && (AllPlain(c, more) <==> AllPlain(c, args) && Plain(LastEffect(c, more)))
            && LastEffect(c, more) == Written(c, EffectOf(c, Run(c, args), arg, |args|), Run(c, args).osvers)
  {
    assert (args + [arg])[..|args|] == args;
  }

  lemma MoreNode(c: Context, args: seq<string>, name: string)
    requires IsNodeWord(name)
    ensures LastEffect(c, args + [name]) == Open(name, args == [])
    ensures AllPlain(c, args) ==> AllPlain(c, args + [name])
  {
    More(c, args, name);
  }

  lemma MoreDiverts(c: Context, args: seq<string>, item: string)
    requires Diverts(c, item)
    ensures LastEffect(c, args + [item]) == Remove && (AllPlain(c, args) ==> AllPlain(c, args + [item]))
  {
    More(c, args, item);
  }

  lemma MoreSystem(c: Context, args: seq<string>, item: string, os: string)
    requires RegexpRules(c.expand) && GivesSystem(c, item, os)
    ensures LastEffect(c, args + [item]) == Tag(os) && (AllPlain(c, args) ==> AllPlain(c, args + [item]))
  {
    More(c, args, item);
    SystemEffect(c, Run(c, args), item, os, |args|);
    WrittenAsGiven(c, os, Run(c, args).osvers);
  }

  lemma OtherPrefix(s: string, prefix: string)
    requires s != "" && prefix != "" && s[0] != prefix[0]
    ensures !HasPrefix(s, prefix)
  {
    assert |prefix| <= |s| ==> s[..|prefix|][0] == s[0];
  }

  lemma SystemEffect(c: Context, s: State, item: string, os: string, i: nat)
    requires GivesSystem(c, item, os)
    ensures EffectOf(c, s, item, i) == Tag(os)
  {
    assert item[0] == 'o' && item[..3] == "os:" && item[3..] == os;
    OtherPrefix(item, "node");
  }

  /** A node, as the first argument, and another. */
  lemma TwoNodes(c: Context, a: string, b: string)
    requires IsNodeWord(a) && IsNodeWord(b)
    ensures EntriesOf(c, [a, b]) == [Live(a, "el8"), Live(b, "el8")] && AllPlain(c, [a, b])
    ensures BlocksOf(c, [a, b]) == Blocks(map[a := "el8"][b := "el8"], b)
  {
    MoreNode(c, [], a);
    More(c, [], a);
    assert [] + [a] == [a];
    MoreNode(c, [a], b);
    More(c, [a], b);
    assert [a] + [b] == [a, b];
  }

  lemma RemovedEntries(a: string, b: string)
    ensures var es := OnEntries(Remove, [Live(a, "el8"), Live(b, "el8")]);
            es == [Live(a, "el8"), Removed(b)] && UpToLive(es) == [Live(a, "el8")]
  {
    var es := [Live(a, "el8"), Removed(b)];
    assert [Live(a, "el8"), Live(b, "el8")][..1] == [Live(a, "el8")] == es[..1];
  }

  /** A node turned to another provider and then given a system: the system goes to the node before
      it. */
  lemma LateSystemHitsOther(c: Context, a: string, b: string, item: string, late: string, os: string)
    requires RegexpRules(c.expand) && IsNodeWord(a) && IsNodeWord(b) && a != b && Diverts(c, item) && GivesSystem(c, late, os)
    ensures var args := [a, b] + [item] + [late];
            Decoded(c, args) == map[a := os] && BlocksOf(c, args).systems == map[a := "el8"]
  {
    var one, two := [a, b] + [item], [a, b] + [item] + [late];
    TwoNodes(c, a, b);
    MoreDiverts(c, [a, b], item);
    More(c, [a, b], item);
    RemovedEntries(a, b);
    MoreSystem(c, one, late, os);
    More(c, one, late);
    assert EntriesOf(c, two) == [Live(a, os)];
    DecodedOne(c, two, Live(a, os));
  }

  lemma DecodedOne(c: Context, args: seq<string>, e: Entry)
    requires RegexpRules(c.expand) && AllPlain(c, args) && EntriesOf(c, args) == [e]
    ensures Decoded(c, args) == AddEntry(map[], e)
  {
    OsversFollows(c, args);
    assert [e][..0] == [];
  }

  /** A second item of a block that selects another provider, such as another docker-image: it
      removes the node before. */
  lemma SecondRemovalHitsOther(c: Context, a: string, b: string, item: string, again: string)
    requires RegexpRules(c.expand) && IsNodeWord(a) && IsNodeWord(b) && a != b && Diverts(c, item) && Diverts(c, again)
    ensures var args := [a, b] + [item] + [again];
            Decoded(c, args) == map[] && BlocksOf(c, args).systems == map[a := "el8"]
  {
    var one, two := [a, b] + [item], [a, b] + [item] + [again];
    TwoNodes(c, a, b);
    MoreDiverts(c, [a, b], item);
    More(c, [a, b], item);
    RemovedEntries(a, b);
    MoreDiverts(c, one, again);
    More(c, one, again);
    assert EntriesOf(c, two) == [Removed(a)];
    DecodedOne(c, two, Removed(a));
  }

  /** A node whose name opened a block before: the removal leaves its first entry alive. */
  lemma RemovalLeavesFirst(c: Context, a: string, item: string)
    requires RegexpRules(c.expand) && IsNodeWord(a) && Diverts(c, item)
    ensures var args := [a, a] + [item];
            Decoded(c, args) == map[a := "el8"] && BlocksOf(c, args).systems == map[]
  {
    var args := [a, a] + [item];
    TwoNodes(c, a, a);
    MoreDiverts(c, [a, a], item);
    More(c, [a, a], item);
    RemovedEntries(a, a);
    OsversFollows(c, args);
    MapUpToLive(EntriesOf(c, args));
    assert [Live(a, "el8")][..0] == [];
  }

  // ---- what the pass records besides ----

  /** The node whose block the next argument stands in. */
  function BlockAt(args: seq<string>): string {
    if args == [] then "node0"
    else if IsNode(args[|args| - 1]) then args[|args| - 1]
    else BlockAt(args[..|args| - 1])
  }

  /** The items that stand in the blocks of a node, in order. */
  function ItemsOf(args: seq<string>, node: string): seq<string> {
    if args == [] then [] else
      var init, last := args[..|args| - 1], args[|args| - 1];
      ItemsOf(init, node) + if !IsNode(last) && BlockAt(init) == node then [last] else []
  }

  /** Every item is recorded for the node whose block it stands in, and for no other. */
  lemma {:induction false} ItemsGoToTheirBlock(c: Context, args: seq<string>, node: string)
    ensures var s := Run(c, args);
            && s.current == BlockAt(args)
            && (if node in s.definitions then s.definitions[node] else []) == ItemsOf(args, node)
    decreases |args|
  {
    if args != [] {
      ItemsGoToTheirBlock(c, args[..|args| - 1], node);
    }
  }

  /** The node is one the deployment creates. */
  predicate Opened(args: seq<string>, node: string) {
    (node in args && IsNode(node)) || (node == "node0" && (args == [] || !IsNode(args[0])))
  }

  predicate TurnedAway(provider: string) {
    provider == "docker-image" || provider == "kubectl"
  }

  /** The node has a system exactly as long as no item gave it another provider. */
  predicate ProviderFits(c: Context, s: State, b: Blocks, node: string) {
    && node in s.providers
    && (node in b.systems ==> s.providers[node] == c.provider)
    && (node !in b.systems ==> TurnedAway(s.providers[node]))
  }

  lemma StepFits(c: Context, s: State, b: Blocks, arg: string, i: nat, node: string)
    requires s.current == b.current
    requires (IsNode(arg) && node == arg) || (ProviderFits(c, s, b, node) && !(IsNode(arg) && i == 0))
    ensures ProviderFits(c, Step(c, s, arg, i), OnBlocks(Written(c, EffectOf(c, s, arg, i), s.osvers), b), node)
  {
  }

  lemma {:induction false} SameCurrent(c: Context, args: seq<string>)
    ensures Run(c, args).current == BlocksOf(c, args).current
    decreases |args|
  {
    if args != [] {
      SameCurrent(c, args[..|args| - 1]);
    }
  }

  /** Every node the deployment creates either keeps a system and the default provider, or was
      turned into a node of another provider and has no system. */
  lemma {:induction false} SystemOrOtherProvider(c: Context, args: seq<string>, node: string)
    requires Opened(args, node)
    ensures ProviderFits(c, Run(c, args), BlocksOf(c, args), node)
    decreases |args|
  {
    if args != [] {
      var init, last := args[..|args| - 1], args[|args| - 1];
      assert args == init + [last];
      if !(IsNode(last) && node == last) {
        SystemOrOtherProvider(c, init, node);
      }
      SameCurrent(c, init);
      StepFits(c, Run(c, init), BlocksOf(c, init), last, |init|, node);
    }
  }
}
