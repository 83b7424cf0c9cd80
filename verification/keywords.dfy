/** Deployment keywords, cmd:version,option=value,..: parsing them and finding the options that
    nothing consumes. The alias tables of the version database are maps. */
module Keywords {
  import opened Text

  type Aliases = map<string, string>

  datatype Keyword = Keyword(cmd: string, args: map<string, string>)

  function Resolve(aliases: Aliases, name: string): string {
    if name in aliases then aliases[name] else name
  }

  predicate IsDeploymentVersion(text: string) {
    var bare := TrimPrefix(text, "v");
    HasPrefix(text, "node") || text == "default" || HasPrefix(bare, "main") || (bare != "" && IsDigit(bare[0]))
  }

  /** The keywords whose whole rest is one value. */
  predicate ListValued(cmd: string) {
    cmd in {"mongos-shard", "mongos-cfg", "haproxy-pg", "haproxy-patroni", "pgbouncer"}
  }

  /** strings.SplitN(text, sep, 2): the part before the first separator and the part behind it. */
  function Before(text: string, sep: char): string {
    text[..IndexOf(text, sep)]
  }

  function Behind(text: string, sep: char): string {
    if IndexOf(text, sep) == |text| then "" else text[IndexOf(text, sep) + 1..]
  }

  datatype Entry = Entry(key: string, value: string)

  function EntryOf(options: Aliases, pair: string): Entry {
    Entry(Resolve(options, Before(pair, '=')), Behind(pair, '='))
  }

  function Entries(options: Aliases, pairs: seq<string>): (es: seq<Entry>)
    ensures |es| == |pairs| && forall i | 0 <= i < |pairs| :: es[i] == EntryOf(options, pairs[i])
  {
    seq(|pairs|, i requires 0 <= i < |pairs| => EntryOf(options, pairs[i]))
  }

  /** Entries stored one after the other. */
  function PutAll(args: map<string, string>, es: seq<Entry>): map<string, string>
    decreases |es|
  {
    if es == [] then args else PutAll(args[es[0].key := es[0].value], es[1..])
  }

  lemma PutNext(args: map<string, string>, es: seq<Entry>, i: nat)
    requires i < |es|
    ensures PutAll(args, es[i..]) == PutAll(args[es[i].key := es[i].value], es[i + 1..])
  {
    assert es[i..][1..] == es[i + 1..];
  }

  lemma {:induction false} PutAllKeeps(args: map<string, string>, es: seq<Entry>, k: string)
    requires k in args
    ensures k in PutAll(args, es)
    decreases |es|
  {
    if es != [] {
      PutAllKeeps(args[es[0].key := es[0].value], es[1..], k);
    }
  }

  function VersionEntry(first: string): string {
    if IsDeploymentVersion(first) then first else "latest"
  }

  /** coroot-server selects the docker-image provider on its own. */
  function WithImage(cmd: string, args: map<string, string>): map<string, string> {
    if cmd == "coroot-server" && "docker-image" !in args then args["docker-image" := ""] else args
  }

  function Parsed(keywords: Aliases, options: Aliases, text: string): (k: Keyword)
    ensures "version" in k.args
  {
    var cmd := Resolve(keywords, Before(text, ':'));
    var rest := Behind(text, ':');
    if ListValued(cmd) then Keyword(cmd, map["version" := rest])
    else
      var pairs := Split(rest, ',');
      var first := map["version" := VersionEntry(pairs[0])];
      PutAllKeeps(first, Entries(options, pairs), "version");
      Keyword(cmd, WithImage(cmd, PutAll(first, Entries(options, pairs))))
  }

  method ParseDeploymentKeyword(keywords: Aliases, options: Aliases, text: string) returns (k: Keyword)
    ensures k == Parsed(keywords, options, text)
  {
    var args: map<string, string> := map[];
    var cmd, rest := Resolve(keywords, Before(text, ':')), Behind(text, ':');
    if ListValued(cmd) {
      args := args["version" := rest];
      return Keyword(cmd, args);
    }
    var pairs := Split(rest, ',');
    ghost var es := Entries(options, pairs);
    var i := 0;
    while i < |pairs|
      invariant i <= |pairs|
      invariant i == 0 ==> args == map[]
      invariant i > 0 ==> PutAll(args, es[i..]) == PutAll(map["version" := VersionEntry(pairs[0])], es)
    {
      if i == 0 {
        args := args["version" := VersionEntry(pairs[0])];
        assert es[0..] == es;
      }
      PutNext(args, es, i);
      args := args[Resolve(options, Before(pairs[i], '=')) := Behind(pairs[i], '=')];
      i := i + 1;
    }
    if cmd == "coroot-server" && "docker-image" !in args {
      args := args["docker-image" := ""];
    }
    return Keyword(cmd, args);
  }

  // ---- printing and parsing ----

  datatype Setting = Flag(key: string) | Value(key: string, value: string)

  function SettingText(o: Setting): string {
    if o.Flag? then o.key else o.key + "=" + o.value
  }

  function ValueOf(o: Setting): string {
    if o.Flag? then "" else o.value
  }

  function Texts(os: seq<Setting>): (ts: seq<string>)
    ensures |ts| == |os| && forall i | 0 <= i < |os| :: ts[i] == SettingText(os[i])
  {
    seq(|os|, i requires 0 <= i < |os| => SettingText(os[i]))
  }

  /** The keyword as a user writes it. A version comes first and has no value. */
  function Print(cmd: string, os: seq<Setting>): string {
    cmd + ":" + Join(Texts(os), ',')
  }

  /** No separators where they would be read as such; a value may hold '=' and ':'. */
  predicate Writable(cmd: string, os: seq<Setting>) {
    && os != [] && ':' !in cmd
    && forall o | o in os :: ',' !in o.key && '=' !in o.key && ',' !in ValueOf(o)
  }

  lemma CutPrinted(a: string, sep: char, b: string)
    requires sep !in a
    ensures Before(a + [sep] + b, sep) == a && Behind(a + [sep] + b, sep) == b
  {
    var s := a + [sep] + b;
    assert s[..|a|] == a;
    IndexOfIs(s, sep, |a|);
    assert s[|a| + 1..] == b;
  }

  lemma CutWhole(a: string, sep: char)
    requires sep !in a
    ensures Before(a, sep) == a && Behind(a, sep) == ""
  {
    assert a[..|a|] == a;
    IndexOfIs(a, sep, |a|);
  }

  lemma CutSetting(o: Setting)
    requires '=' !in o.key
    ensures Before(SettingText(o), '=') == o.key && Behind(SettingText(o), '=') == ValueOf(o)
  {
    if o.Flag? {
      CutWhole(o.key, '=');
    } else {
      CutPrinted(o.key, '=', o.value);
    }
  }

  function Keys(options: Aliases, os: seq<Setting>): set<string> {
    set o | o in os :: Resolve(options, o.key)
  }

  lemma {:induction false} PutAllSnoc(args: map<string, string>, es: seq<Entry>, e: Entry)
    ensures PutAll(args, es + [e]) == PutAll(args, es)[e.key := e.value]
    decreases |es|
  {
    if es == [] {
      assert es + [e] == [e];
    } else {
      assert (es + [e])[1..] == es[1..] + [e];
      PutAllSnoc(args[es[0].key := es[0].value], es[1..], e);
    }
  }

  lemma EntryOfSetting(options: Aliases, os: seq<Setting>, i: nat)
    requires i < |os| && '=' !in os[i].key
    ensures Entries(options, Texts(os))[i] == Entry(Resolve(options, os[i].key), ValueOf(os[i]))
  {
    CutSetting(os[i]);
  }

  /** The value the last setting with that name gives it. */
  function LastGiven(options: Aliases, os: seq<Setting>, key: string): string
    requires key in Keys(options, os)
    decreases |os|
  {
    var init, last := os[..|os| - 1], os[|os| - 1];
    assert os == init + [last];
    if Resolve(options, last.key) == key then ValueOf(last) else LastGiven(options, init, key)
  }

  lemma EntriesSnoc(options: Aliases, os: seq<Setting>, o: Setting)
    requires '=' !in o.key
    ensures Entries(options, Texts(os + [o]))
         == Entries(options, Texts(os)) + [Entry(Resolve(options, o.key), ValueOf(o))]
  {
    EntryOfSetting(options, os + [o], |os|);
    assert forall i | 0 <= i < |os| :: (os + [o])[i] == os[i];
  }

  lemma KeysSnoc(options: Aliases, os: seq<Setting>, o: Setting)
    ensures Keys(options, os + [o]) == Keys(options, os) + {Resolve(options, o.key)}
  {
    assert o in os + [o];
    forall p | p in os ensures p in os + [o] {
    }
  }

  /** What settings stored one after the other leave: the last value of each name, and the rest
      untouched. */
  predicate Stored(options: Aliases, args: map<string, string>, os: seq<Setting>, r: map<string, string>) {
    && r.Keys == args.Keys + Keys(options, os)
    && (forall k | k in Keys(options, os) :: r[k] == LastGiven(options, os, k))
    && forall k | k in args && k !in Keys(options, os) :: r[k] == args[k]
  }

  lemma LastGivenSnoc(options: Aliases, os: seq<Setting>, o: Setting, k: string)
    requires k in Keys(options, os + [o])
    ensures Resolve(options, o.key) == k ==> LastGiven(options, os + [o], k) == ValueOf(o)
    ensures Resolve(options, o.key) != k ==>
              k in Keys(options, os) && LastGiven(options, os + [o], k) == LastGiven(options, os, k)
  {
    KeysSnoc(options, os, o);
    assert (os + [o])[..|os|] == os;
  }

  lemma StoredSnoc(options: Aliases, args: map<string, string>, os: seq<Setting>, o: Setting, r: map<string, string>)
    requires Stored(options, args, os, r)
    ensures Stored(options, args, os + [o], r[Resolve(options, o.key) := ValueOf(o)])
  {
    var more, name := os + [o], Resolve(options, o.key);
    var put := r[name := ValueOf(o)];
    KeysSnoc(options, os, o);
    assert put.Keys == args.Keys + Keys(options, more);
    forall k | k in Keys(options, more) ensures put[k] == LastGiven(options, more, k) {
      LastGivenSnoc(options, os, o, k);
    }
  }

  lemma {:induction false} PutSettings(options: Aliases, args: map<string, string>, os: seq<Setting>)
    requires forall o | o in os :: '=' !in o.key
    ensures Stored(options, args, os, PutAll(args, Entries(options, Texts(os))))
    decreases |os|
  {
    if os != [] {
      var init, last := os[..|os| - 1], os[|os| - 1];
      assert os == init + [last];
      PutSettings(options, args, init);
      EntriesSnoc(options, init, last);
      PutAllSnoc(args, Entries(options, Texts(init)), Entry(Resolve(options, last.key), ValueOf(last)));
      StoredSnoc(options, args, init, last, PutAll(args, Entries(options, Texts(init))));
    }
  }

  lemma ReadPrinted(keywords: Aliases, options: Aliases, cmd: string, os: seq<Setting>)
    requires Writable(cmd, os) && !ListValued(Resolve(keywords, cmd))
    ensures var k, first := Resolve(keywords, cmd), map["version" := VersionEntry(SettingText(os[0]))];
            Parsed(keywords, options, Print(cmd, os))
            == Keyword(k, WithImage(k, PutAll(first, Entries(options, Texts(os)))))
  {
    var pairs := Texts(os);
    forall p | p in pairs ensures ',' !in p {
      var i :| 0 <= i < |os| && pairs[i] == p;
      assert os[i] in os;
    }
    CutPrinted(cmd, ':', Join(pairs, ','));
    SplitJoin(pairs, ',');
  }

  /** The keyword holds exactly these settings, each with the last value given, beside the version
      entry and coroot's own docker-image. */
  predicate Holds(options: Aliases, os: seq<Setting>, k: Keyword)
    requires os != []
  {
    && k.args.Keys == {"version"} + Keys(options, os) + (if k.cmd == "coroot-server" then {"docker-image"} else {})
    && (forall key | key in Keys(options, os) :: k.args[key] == LastGiven(options, os, key))
    && ("version" !in Keys(options, os) ==> k.args["version"] == VersionEntry(SettingText(os[0])))
    && (k.cmd == "coroot-server" && "docker-image" !in Keys(options, os) ==> k.args["docker-image"] == "")
  }

  lemma ImageAdded(cmd: string, args: map<string, string>)
    ensures var r := WithImage(cmd, args);
            && r.Keys == args.Keys + (if cmd == "coroot-server" then {"docker-image"} else {})
            && (forall k | k in args :: r[k] == args[k])
            && (cmd == "coroot-server" && "docker-image" !in args ==> r["docker-image"] == "")
  {
  }

  lemma HoldsSettings(options: Aliases, os: seq<Setting>, k: Keyword)
    requires os != [] && forall o | o in os :: '=' !in o.key
    requires var first := map["version" := VersionEntry(SettingText(os[0]))];
             k.args == WithImage(k.cmd, PutAll(first, Entries(options, Texts(os))))
    ensures Holds(options, os, k)
  {
    var first := map["version" := VersionEntry(SettingText(os[0]))];
    PutSettings(options, first, os);
    ImageAdded(k.cmd, PutAll(first, Entries(options, Texts(os))));
  }

  /** Parsing a printed keyword gives back its command and its settings. */
  lemma ParsePrinted(keywords: Aliases, options: Aliases, cmd: string, os: seq<Setting>)
    requires Writable(cmd, os) && !ListValued(Resolve(keywords, cmd))
    ensures Parsed(keywords, options, Print(cmd, os)).cmd == Resolve(keywords, cmd)
    ensures Holds(options, os, Parsed(keywords, options, Print(cmd, os)))
  {
    ReadPrinted(keywords, options, cmd, os);
    HoldsSettings(options, os, Parsed(keywords, options, Print(cmd, os)));
  }

  lemma VersionOfPrinted(keywords: Aliases, options: Aliases, cmd: string, os: seq<Setting>)
    requires Writable(cmd, os) && "version" !in Keys(options, os) && !ListValued(Resolve(keywords, cmd))
    ensures Parsed(keywords, options, Print(cmd, os)).args["version"] == VersionEntry(SettingText(os[0]))
  {
    ParsePrinted(keywords, options, cmd, os);
  }

  /** A text that counts as a version, character by character: it starts with node, it is
      default, or, with or without a v in front, it starts with main or a digit. */
  lemma VersionReads(t: string)
    ensures VersionEntry(t) ==
              if || (|t| >= 4 && t[0] == 'n' && t[1] == 'o' && t[2] == 'd' && t[3] == 'e')
                 || t == "default"
                 || (|t| >= 4 && t[0] == 'm' && t[1] == 'a' && t[2] == 'i' && t[3] == 'n')
                 || (|t| >= 5 && t[0] == 'v' && t[1] == 'm' && t[2] == 'a' && t[3] == 'i' && t[4] == 'n')
                 || (|t| >= 1 && '0' <= t[0] <= '9')
                 || (|t| >= 2 && t[0] == 'v' && '0' <= t[1] <= '9')
              then t else "latest"
  {
    assert |t| >= 4 ==> t[..4] == [t[0], t[1], t[2], t[3]];
    assert |t| >= 1 ==> t[..1] == [t[0]];
    assert |t| >= 5 && t[0] == 'v' ==> t[1..][..4] == [t[1], t[2], t[3], t[4]];
    assert "node" == ['n', 'o', 'd', 'e'] && "main" == ['m', 'a', 'i', 'n'] && "v" == ['v'];
  }

  /** The version a keyword is stored with: the text of its first setting if that text starts with
      node, is default, or starts with main or a digit behind an optional v; otherwise latest. */
  lemma VersionStored(keywords: Aliases, options: Aliases, cmd: string, os: seq<Setting>)
    requires Writable(cmd, os) && "version" !in Keys(options, os)
    requires Resolve(keywords, cmd) !in {"mongos-shard", "mongos-cfg", "haproxy-pg", "haproxy-patroni", "pgbouncer"}
    ensures var t := SettingText(os[0]);
            Parsed(keywords, options, Print(cmd, os)).args["version"] ==
              if || (|t| >= 4 && t[0] == 'n' && t[1] == 'o' && t[2] == 'd' && t[3] == 'e')
                 || t == "default"
                 || (|t| >= 4 && t[0] == 'm' && t[1] == 'a' && t[2] == 'i' && t[3] == 'n')
                 || (|t| >= 5 && t[0] == 'v' && t[1] == 'm' && t[2] == 'a' && t[3] == 'i' && t[4] == 'n')
                 || (|t| >= 1 && '0' <= t[0] <= '9')
                 || (|t| >= 2 && t[0] == 'v' && '0' <= t[1] <= '9')
              then t else "latest"
  {
    VersionOfPrinted(keywords, options, cmd, os);
    VersionReads(SettingText(os[0]));
  }

  lemma VersionEntryIff(first: string)
    ensures VersionEntry(first) == "latest" <==> !IsDeploymentVersion(first)
  {
    var word := "latest";
    assert word[0] == 'l';
  }

  /** A keyword is read as having no version exactly when its first setting does not look like
      one. */
  lemma ReadAsLatestIff(keywords: Aliases, options: Aliases, cmd: string, os: seq<Setting>)
    requires Writable(cmd, os) && "version" !in Keys(options, os) && !ListValued(Resolve(keywords, cmd))
    ensures Parsed(keywords, options, Print(cmd, os)).args["version"] == "latest" <==> !IsDeploymentVersion(SettingText(os[0]))
  {
    VersionOfPrinted(keywords, options, cmd, os);
    VersionEntryIff(SettingText(os[0]));
  }

  /** A version named outright takes the place of the one that comes first. */
  lemma VersionNamed(keywords: Aliases, options: Aliases, cmd: string, os: seq<Setting>)
    requires Writable(cmd, os) && "version" in Keys(options, os) && !ListValued(Resolve(keywords, cmd))
    ensures Parsed(keywords, options, Print(cmd, os)).args["version"] == LastGiven(options, os, "version")
  {
    ParsePrinted(keywords, options, cmd, os);
  }

  lemma NodeIsVersion(o: Setting)
    requires HasPrefix(o.key, "node")
    ensures IsDeploymentVersion(SettingText(o))
  {
    assert SettingText(o)[..4] == o.key[..4];
  }

  /** An option whose name starts like a node's, as in k3d:nodes=3, is taken for the version when
      it comes first. */
  lemma NodesTakenForVersion(keywords: Aliases, options: Aliases, cmd: string, os: seq<Setting>)
    requires Writable(cmd, os) && "version" !in Keys(options, os) && !ListValued(Resolve(keywords, cmd))
    requires HasPrefix(os[0].key, "node")
    ensures Parsed(keywords, options, Print(cmd, os)).args["version"] == SettingText(os[0])
  {
    VersionOfPrinted(keywords, options, cmd, os);
    NodeIsVersion(os[0]);
  }

  /** A list-valued keyword keeps its whole rest, separators and all. */
  lemma ParseListValued(keywords: Aliases, options: Aliases, cmd: string, rest: string)
    requires ':' !in cmd
    requires Resolve(keywords, cmd) in {"mongos-shard", "mongos-cfg", "haproxy-pg", "haproxy-patroni", "pgbouncer"}
    ensures Parsed(keywords, options, cmd + ":" + rest) == Keyword(Resolve(keywords, cmd), map["version" := rest])
  {
    CutPrinted(cmd, ':', rest);
  }

  /** A keyword without options is its command and the version latest. */
  lemma ParseBare(keywords: Aliases, options: Aliases, cmd: string)
    requires ':' !in cmd && "" !in options
    requires Resolve(keywords, cmd) !in {"mongos-shard", "mongos-cfg", "haproxy-pg", "haproxy-patroni", "pgbouncer"}
    requires Resolve(keywords, cmd) != "coroot-server"
    ensures Parsed(keywords, options, cmd) == Keyword(Resolve(keywords, cmd), map["version" := "latest", "" := ""])
  {
    CutWhole(cmd, ':');
    SplitJoin([""], ',');
    CutWhole("", '=');
    assert Entries(options, [""]) == [Entry("", "")];
    PutNext(map["version" := "latest"], [Entry("", "")], 0);
  }

  // ---- options that nothing consumes ----

  type Table = map<string, set<string>>

  /** Options read straight from the code for every keyword, and for single ones. */
  const GO_OPTIONS := {"version", "expose"}
  const K3D_OPTIONS := {"nodes", "storage-path", "host-alias", "ingress-type", "ingress", "registry-cache"}
  const COROOT_CLIENT_OPTIONS := {"server", "user", "password", "port"}

  function Options(table: Table, cmd: string): set<string> {
    (if cmd in table then table[cmd] else {})
    + (if cmd == "k3d" then K3D_OPTIONS else if cmd == "coroot-client" then COROOT_CLIENT_OPTIONS else {})
  }

  predicate IsKnown(table: Table, cmd: string) {
    cmd in table || cmd == "k3d" || cmd == "coroot-client"
  }

  /** The tables with the options the code adds. */
  function KnownDeployOptions(table: Table): (known: Table)
    ensures forall cmd :: cmd in known <==> IsKnown(table, cmd)
    ensures forall cmd | cmd in known :: known[cmd] == Options(table, cmd)
  {
    table["k3d" := Options(table, "k3d")]["coroot-client" := Options(table, "coroot-client")]
  }

  function VersionToken(arg: string): string {
    Before(Behind(arg, ':'), ',')
  }

  predicate Passes(valid: set<string>, version: string, opt: string) {
    || opt == "" || (opt == version && (IsDeploymentVersion(opt) || opt == "latest"))
    || opt in valid || opt in GO_OPTIONS
  }

  predicate IsSkipped(arg: string) {
    HasPrefix(arg, "node") || TrimSpace(arg) == ""
  }

  /** The options of one keyword that would be dropped. */
  function Unknown(keywords: Aliases, options: Aliases, known: Table, arg: string): set<string> {
    var k := Parsed(keywords, options, arg);
    if IsSkipped(arg) || "docker-image" in k.args || k.cmd !in known then {}
    else set opt | opt in k.args && !Passes(known[k.cmd], VersionToken(arg), opt)
  }

  type Check = string -> set<string>

  function Flags(keywords: Aliases, options: Aliases, known: Table): Check {
    arg => Unknown(keywords, options, known, arg)
  }

  datatype Problem = Problem(arg: string, options: set<string>)

  function Problems(flags: Check, args: seq<string>): seq<Problem> {
    if args == [] then [] else
      var last := args[|args| - 1];
      Problems(flags, args[..|args| - 1]) + if flags(last) == {} then [] else [Problem(last, flags(last))]
  }

  method Dropped(valid: set<string>, version: string, args: map<string, string>) returns (bad: set<string>)
    ensures bad == set opt | opt in args && !Passes(valid, version, opt)
  {
    bad := {};
    var left := args.Keys;
    while left != {}
      invariant left <= args.Keys
      invariant bad == set opt | opt in args.Keys - left && !Passes(valid, version, opt)
      decreases |left|
    {
      var opt :| opt in left;
      if !Passes(valid, version, opt) {
        bad := bad + {opt};
      }
      left := left - {opt};
    }
  }

  method UnknownOptions(keywords: Aliases, options: Aliases, known: Table, arg: string) returns (bad: set<string>)
    ensures bad == Unknown(keywords, options, known, arg)
  {
    bad := {};
    if !IsSkipped(arg) {
      var keyword := ParseDeploymentKeyword(keywords, options, arg);
      if "docker-image" !in keyword.args && keyword.cmd in known {
        bad := Dropped(known[keyword.cmd], VersionToken(arg), keyword.args);
      }
    }
  }

  /** One problem for each keyword with an option that nothing consumes, in the order given. */
  method UnknownDeployOptions(keywords: Aliases, options: Aliases, table: Table, args: seq<string>)
    returns (problems: seq<Problem>)
    ensures problems == Problems(Flags(keywords, options, KnownDeployOptions(table)), args)
  {
    var known := KnownDeployOptions(table);
    problems := [];
    for i := 0 to |args|
      invariant problems == Problems(Flags(keywords, options, known), args[..i])
    {
      assert args[..i + 1][..i] == args[..i];
      var bad := UnknownOptions(keywords, options, known, args[i]);
      assert bad == Flags(keywords, options, known)(args[i]);
      if bad != {} {
        problems := problems + [Problem(args[i], bad)];
      }
    }
    assert args[..|args|] == args;
  }

  /** Nothing is reported exactly when every keyword is free of dropped options. */
  lemma {:induction false} NoProblemsIff(flags: Check, args: seq<string>)
    ensures Problems(flags, args) == [] <==> forall a | a in args :: flags(a) == {}
  {
    if args != [] {
      NoProblemsIff(flags, args[..|args| - 1]);
      assert args == args[..|args| - 1] + [args[|args| - 1]];
    }
  }

  lemma {:induction false} TrimKeeps(s: string, c: char)
    requires c in s && !IsSpace(c)
    ensures c in TrimSpace(s)
  {
    if IsSpace(s[0]) {
      assert s == [s[0]] + s[1..];
      TrimKeeps(s[1..], c);
    } else if IsSpace(s[|s| - 1]) {
      assert s == s[..|s| - 1] + [s[|s| - 1]];
      TrimKeeps(s[..|s| - 1], c);
    }
  }

  /** The check flags exactly the settings outside the known and the code's own options. The
      one setting it lets through besides is the first, when it has no value and reads as a
      version. Keywords it does not know and containers from images are not checked. */
  lemma FlagsExactly(keywords: Aliases, options: Aliases, table: Table, cmd: string, os: seq<Setting>, opt: string)
    requires Writable(cmd, os) && !ListValued(Resolve(keywords, cmd))
    ensures opt in Unknown(keywords, options, KnownDeployOptions(table), Print(cmd, os))
       <==> && !HasPrefix(Print(cmd, os), "node") && Resolve(keywords, cmd) != "coroot-server"
            && "docker-image" !in Keys(options, os) && IsKnown(table, Resolve(keywords, cmd))
            && opt in Keys(options, os) && opt != "" && opt !in GO_OPTIONS && opt !in Options(table, Resolve(keywords, cmd))
            && !(opt == SettingText(os[0]) && (IsDeploymentVersion(opt) || opt == "latest"))
  {
    var k, arg := Parsed(keywords, options, Print(cmd, os)), Print(cmd, os);
    KeysOfPrinted(keywords, options, cmd, os);
    TokenOfPrinted(cmd, os);
    NotBlank(cmd, os);
    UnknownIff(keywords, options, KnownDeployOptions(table), arg, k, opt);
    PassesIff(Options(table, k.cmd), VersionToken(arg), opt);
  }

  lemma UnknownIff(keywords: Aliases, options: Aliases, known: Table, arg: string, k: Keyword, opt: string)
    requires k == Parsed(keywords, options, arg)
    ensures opt in Unknown(keywords, options, known, arg)
       <==> && !IsSkipped(arg) && "docker-image" !in k.args && k.cmd in known
            && opt in k.args && !Passes(known[k.cmd], VersionToken(arg), opt)
  {
  }

  lemma PassesIff(valid: set<string>, version: string, opt: string)
    ensures Passes(valid, version, opt)
       <==> opt == "" || opt in valid || opt in GO_OPTIONS || (opt == version && (IsDeploymentVersion(opt) || opt == "latest"))
  {
  }

  lemma KeysOfPrinted(keywords: Aliases, options: Aliases, cmd: string, os: seq<Setting>)
    requires Writable(cmd, os) && !ListValued(Resolve(keywords, cmd))
    ensures var k := Parsed(keywords, options, Print(cmd, os));
            && k.cmd == Resolve(keywords, cmd)
            && k.args.Keys == {"version"} + Keys(options, os) + (if k.cmd == "coroot-server" then {"docker-image"} else {})
  {
    ParsePrinted(keywords, options, cmd, os);
  }

  /** A first option that starts with a digit, behind a v or not, is stored as the version and
      never reported. */
  lemma NumberIsVersion(keywords: Aliases, options: Aliases, table: Table, cmd: string, os: seq<Setting>)
    requires Writable(cmd, os) && "version" !in Keys(options, os) && os[0].Flag?
    requires Resolve(keywords, cmd) !in {"mongos-shard", "mongos-cfg", "haproxy-pg", "haproxy-patroni", "pgbouncer"}
    requires var t := os[0].key; (|t| >= 1 && '0' <= t[0] <= '9') || (|t| >= 2 && t[0] == 'v' && '0' <= t[1] <= '9')
    ensures Parsed(keywords, options, Print(cmd, os)).args["version"] == os[0].key
    ensures os[0].key !in Unknown(keywords, options, KnownDeployOptions(table), Print(cmd, os))
  {
    VersionStored(keywords, options, cmd, os);
    VersionReads(os[0].key);
    FlagsExactly(keywords, options, table, cmd, os, os[0].key);
  }

  /** The options of a k3d cluster and of a coroot client that only the code knows are never
      reported, whatever the tables say. */
  lemma CodeOptionsPass(keywords: Aliases, options: Aliases, table: Table, cmd: string, os: seq<Setting>, opt: string)
    requires Writable(cmd, os)
    requires || (opt in {"version", "expose"} && Resolve(keywords, cmd) in {"k3d", "coroot-client"})
             || (Resolve(keywords, cmd) == "k3d"
                 && opt in {"nodes", "storage-path", "host-alias", "ingress-type", "ingress", "registry-cache"})
             || (Resolve(keywords, cmd) == "coroot-client" && opt in {"server", "user", "password", "port"})
    ensures opt !in Unknown(keywords, options, KnownDeployOptions(table), Print(cmd, os))
  {
    FlagsExactly(keywords, options, table, cmd, os, opt);
  }

  lemma NotBlank(cmd: string, os: seq<Setting>)
    ensures TrimSpace(Print(cmd, os)) != ""
  {
    assert Print(cmd, os)[|cmd|] == ':';
    TrimKeeps(Print(cmd, os), ':');
  }

  lemma TokenOfPrinted(cmd: string, os: seq<Setting>)
    requires Writable(cmd, os)
    ensures VersionToken(Print(cmd, os)) == SettingText(os[0])
  {
    var first, more := SettingText(os[0]), Texts(os)[1..];
    var rest := Join(Texts(os), ',');
    CutPrinted(cmd, ':', rest);
    assert os[0] in os && ',' !in first;
    if |os| == 1 {
      assert rest == first;
      CutWhole(first, ',');
    } else {
      CutPrinted(first, ',', Join(more, ','));
    }
  }
}
