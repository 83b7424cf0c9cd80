/** What the items of a block ask for, read off their commands and keys: which nodes lose their
    system, which provider and which port a node ends up with. */
module BlockItems {
  import opened Text
  import opened NodeBlocks

  /** What an item is. An os item is nothing else; an image comes before a port, and a port before a
      cluster or an operator. */
  datatype Kind = System | Image | Port | Cluster | Operator | Other

  function KindOf(c: Context, item: string): (kind: Kind)
    ensures kind == Port ==> "expose" in c.parse(item).args
  {
    var k := c.parse(item);
    if k.cmd == "os" then System
    else if "docker-image" in k.args then Image
    else if "expose" in k.args then Port
    else if k.cmd == "k3d" || item == "provider:kubectl" then Cluster
    else if |k.cmd| >= 9 && k.cmd[|k.cmd| - 9..] == "-operator" then Operator
    else Other
  }

  /** The argument opens a block: it starts with node. */
  predicate OpensBlock(arg: string) {
    |arg| >= 4 && arg[0] == 'n' && arg[1] == 'o' && arg[2] == 'd' && arg[3] == 'e'
  }

  lemma IsNodeIff(arg: string)
    ensures IsNode(arg) <==> OpensBlock(arg)
  {
    assert |arg| >= 4 ==> arg[..4] == [arg[0], arg[1], arg[2], arg[3]];
    assert "node" == ['n', 'o', 'd', 'e'];
  }

  /** The node whose block stands open: node0 to begin with. */
  function OpenNode(args: seq<string>): string {
    if args == [] then "node0"
    else if OpensBlock(args[|args| - 1]) then args[|args| - 1]
    else OpenNode(args[..|args| - 1])
  }

  /** A node's items since its block was last opened. */
  function Since(args: seq<string>, node: string): seq<string> {
    if args == [] then []
    else
      var init, last := args[..|args| - 1], args[|args| - 1];
      if OpensBlock(last) then (if last == node then [] else Since(init, node))
      else if OpenNode(init) == node then Since(init, node) + [last]
      else Since(init, node)
  }

  // ---- what they ask for ----

  /** The item takes its node's system away. Where kubectl is the default provider, an operator does
      not. */
  predicate Takes(c: Context, item: string) {
    var kind := KindOf(c, item);
    kind == Image || kind == Cluster || (kind == Operator && c.provider != "kubectl")
  }

  predicate Lost(c: Context, items: seq<string>) {
    exists item :: item in items && Takes(c, item)
  }

  /** The provider the last item that chooses one chooses. */
  function ProviderAsked(c: Context, items: seq<string>): string {
    if items == [] then c.provider
    else
      match KindOf(c, items[|items| - 1])
      case Image => "docker-image"
      case Cluster => "kubectl"
      case Operator => "kubectl"
      case _ => ProviderAsked(c, items[..|items| - 1])
  }

  /** The system the last os item names, el8 when there is none. */
  function SystemAsked(c: Context, items: seq<string>): string {
    if items == [] then "el8"
    else
      var last := items[|items| - 1];
      if KindOf(c, last) == System then (if |last| >= 3 && last[..3] == "os:" then last[3..] else last)
      else SystemAsked(c, items[..|items| - 1])
  }

  /** The port the last item that exposes one names. */
  function PortAsked(c: Context, items: seq<string>): Option<string> {
    if items == [] then None
    else
      var last := items[|items| - 1];
      if KindOf(c, last) == Port then Some(c.parse(last).args["expose"])
      else PortAsked(c, items[..|items| - 1])
  }

  lemma LostSnoc(c: Context, items: seq<string>, item: string)
    ensures Lost(c, items + [item]) <==> Lost(c, items) || Takes(c, item)
  {
    if Lost(c, items) {
      var i :| i in items && Takes(c, i);
      assert i in items + [item];
    }
    assert item in items + [item];
  }

  lemma AskedSnoc(c: Context, items: seq<string>, item: string)
    ensures ProviderAsked(c, items + [item]) ==
              match KindOf(c, item)
              case Image => "docker-image"
              case Cluster => "kubectl"
              case Operator => "kubectl"
              case _ => ProviderAsked(c, items)
    ensures SystemAsked(c, items + [item]) ==
              if KindOf(c, item) == System then TrimPrefix(item, "os:") else SystemAsked(c, items)
    ensures PortAsked(c, items + [item]) ==
              if KindOf(c, item) == Port then Some(c.parse(item).args["expose"]) else PortAsked(c, items)
  {
    assert (items + [item])[..|items|] == items;
  }

  /** Some item took the system of a node whose provider is no longer the default one. */
  lemma {:induction false} ProviderTells(c: Context, items: seq<string>)
    ensures ProviderAsked(c, items) != c.provider ==> Lost(c, items)
    ensures ProviderAsked(c, items) == "kubectl" && c.provider != "kubectl" ==> Lost(c, items)
    decreases |items|
  {
    if items != [] {
      var init, last := items[..|items| - 1], items[|items| - 1];
      assert items == init + [last];
      ProviderTells(c, init);
      LostSnoc(c, init, last);
    }
  }

  // ---- one step ----

  /** What an item does to the systems, by its kind. */
  lemma EffectByKind(c: Context, s: State, arg: string, i: nat)
    ensures EffectOf(c, s, arg, i) ==
              if OpensBlock(arg) then Open(arg, i == 0)
              else
                match KindOf(c, arg)
                case System => Tag(if |arg| >= 3 && arg[..3] == "os:" then arg[3..] else arg)
                case Image => Remove
                case Cluster => Remove
                case Operator => if ProviderOf(s) == "kubectl" then Keep else Remove
                case _ => Keep
  {
    IsNodeIff(arg);
  }

  /** And to the provider and the port of its block's node. */
  lemma StepByKind(c: Context, s: State, arg: string, i: nat)
    requires !OpensBlock(arg) && s.current in s.providers
    ensures var t := Step(c, s, arg, i);
            && t.current == s.current
            && t.providers == (match KindOf(c, arg)
                               case Image => s.providers[s.current := "docker-image"]
                               case Cluster => s.providers[s.current := "kubectl"]
                               case Operator => s.providers[s.current := "kubectl"]
                               case _ => s.providers)
            && t.exposed == (if KindOf(c, arg) == Port then s.exposed[s.current := c.parse(arg).args["expose"]] else s.exposed)
  {
    IsNodeIff(arg);
    if KindOf(c, arg) == Operator && ProviderOf(s) == "kubectl" {
      assert s.providers[s.current := "kubectl"] == s.providers;
    }
  }

  /** The node's provider and system are what its items ask for. */
  predicate AsAsked(c: Context, s: State, b: Blocks, items: seq<string>, node: string) {
    && node in s.providers && s.providers[node] == ProviderAsked(c, items)
    && (node in b.systems <==> !Lost(c, items))
    && (node in b.systems ==> b.systems[node] == SystemAsked(c, items))
  }

  lemma OpeningAsAsked(c: Context, s: State, b: Blocks, arg: string, i: nat)
    requires OpensBlock(arg)
    ensures AsAsked(c, Step(c, s, arg, i), OnBlocks(EffectOf(c, s, arg, i), b), [], arg)
  {
    IsNodeIff(arg);
  }

  lemma OtherAsAsked(c: Context, s: State, b: Blocks, arg: string, i: nat, items: seq<string>, node: string)
    requires AsAsked(c, s, b, items, node) && s.current == b.current && s.current in s.providers
    requires if OpensBlock(arg) then arg != node && i > 0 else s.current != node
    ensures AsAsked(c, Step(c, s, arg, i), OnBlocks(EffectOf(c, s, arg, i), b), items, node)
  {
    IsNodeIff(arg);
    if !OpensBlock(arg) {
      StepByKind(c, s, arg, i);
    }
  }

  lemma ItemAsAsked(c: Context, s: State, b: Blocks, arg: string, i: nat, items: seq<string>)
    requires AsAsked(c, s, b, items, s.current) && s.current == b.current && !OpensBlock(arg)
    ensures AsAsked(c, Step(c, s, arg, i), OnBlocks(EffectOf(c, s, arg, i), b), items + [arg], s.current)
  {
    StepByKind(c, s, arg, i);
    EffectByKind(c, s, arg, i);
    LostSnoc(c, items, arg);
    AskedSnoc(c, items, arg);
    ProviderTells(c, items);
  }

  // ---- the whole pass ----

  lemma {:induction false} CurrentIsOpen(c: Context, args: seq<string>)
    ensures Run(c, args).current == OpenNode(args) == Asked(c, args).current
    ensures Run(c, args).current in Run(c, args).providers
    decreases |args|
  {
    if args != [] {
      var init, last := args[..|args| - 1], args[|args| - 1];
      CurrentIsOpen(c, init);
      IsNodeIff(last);
      if !OpensBlock(last) {
        StepByKind(c, Run(c, init), last, |init|);
      }
    }
  }

  /** The deployment creates the node: it is named, or it is node0 and the first argument names
      none. */
  predicate IsCreated(args: seq<string>, node: string) {
    (node in args && OpensBlock(node)) || (node == "node0" && (args == [] || !OpensBlock(args[0])))
  }

  /** Every node the deployment creates loses its system if and only if one of the items since its
      block was last opened has docker-image, is k3d or provider:kubectl, or is an operator's; its
      provider is the one chosen last, and its system the one named last. */
  lemma {:induction false} ItemsDecide(c: Context, args: seq<string>, node: string)
    requires IsCreated(args, node)
    ensures AsAsked(c, Run(c, args), Asked(c, args), Since(args, node), node)
    decreases |args|
  {
    if args != [] {
      var init, last := args[..|args| - 1], args[|args| - 1];
      var s, b := Run(c, init), Asked(c, init);
      assert args == init + [last];
      CurrentIsOpen(c, init);
      if OpensBlock(last) && last == node {
        OpeningAsAsked(c, s, b, last, |init|);
      } else {
        ItemsDecide(c, init, node);
        if !OpensBlock(last) && OpenNode(init) == node {
          ItemAsAsked(c, s, b, last, |init|, Since(init, node));
        } else {
          OtherAsAsked(c, s, b, last, |init|, Since(init, node), node);
        }
      }
    }
  }

  /** So where the string is what was intended, a node's container gets exactly the system its items
      ask for. */
  lemma ContainersAsAsked(c: Context, args: seq<string>, node: string)
    requires RegexpRules(c.expand) && (forall a | a in args :: '$' !in a) && AllPlain(c, args) && AllStay(c, args)
    requires IsCreated(args, node)
    ensures node in Decoded(c, args) <==> !Lost(c, Since(args, node))
    ensures node in Decoded(c, args) ==> Decoded(c, args)[node] == SystemAsked(c, Since(args, node))
  {
    ItemsDecide(c, args, node);
    AskedIsBlocks(c, args);
    OsversIsIntendedIff(c, args);
  }

  /** An operator takes its node's system: a node opened and given one ends up with kubectl. */
  lemma OperatorTakesSystem(c: Context, node: string, item: string)
    requires OpensBlock(node) && !OpensBlock(item) && KindOf(c, item) == Operator && c.provider != "kubectl"
    ensures var s := Run(c, [node] + [item]);
            node in s.providers && s.providers[node] == "kubectl" && node !in Asked(c, [node] + [item]).systems
  {
    var args := [node] + [item];
    assert args[..1] == [node] && args[0] == node && args[1] == item && [node][..0] == [];
    assert Since([node], node) == [] && OpenNode([node]) == node;
    assert Since(args, node) == [] + [item];
    ItemsDecide(c, args, node);
    LostSnoc(c, [], item);
    AskedSnoc(c, [], item);
  }

  // ---- ports ----

  /** Every item of a node, whenever its block was opened. */
  lemma {:induction false} PortsAsAsked(c: Context, args: seq<string>, node: string)
    ensures var s := Run(c, args);
            (if node in s.exposed then Some(s.exposed[node]) else None) == PortAsked(c, ItemsOf(args, node))
    decreases |args|
  {
    if args != [] {
      var init, last := args[..|args| - 1], args[|args| - 1];
      PortsAsAsked(c, init, node);
      ItemsGoToTheirBlock(c, init, node);
      IsNodeIff(last);
      CurrentIsOpen(c, init);
      if !OpensBlock(last) {
        StepByKind(c, Run(c, init), last, |init|);
        AskedSnoc(c, ItemsOf(init, node), last);
      }
      assert ItemsOf(init, node) + [] == ItemsOf(init, node);
    }
  }
}
