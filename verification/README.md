# anydbver: a Dafny model of its logic

anydbver builds database clusters out of containers. This project models the parts of it that
hold real logic and proves what they promise.

- **Chaos engine** (`netem.dfy`, `profile_texts.dfy`, `netem_words.dfy`, `tc_text.dfy`, `tc.dfy`, `world.dfy`,
  `lifecycle.dfy`, `links.dfy`, `cli.dfy`, `namespace.dfy`, `dashboard.dfy`, `dashboard_safety.dfy`,
  `dashboard_requests.dfy`, `dashboard_races.dfy`, `chaos_server.dfy`, `monkey.dfy`).
  A list of links, unordered pairs of nodes with a netem profile each, is compiled for every
  container into a tc program: a prio qdisc, one band and one netem per peer, and u32 filters.
  The commands carry the text that is printed; `Tc.Understood` is how tc reads it, class ids and
  handles in hexadecimal, and `Tc.Exec` and `Tc.Classify` what the kernel does with what was read,
  including what is refused. So "exact" means: every packet a live node sends meets a rendering of
  the profile of its link, or none. `Namespace.Namespace` is the containers of one namespace and the CLI's state file,
  `ChaosServer.ChaosServer` the dashboard with its handlers' critical sections. Both are classes
  whose methods are proved to be steps of the state machines in `cli.dfy` and `dashboard.dfy`; the
  safety results are about every run of those machines.
- **Command line** (`levenshtein.dfy`, `ordering.dfy`, `versions.dfy`, `version_texts.dfy`, `keywords.dfy`,
  `nodeblocks.dfy`, `block_items.dfy`, `substitution.dfy`). The edit distance behind typo suggestions, the version
  order and what is listed by it, keyword parsing and the option check, the pass that keeps the
  systems of the nodes inside one rewritten string, and the rewriting of node names into
  addresses.
- **Scripts** (`gtid.dfy`, `cidr.dfy`, `joinlock.dfy`). The counting of a GTID set, MetalLB's
  address range, and the lock that lets nodes join a cluster one at a time.

`text.dfy` holds the string operations they share. `dafny verify dfyconfig.toml` checks the whole
project.

## Results that are not what one might expect

Where the code promises less than it seems to, the condition is exact.

- Class ids are printed in decimal and read in hexadecimal, so the tenth peer's band is written as
  class 16. With ten to fourteen peers tc refuses its netem and the tenth and later peers stay
  unshaped (`Tc.TenthRefused`, `Tc.TenKeptWrong`); with fifteen the band of all other traffic gets
  it (`Tc.TenthCatchesAll`). tc reads the arguments of an accepted profile exactly when the profile
  is spelt in ASCII (`TcText.ArgsReadIff`).
- Hence reconciling is exact if and only if no live node is linked to itself or to more than nine
  nodes, tc can read the profiles of its links, no helper a live node needs is stale, and nothing
  is left on a node that is skipped because it has neither a link nor a helper
  (`World.ReconcileExactIff`). The CLI does not refuse to link a node to itself.
- A node action is two commands, docker's own and the removal of the helper. The removal loses
  the invariant that a shaped node has a helper exactly when the node is shaped at that moment
  (`Lifecycle.DropKeepsIff`, `DashboardSafety.RunsStayHelpedIff`). That happens when `start` is given to a
  node that is running and shaped, which the monkey does to a victim the user has started
  (`DashboardRaces.MonkeyRaceStrands`), and when a rebuild comes between the two commands
  (`DashboardRaces.StartRaceStrands`). In runs with neither every rebuild is exact under the
  conditions above (`DashboardSafety.OrderlyRebuildsAreExact`).
- Two different pairs share a link key exactly when the key has a second bar whose two sides are
  in byte order (`Links.LinkKeySharedIff`).
- A range does not always give an integer between its ends, as the source says: 0.6-0.9 gives 1.
  `Netem.AlwaysWithinIff` says when it does.
- The unit of a time range's first end never counts: 50us-200 gives 50 to 200 milliseconds
  (`ProfileTexts.RangeTime`).
- A value accepted as a netem range rolls to one value exactly when it is spelt in ASCII; a range
  in µs stays a range (`Netem.AcceptedRollsIff`).
- Right after a dashboard clear the data plane matches the effective links exactly when no flap
  between reachable nodes is down (`DashboardSafety.ClearedExactIff`).
- Node names are replaced as if all at once, for all addresses, exactly when no name directly
  follows another or the bare letters "node" (`Substitution.SettledIsAllAtOnceIff`). And every line
  with names so separated comes out that way exactly when every node has an address; a missing
  one can join what stood around its name to a new name (`Substitution.LinesSufficeIff`).
- An `os:` item after the item that removed its node changes the node before it, a second
  docker-image in one block removes the node before it, and a removal in the second block of a name
  leaves the first one alive (`NodeBlocks.OsversIsIntendedIff`, `NodeBlocks.LateSystemHitsOther`,
  `NodeBlocks.SecondRemovalHitsOther`, `NodeBlocks.RemovalLeavesFirst`).
- A tag in a GTID set is counted like a transaction (`Gtid.PrintedSum`).
- `k3d:nodes=3` is read as version `nodes=3` (`Keywords.ReadAsLatestIff`,
  `Keywords.NodesTakenForVersion`).
- MetalLB's range leaves its docker network for a block longer than /24 that does not start at a
  multiple of 256, such as 10.0.0.128/25 (`Cidr.RangeUsableIff`, `Cidr.RangeBeforeBlock`).

## Model

| member | source | states |
|---|---|---|
| Netem.NormalizeIdempotent | cmd/anydbver/chaos.go:229-256 | tidying a tidied profile changes nothing |
| Netem.ParseParams | cmd/anydbver/chaos.go:998-1032 | arguments are accepted exactly when each is a known assignment and the tidied last values are valid; the result is just those values, and an error is about the first argument that is no assignment or else the first malformed field |
| ProfileTexts.SettingsAsk | cmd/anydbver/chaos.go:998-1026 | arguments that spell the names of the fields, in any case and with spaces around, ask for the profile with one value put in after the other, tidied |
| ProfileTexts.SpelledReadsBack | cmd/anydbver/chaos.go:998-1031 | any profile spelled out as the usage text says is read back, tidied |
| ProfileTexts.IsAssignmentIff | cmd/anydbver/chaos.go:1000-1025 | no other names are read |
| ProfileTexts.CleanReads | cmd/anydbver/chaos.go:224-225 | a run of spaces is dropped wherever it stands, and a text without spaces is left as it is |
| ProfileTexts.NormTimeReads | cmd/anydbver/chaos.go:227-243 | ms is put behind what starts like a number and ends in neither s nor S; everything else only loses its spaces |
| ProfileTexts.ScalarTime | cmd/anydbver/chaos.go:227-243 | a single time goes to tc as the microseconds it names, a bare number being milliseconds |
| ProfileTexts.RangeTime | cmd/anydbver/chaos.go:100-124 | a range of times goes to tc as a number between its rounded ends in the unit of the second end, milliseconds when that has none |
| ProfileTexts.DelayIsMilliseconds | cmd/anydbver/chaos.go:227-243 | delay=n asks for n milliseconds and nothing else |
| ProfileTexts.IsScalarIff | cmd/anydbver/chaos.go:297-316 | a single value is digits, maybe a dot with digits, and a unit of its kind; a percentage is at most 100 |
| ProfileTexts.IsValueIff | cmd/anydbver/chaos.go:280-295 | a value is one of these or two with a dash between them |
| ProfileTexts.TimeUnitIff | cmd/anydbver/chaos.go:218-222 | the units of a time, character by character |
| ProfileTexts.RateUnitIff | cmd/anydbver/chaos.go:218-222 | the units of a rate, character by character |
| ProfileTexts.NumberReads | cmd/anydbver/chaos.go:301-308 | the value of a decimal number is that of its digits moved behind the dot |
| Netem.FirstMalformed | cmd/anydbver/chaos.go:258-280 | no field is reported exactly when every field that is set has a valid value; otherwise the first malformed one in the order of the checks |
| Netem.RollNumber | cmd/anydbver/chaos.go:100-124 | the number rolled lies between the two rounded ends, whichever is larger, for every draw |
| Netem.RangeRollsTo | cmd/anydbver/chaos.go:100-124 | an accepted range in ASCII rolls to a whole number between its rounded ends, whichever is larger, followed by the second unit or else the first |
| Netem.AlwaysWithinIff | cmd/anydbver/chaos.go:100-124 | the number lies between the ends for every draw if and only if the lower end does not round down and the upper one is not past the half; whole ends are such |
| Netem.AcceptedRollsIff | cmd/anydbver/chaos.go:100-124 | a valid value rolls, for every draw, to a single valid value if and only if it is no range or is ASCII; percentages stay within 100 |
| Netem.ForeignRangeStays | cmd/anydbver/chaos.go:96-124 | the failing family: a valid range with a character outside ASCII is returned as it is |
| Netem.AcceptedRendersConcrete | cmd/anydbver/chaos.go:126-174 | every accepted field that is no range outside ASCII reaches tc as one value of its kind, percentages with their sign |
| ProfileTexts.PctKeepsNumber | cmd/anydbver/chaos.go:126-136 | a percentage reaches tc with the number it names, a range of them with the number rolled |
| NetemWords.ArgsMeanProfile | cmd/anydbver/chaos.go:139-174 | for every draw the arguments of an accepted profile are netem followed by one group for each setting that is set, with its rolled number, and nothing else; a jitter is written only behind a delay and a loss correlation behind a loss, and a delay of 10ms stands in where only a reordering needs one |
| NetemWords.WordsRead | cmd/anydbver/chaos.go:148-173 | the same for any profile whose fields are absent or numbers |
| TcText.ArgsReadIff | cmd/anydbver/chaos.go:139-174 | the words of an accepted profile, whatever is drawn, are spelt as tc reads them if and only if every field that is written is spelt in ASCII |
| Netem.StalledRenders | cmd/anydbver/chaos.go:139-174 | delay=0 with reorder=5 is accepted and written as a delay of 0ms before the reordering |
| TcText.ClassTextReads | cmd/anydbver/chaos.go:645-648 | the printed id 1:k is read as class k of the root with k taken as hexadecimal |
| Netem.FixedRendersOnce | cmd/anydbver/chaos.go:139-174 | a profile without ranges has one rendering |
| Netem.PartitionRenders | cmd/anydbver/chaos.go:867-871 | a partition renders as 100% loss and nothing else |
| Tc.Uniq | cmd/anydbver/chaos.go:609-622 | the dedupe loop computes Dedupe |
| Tc.DedupeMeaning | cmd/anydbver/chaos.go:609-622 | one entry for each non-empty address listed, each with the last profile listed for it |
| Tc.ShapeScript | cmd/anydbver/chaos.go:608-657 | the method builds the script the results below are about |
| Tc.PrioCommands | cmd/anydbver/chaos.go:633-652 | the qdisc, band, netem and filter commands with the text that is printed, in order |
| Tc.ScriptBuilds | cmd/anydbver/chaos.go:641-652 | the result does not depend on what eth0 had before, and no command behind the opening delete is refused if and only if there are at most nine peers and tc reads the arguments of each |
| Tc.ScriptMeaning | cmd/anydbver/chaos.go:633-652 | a packet gets the netem of the first kept peer it is to or from as far as tc took that netem: the first nine, and with fifteen peers the tenth, which then also catches everything else |
| Tc.ShapedExactly | cmd/anydbver/chaos.go:603-657 | with at most nine peers, itself not among them and all profiles readable, a node's packet to any address gets the last profile listed for it, or none |
| Tc.ShapedWrongly | cmd/anydbver/chaos.go:627-648 | otherwise some packet is shaped wrongly, whatever is drawn |
| Tc.MostPeers | cmd/anydbver/chaos.go:53-56 | fifteen peers are the most a prio qdisc has bands for beside the one for everything else |
| Tc.TenthRefused | cmd/anydbver/chaos.go:644-648 | with ten to fourteen peers tc refuses the netem of the tenth |
| Tc.TenthCatchesAll | cmd/anydbver/chaos.go:633-648 | with fifteen peers a packet to an address that is no peer's passes the tenth peer's netem |
| World.PeersMeaning | cmd/anydbver/chaos.go:668-683 | the peers collected for a node are those its links join it to, with the last profile |
| World.NodeExactIff | cmd/anydbver/chaos.go:685-708 | after reconciling, a node's packets are exact if and only if it is linked neither to itself nor to more than nine nodes, tc reads each of its profiles, its helper, if needed, is not stale, and, if it is skipped for lack of links and of a helper, what its eth0 holds lets its packets pass |
| World.ReconcileExactIff | cmd/anydbver/chaos.go:659-710 | the same for the whole namespace |
| World.BothEndsAlike | cmd/anydbver/chaos.go:679-683 | under those conditions both directions of a link meet the same profile, and the same words when it has no range |
| World.ProfileOrder | cmd/anydbver/chaos_web.go:93-97 | links with one entry per pair ask for the same profiles in any order |
| World.OrderIrrelevant | cmd/anydbver/chaos_web.go:74-98 | reconciling with the links in one order is exact for every other order of them, under the same condition |
| World.OrderKeepsWords | cmd/anydbver/chaos_web.go:74-98 | and where a pair's profile has no range, both orders give its packets the very same words |
| Lifecycle.ReconcileKeepsGood | cmd/anydbver/chaos.go:685-708 | a reconcile keeps the helper invariant, that a shaped node has a helper, and never shapes through a stale one |
| Lifecycle.ClearKeepsGood | cmd/anydbver/chaos.go:937-966 | a clear removes all shaping and keeps the invariant |
| Lifecycle.DockerUnshapes | cmd/anydbver/chaos.go:887-891 | docker's command leaves the node unshaped unless it is the start of a running shaped one |
| Lifecycle.DropKeepsIff | cmd/anydbver/chaos.go:893-899 | removing a helper keeps the invariant if and only if its node is unshaped at that moment |
| Lifecycle.ActionKeepsHelperInvariantIff | cmd/anydbver/chaos.go:875-902 | an action with nothing between its two commands keeps the invariant if and only if it is no start of a running shaped node |
| Lifecycle.LeftAfterDrop | cmd/anydbver/chaos.go:893-899 | after the helper of a shaped node was removed, reconciling with no links leaves its shaping in place |
| Lifecycle.OutlivesItsLink | cmd/anydbver/chaos.go:685-708 | so a link shaped before that removal outlives its own removal, and the data plane is not exact |
| Lifecycle.StaleHelperMisses | cmd/anydbver/chaos.go:893-899 | why an action removes the helper: through one left from before the start no reconcile shapes the node, and the whole action leaves none |
| Lifecycle.OthersLeftAlone | cmd/anydbver/chaos.go:659-710 | neither a reconcile nor a clear touches a container outside the namespace |
| Lifecycle.StepKeepsGoodIff | cmd/anydbver/chaos.go:875-902 | a reconcile, a clear or either command of an action keeps the invariant if and only if it does not drop the helper of a shaped node |
| Lifecycle.RunsStayGoodIff | cmd/anydbver/chaos.go:685-708 | over every run of those commands, in any order, the invariant holds in every state if and only if no step does |
| Links.LinkKeySymmetric | cmd/anydbver/chaos_web.go:67-72 | the key does not depend on the order of the two names |
| Links.LinkKeyInjective | cmd/anydbver/chaos_web.go:67-72 | without a bar in the names, equal keys mean equal unordered pairs |
| Links.LinkKeySharedIff | cmd/anydbver/chaos_web.go:67-72 | a pair shares its key with another one if and only if the key has a second bar whose two sides are in byte order |
| Links.LinkKeyCollision | cmd/anydbver/chaos_web.go:67-72 | two pairs that do |
| Links.UpsertIsUpdate | cmd/anydbver/chaos.go:840-853 | putting a link into the list updates one entry of the map it stands for and keeps the others and the uniqueness of pairs |
| Links.ProfileOfKey | cmd/anydbver/chaos_web.go:67-72 | the profile of a pair of names is the one stored under its key |
| Cli.Save | cmd/anydbver/chaos.go:741-774 | what is saved is what is loaded again, the empty list included |
| Cli.FileIsWhatWasAsked | cmd/anydbver/chaos.go:814-865 | over any sequence of commands the file has one entry per pair and is the map the commands asked for |
| Cli.CarefulStaysGood | cmd/anydbver/chaos.go:818-902 | if start was never given to a running shaped node, a shaped node has a helper after any commands |
| Cli.FileDescribesDataPlane | cmd/anydbver/chaos.go:818-865 | after each link, partition or clear of such a run the file describes the data plane, exactly when its links can be shaped |
| Cli.PacketsMeetWhatWasAsked | cmd/anydbver/chaos.go:818-865 | and then a packet between two nodes meets what the commands so far asked for that pair, in either order |
| Cli.AskedIsLast | cmd/anydbver/chaos.go:818-854 | each pair has what the last link command for it since the last clear gave, or 100ms with a jitter of 20ms when it set none of the six faults |
| Cli.BareLinkReaches | cmd/anydbver/chaos.go:819-822 | after a link command without parameters packets meet a delay of 100ms 20ms |
| Namespace.Namespace.CollectPeers | cmd/anydbver/chaos.go:668-683 | the map filled in the loop holds every container's peers in link order |
| Namespace.Namespace.UpdateNode | cmd/anydbver/chaos.go:692-707 | one goroutine's work: the new eth0 and helpers in each of the four cases |
| Namespace.Namespace.Reconcile | cmd/anydbver/chaos.go:663-710 | updating the containers in any order leads to the one state ReconcileWith gives |
| Namespace.Namespace.Shape | cmd/anydbver/chaos.go:608-657 | eth0 after the script, unless the helper is stale, and a helper exactly when there was something to shape |
| Namespace.Namespace.ClearAll | cmd/anydbver/chaos.go:937-966 | the loop reaches the cleared state and removes the file |
| Namespace.Namespace.DockerAct | cmd/anydbver/chaos.go:887-891 | docker's command: the new state, shaping, address and stale helpers, and when docker accepts it |
| Namespace.Namespace.RemoveHelper | cmd/anydbver/chaos.go:893-899 | the helper is gone and nothing else changed |
| Namespace.Namespace.Act | cmd/anydbver/chaos.go:875-902 | both with nothing in between |
| Namespace.Namespace.Resolve | cmd/anydbver/chaos.go:570-586 | the first node that answers to the name, or none does |
| Namespace.Namespace.DegradeLink | cmd/anydbver/chaos.go:818-865 | an unknown name, the first one first, or a node without an address is refused and changes nothing; otherwise it is a link step between the first nodes that answer to the names |
| Namespace.Namespace.PutLink | cmd/anydbver/chaos.go:840-853 | the loop is Upsert |
| Namespace.Namespace.PartitionNodes | cmd/anydbver/chaos.go:867-871 | the same with total loss |
| Dashboard.StepIsMove | cmd/anydbver/chaos_web.go:36-65 | every step of every handler, timer and loop is one command of the namespace or leaves the containers alone |
| Dashboard.StepKeepsInv | cmd/anydbver/chaos_web.go:36-65 | every step keeps: keys match their pairs, stored profiles are accepted, stored stop channels are open, distinct and their loops alive; and it keeps the helper invariant if and only if it does not drop the helper of a shaped node |
| DashboardSafety.NoDoubleClose | cmd/anydbver/chaos_web.go:363-392 | in no run is a channel closed twice |
| DashboardSafety.RunsKeepInv | cmd/anydbver/chaos_web.go:36-65 | in every reachable state the invariant of the fields holds and every running loop can be stopped or has been told to stop |
| DashboardSafety.RunsStayHelpedIff | cmd/anydbver/chaos_web.go:529-564 | a shaped node has a helper in every state of a run if and only if no step drops the helper of a shaped node |
| DashboardSafety.OrderlyRunsStayHelped | cmd/anydbver/chaos_web.go:323-337 | that is so in every run in which no running shaped node is started, by a request or the monkey, and nothing is rebuilt inside a node action; a helper is then stale only inside one |
| DashboardSafety.MonkeyStepsAreRounds | cmd/anydbver/chaos_web.go:529-564 | the monkey's steps on the server are the rounds of the loop of module Monkey |
| DashboardSafety.BaselineKept | cmd/anydbver/chaos_web.go:234-289 | the baseline links change only in link requests, clears and the dead-man |
| DashboardSafety.PhaseChangedByOwner | cmd/anydbver/chaos_web.go:457-487 | only the loop whose stop channel is stored for a key changes that key's phase, and it flips it |
| DashboardSafety.RebuildIsExact | cmd/anydbver/chaos_web.go:100-112 | after every step that reconciles, in any run, the data plane is the effective links if and only if no live node has more than nine neighbours in them or a profile tc cannot read, no helper a live node needs was stale, and nothing was left on a node that is skipped |
| DashboardSafety.OrderlyRebuildsAreExact | cmd/anydbver/chaos_web.go:100-112 | in such orderly runs every rebuild is exact if and only if the neighbours are at most nine and the profiles readable |
| DashboardRaces.StartRaceStrands | cmd/anydbver/chaos.go:887-899 | a run that is not: a partition asked for between the two commands of a start stays in force after it was withdrawn |
| DashboardRaces.MonkeyRaceStrands | cmd/anydbver/chaos_web.go:555-562 | another: the monkey brings back a victim the user has started and partitioned, and the partition stays in force after it was withdrawn |
| DashboardSafety.PacketsAfterRebuild | cmd/anydbver/chaos_web.go:74-98 | under those conditions a packet meets a partition while the flap is down, the baseline while it is up, nothing without a baseline |
| DashboardRequests.BaselineAsRequested | cmd/anydbver/chaos_web.go:214-246 | after an accepted list of requests the entry of every pair is decided by the last request naming it in either order: absent if disabled, total loss for a partition, otherwise its own fields tidied; pairs no request names keep theirs |
| DashboardRequests.BaselineIsLastAsked | cmd/anydbver/chaos_web.go:234-289 | in every state of every run the baseline of a pair is what the last request for it since the last clear asked for |
| DashboardRequests.PacketsAsRequested | cmd/anydbver/chaos_web.go:234-289 | and a packet between two nodes meets it after the rebuild |
| DashboardRequests.DelayReaches | cmd/anydbver/chaos_web.go:214-246 | a request for a delay of n milliseconds reaches the packets as delay n ms and nothing else |
| DashboardRequests.FlapStored | cmd/anydbver/chaos_web.go:423-450 | a flap request stores its names, its times or 5 and 10 seconds and no partition yet, tells the flap before it to stop and leaves the others |
| DashboardRequests.LoopsStored | cmd/anydbver/chaos_web.go:363-392 | a flux loop runs exactly for a positive interval, a monkey exactly when enabled, every 15 seconds unless told otherwise |
| DashboardRequests.FlapAlternates | cmd/anydbver/chaos_web.go:457-487 | in every run, as long as a flap is stored, it is down after an odd number of its turns and up after an even one |
| DashboardSafety.ClearedExactIff | cmd/anydbver/chaos_web.go:339-345 | what a clear leaves when flaps are running, exactly |
| DashboardSafety.QuietStays | cmd/anydbver/chaos_web.go:363-392 | once nothing is asked for and nothing shaped, no leftover loop step and no node request changes that |
| DashboardSafety.ShutdownIsFinal | cmd/anydbver/chaos_web.go:567-576 | after stopAll and the final clear, with loops and node requests running in between, nothing is shaped again and every loop left has been told to stop |
| ChaosServer.ChaosServer.constructor | cmd/anydbver/chaos_web.go:586-645 | a new server satisfies the invariant and starts the runs |
| ChaosServer.ChaosServer.EffectiveLinks | cmd/anydbver/chaos_web.go:78-98 | ranging over the maps in any order lists exactly the effective links, each pair once |
| ChaosServer.ChaosServer.Reconcile | cmd/anydbver/chaos_web.go:104-112 | it rebuilds from the effective links |
| ChaosServer.ChaosServer.HandleLinks | cmd/anydbver/chaos_web.go:234-289 | all requests are applied in order, or none if one is invalid |
| ChaosServer.ChaosServer.HandleFlap | cmd/anydbver/chaos_web.go:409-455 | it is the FlapOn or FlapOff step, or changes nothing |
| ChaosServer.ChaosServer.TurnFlap | cmd/anydbver/chaos_web.go:457-487 | it is the FlapTurn step, and the loop ends exactly when its flap was cancelled or replaced |
| ChaosServer.ChaosServer.ConfigureFlux | cmd/anydbver/chaos_web.go:363-392 | it is the FluxRequest step |
| ChaosServer.ChaosServer.RunFlux | cmd/anydbver/chaos_web.go:375-391 | it is the FluxRun step |
| ChaosServer.ChaosServer.ConfigureMonkey | cmd/anydbver/chaos_web.go:505-527 | it is the MonkeyRequest step |
| ChaosServer.ChaosServer.ActOnNode | cmd/anydbver/chaos.go:887-891 | it is the NodeRequest step |
| ChaosServer.ChaosServer.DropNodeHelper | cmd/anydbver/chaos.go:893-899 | it is the NodeDrop step |
| ChaosServer.ChaosServer.StrikeNode | cmd/anydbver/chaos_web.go:543-555 | it is the MonkeyStrike step |
| ChaosServer.ChaosServer.RecoverNode | cmd/anydbver/chaos_web.go:556-563 | it is the MonkeyRecover step, whatever became of the victim meanwhile |
| ChaosServer.ChaosServer.DropVictimHelper | cmd/anydbver/chaos.go:893-899 | it is the MonkeyDrop step |
| ChaosServer.ChaosServer.HandleClear | cmd/anydbver/chaos_web.go:339-345 | it is the clear and the dead-man step |
| ChaosServer.ChaosServer.StopAllFlaps | cmd/anydbver/chaos_web.go:567-576 | it is the ShutFlaps step |
| Monkey.MonkeyLoop | cmd/anydbver/chaos_web.go:529-564 | the loop over the array follows Monkey.Run for every sequence of timeouts and stops |
| Monkey.NeverTheLastNode | cmd/anydbver/chaos_web.go:529-564 | in every reachable state only the victim differs from before, it is back between rounds and at the end, and if a node was running one still is |
| Monkey.RoundTakesVictim | cmd/anydbver/chaos_web.go:543-555 | with two running nodes a round does take one down |
| Monkey.VictimIsDrawn | cmd/anydbver/chaos_web.go:543-554 | the victim is the running node with as many running ones before it as the draw says, modulo their number; it is paused, or stopped by a kill |
| Monkey.RoundSkipped | cmd/anydbver/chaos_web.go:539-552 | with fewer than two running nodes, or when listing fails, nothing happens |
| Levenshtein.Distance | cmd/anydbver/anydbver.go:2040-2075 | the two swapped rows compute the distance |
| Levenshtein.FillRow | cmd/anydbver/anydbver.go:2053-2071 | the inner loop fills the row that follows from the one above |
| Levenshtein.RowFromIsRow | cmd/anydbver/anydbver.go:2053-2073 | that row holds the distances of the next prefix |
| Levenshtein.DistIsLeastScript | cmd/anydbver/anydbver.go:2038-2075 | the distance is the least length of any script of single-character edits |
| Levenshtein.DistSymmetric | cmd/anydbver/anydbver.go:2038-2075 | the distance is symmetric |
| Levenshtein.DistZero | cmd/anydbver/anydbver.go:2038-2075 | it is zero only between equal strings |
| Levenshtein.DistBounds | cmd/anydbver/anydbver.go:2041-2047 | it is at least the difference and at most the sum of the lengths |
| Levenshtein.Triangle | cmd/anydbver/anydbver.go:2038-2075 | the triangle inequality |
| Levenshtein.ClosestKeyword | cmd/anydbver/anydbver.go:2077-2090 | a keyword at the least distance if that is at most three, nothing otherwise, whatever the map's order |
| Versions.VersionLess | cmd/anydbver/anydbver.go:1016-1046 | the loop computes the order Less |
| Versions.StrictWeakOrder | cmd/anydbver/anydbver.go:1019-1046 | irreflexive, asymmetric, transitive, with transitive ties |
| Versions.TiesIff | cmd/anydbver/anydbver.go:1019-1046 | two versions tie exactly when equal up to trailing zero components |
| VersionTexts.NumbersOfWritten | cmd/anydbver/anydbver.go:1019-1032 | a version written as numbers joined by dots, with or without a v and a tag, is compared by just those numbers, each up to the largest int |
| VersionTexts.SpacesAround | cmd/anydbver/anydbver.go:1021 | spaces around it do not count |
| VersionTexts.ComponentReads | cmd/anydbver/anydbver.go:1027-1029 | a component is the number its digits denote, 0 if it is no number, spaces around it aside |
| VersionTexts.WrittenOrder | cmd/anydbver/anydbver.go:1016-1046 | versionLess on written versions is the lexicographic order of their numbers, missing ones being 0 |
| VersionTexts.LastDecides | cmd/anydbver/anydbver.go:1016-1018 | versions that differ in the last number are ordered by it: 0.1.9 before 0.1.10 |
| Versions.DistinctVersions | cmd/anydbver/versions.go:204-225 | each cleaned version of a row passing the filters, once, no entry older than a later one |
| Versions.LatestPerMajor | cmd/anydbver/versions.go:227-241 | one entry for each major, none of its major in the list newer |
| Ordering.HeadsAreNewest | cmd/anydbver/versions.go:229-241 | the first entry of each major in a newest-first list is a newest of that major |
| VersionTexts.MajorReads | cmd/anydbver/versions.go:190-202 | the major is the leading number, or the whole text when it starts with no digit |
| VersionTexts.CleanReads | cmd/anydbver/versions.go:180-188 | stripping the build drops what follows the first dash and nothing else |
| Versions.DefaultSeries | cmd/anydbver/anydbver.go:1189-1217 | a newest lts series, otherwise a newest ga one, otherwise nothing |
| Keywords.ParseDeploymentKeyword | cmd/anydbver/anydbver.go:1112-1171 | the loop computes Parsed |
| Keywords.ParsePrinted | cmd/anydbver/anydbver.go:1133-1171 | parsing a printed keyword gives its command and exactly its settings, each with its last value, the version entry and coroot's docker-image |
| Keywords.ParseListValued | cmd/anydbver/anydbver.go:1125-1131 | the five list-valued keywords keep their whole rest |
| Keywords.ReadAsLatestIff | cmd/anydbver/anydbver.go:995-1014 | a keyword counts as unpinned exactly when its first setting does not look like a version |
| Keywords.VersionStored | cmd/anydbver/anydbver.go:995-1014 | on characters: the version stored is the first setting's text if that starts with node, is default, or starts with main or a digit behind an optional v, and latest otherwise |
| Keywords.VersionNamed | cmd/anydbver/anydbver.go:1150-1158 | a version given by name takes its place |
| Keywords.ParseBare | cmd/anydbver/anydbver.go:1112-1139 | a keyword without options has the version latest |
| Keywords.NodesTakenForVersion | cmd/anydbver/anydbver.go:995-1001 | a first option named like a node is taken for the version |
| Keywords.UnknownDeployOptions | cmd/anydbver/anydbver.go:2181-2239 | one problem for each keyword with unconsumed options, in order |
| Keywords.FlagsExactly | cmd/anydbver/anydbver.go:2196-2219 | exactly the settings outside the known and the code's options are flagged, but for a first one that reads as a version |
| Keywords.NumberIsVersion | cmd/anydbver/anydbver.go:1135-1139 | a first option that starts with a digit, behind a v or not, is stored as the version and never reported |
| Keywords.CodeOptionsPass | cmd/anydbver/anydbver.go:2133-2139 | the options only the code knows are never reported |
| Keywords.NoProblemsIff | cmd/anydbver/anydbver.go:2241-2251 | the deployment goes on exactly when no keyword has such an option |
| Keywords.KnownDeployOptions | cmd/anydbver/anydbver.go:2141-2179 | the tables with the options of k3d and coroot-client added |
| NodeBlocks.ConvertStringToMap | cmd/anydbver/anydbver.go:553-565 | the loop computes AddPairs |
| NodeBlocks.DecodeText | cmd/anydbver/anydbver.go:553-565 | decoding the text of entries gives the systems of the live ones |
| NodeBlocks.RewriteText | cmd/anydbver/anydbver.go:2255 | rewriting the string replaces the last live entry and drops the bare names behind it |
| NodeBlocks.MatchedIsRewritten | cmd/anydbver/anydbver.go:2255 | the text a template refers to is the one rewritten: from the last equals sign on, while the rest stays |
| NodeBlocks.DeployHosts | cmd/anydbver/anydbver.go:2253-2303 | the loop over the arguments is Run |
| NodeBlocks.HandleArg | cmd/anydbver/anydbver.go:2264-2302 | one argument's effect on string, providers, ports and definitions |
| BlockItems.ItemsDecide | cmd/anydbver/anydbver.go:2266-2302 | every node created loses its system if and only if an item since its last opening has docker-image, is k3d or provider:kubectl, or, unless kubectl is the default provider, is an operator's (os items and, but for images, exposing ones aside); its provider is docker-image or kubectl as the last such item says, its system the one named last or el8 |
| BlockItems.ContainersAsAsked | cmd/anydbver/anydbver.go:2253-2303 | where every item stays in its block the decoded string gives a node's container exactly that |
| BlockItems.OperatorTakesSystem | cmd/anydbver/anydbver.go:2295-2301 | an operator's item turns its node into a kubectl node without a system |
| BlockItems.EffectByKind | cmd/anydbver/anydbver.go:2280-2302 | what an item does to the string by what it is |
| BlockItems.StepByKind | cmd/anydbver/anydbver.go:2280-2302 | and to its node's provider and port |
| NodeBlocks.ItemsGoToTheirBlock | cmd/anydbver/anydbver.go:2264-2278 | every item is recorded, in order, for the node whose block it stands in and for no other |
| BlockItems.PortsAsAsked | cmd/anydbver/anydbver.go:2286-2287 | a node exposes the port its last item with expose and without docker-image names |
| NodeBlocks.SystemOrOtherProvider | cmd/anydbver/anydbver.go:2280-2302 | every node either is meant to have a system and keeps the default provider, or was turned into a docker-image or kubectl node and has none |
| NodeBlocks.OsversFollows | cmd/anydbver/anydbver.go:2255-2303 | as long as names and the systems written are words, the string stays the text of the entries, whatever the order of the items |
| NodeBlocks.AskedIsBlocks | cmd/anydbver/anydbver.go:2280-2282 | without a dollar sign in the arguments the systems meant are those the items name |
| NodeBlocks.OnlyWordsComeBack | cmd/anydbver/anydbver.go:553-565 | with a name or system that is no word the decoded map is never the intended one |
| NodeBlocks.StepAgreesIff | cmd/anydbver/anydbver.go:2280-2302 | an item keeps the string's map equal to the intended one if and only if it stays in its block |
| NodeBlocks.OsversIsIntendedIff | cmd/anydbver/anydbver.go:2255-2303 | each node has its last system, el8 if none, and exactly the nodes of another provider are missing, after every argument, if and only if every item stays in its block, also with names that open several |
| NodeBlocks.LateSystemHitsOther | cmd/anydbver/anydbver.go:2280-2285 | the arguments a, b, an item with docker-image, os:x give the system x to a and none to b |
| NodeBlocks.SecondRemovalHitsOther | cmd/anydbver/anydbver.go:2283-2302 | the arguments a, b and two items with docker-image or k3d leave no node a system |
| NodeBlocks.RemovalLeavesFirst | cmd/anydbver/anydbver.go:2266-2302 | the arguments a, a and such an item leave a its first system |
| Substitution.FewerLetters | cmd/anydbver/anydbver.go:1473-1492 | each replacement leaves fewer letters n, so the loop ends, also when a node has no address |
| Substitution.Substitute | cmd/anydbver/anydbver.go:1473-1492 | the loop ends where a pass changes nothing and no listed value has a name left; when every node has an address, the values listed at the start are settled and the rest of the line is as it was |
| Substitution.SettleIsReplaceAllIff | cmd/anydbver/anydbver.go:1473-1492 | settling a value is replacing all its names at once, for all addresses, if and only if they are separated |
| Substitution.SeparatedSufficesIff | cmd/anydbver/anydbver.go:1473-1492 | for addresses that may be missing, every value with separated names is settled as if all at once if and only if no node lacks one |
| Substitution.VanishedNameJoins | cmd/anydbver/anydbver.go:1480-1485 | the failing family: for any name without address, no...de1 around it leaves a new name |
| Substitution.SettledIsAllAtOnceIff | cmd/anydbver/anydbver.go:1473-1492 | the loop replaces every name of the listed values of a line at once, for all resolvers that give every node an address, if and only if the names are separated in each of them |
| Substitution.NamedSettings | cmd/anydbver/anydbver.go:1474 | in each of the six settings, by name, separated names are replaced and the rest of the line stays |
| Substitution.OtherSettings | cmd/anydbver/anydbver.go:1474 | the value of any other name stays as it is |
| Substitution.LinesSufficeIff | cmd/anydbver/anydbver.go:1473-1492 | and over all lines with separated names, for a resolver that may give none: the loop replaces all names at once if and only if no node lacks an address |
| Gtid.GtidCount | tools/setup_proxysql_group.sh:37-63 | on any text the loop ends and adds up the pieces after each colon |
| Gtid.NextColon | tools/setup_proxysql_group.sh:48-60 | the colon's position grows to length plus one |
| Gtid.PrintedSum | tools/setup_proxysql_group.sh:37-63 | on the text of any GTID set, tagged or not, that sum is the number of transactions and one more for each tag |
| Gtid.CountSet | tools/setup_proxysql_group.sh:37-63 | so counting the text of a set counts the set if and only if it has no tags |
| Cidr.NetmaskIs | tools/setup_metallb.sh:7-10 | the mask's octets are those of the word with as many leading ones as the prefix says |
| Cidr.HostMinIs | tools/setup_metallb.sh:13-22 | the network address plus one; its last number is no octet exactly for a /32 ending in 255 |
| Cidr.HostMaxIs | tools/setup_metallb.sh:24-33 | the broadcast address minus one; its last number is no octet exactly for a /32 ending in 0 |
| Cidr.RangeUsableIff | tools/setup_metallb.sh:35-38 | the range is an interval inside the block without its network and broadcast addresses exactly for a prefix up to 24, or up to 30 if the block starts a run of 256 addresses |
| Cidr.RangeBeforeBlock | tools/setup_metallb.sh:35-38 | a block it is not: for 10.0.0.128/25 it starts at 10.0.0.1 |
| JoinLock.Master.Create | tools/setup_mysql_replication.sh:329-331 | creating succeeds exactly when the file was missing |
| JoinLock.Master.Turn | tools/setup_mysql_replication.sh:329-356 | one turn of a joiner is Advance |
| JoinLock.StepKeepsExclusive | tools/setup_mysql_replication.sh:397-415 | only the joiner that holds the file removes it, and that lowers the number of unfinished joiners by one |
| JoinLock.RunsAreExclusive | tools/setup_mysql_replication.sh:329-356 | for any number of joiners and any schedule at most one is joining, the file exists exactly while one is, and the last one leaves it free |
| JoinLock.RunsFinish | tools/setup_mysql_replication.sh:329-356 | n joiners take 3n effective turns, and one is possible as long as somebody is unfinished |

## Left out

- The insides of docker, tc, kubectl, ssh and mysql: what a command does to the state is modelled, and a command the model does not refuse is taken to succeed. Which lifecycle actions docker refuses in which state (`Lifecycle.DockerResult`) is knowledge about docker, not about this code.
- What happens when listing the nodes or a helper's start fails halfway through a reconcile.
- HTTP, JSON, HTML, logging and the file system; the state file is an optional list.
- Time: timers and tickers are nondeterministic steps. The dead-man may fire at any moment, also right after a change.
- Dashboard handlers and loop bodies are atomic between lock and unlock. A node request and the monkey, which take no lock, are two steps each, docker's command and the removal of the helper; listing the nodes is not told apart from docker's command, and neither falls inside a reconcile. Link requests that are still served while the server shuts down.
- CLI commands run one after another, and no dashboard beside them; `Lifecycle.RunsStayGoodIff` is about any order of the commands of both. The CLI's dead-man, a script behind a sleep, is one step.
- Tc.Accepts: beyond ids, counts and the spelling of the arguments, what tc or the kernel refuses: a reordering behind a delay of zero, such as delay=0 reorder=5 or a delay of 0-1ms on some draws (`Netem.StalledRenders`), and a delay too long for it. The filters' addresses are taken as readable.
- TcText.ArgsReadIff: is about the spelling of the words; a reordering behind a delay of zero counts as read.
- Tc.ScriptBuilds: says which commands are refused for what they name or how they are spelt; the same reordering counts as carried out, here and in the results on exactness built on it.
- Rolled numbers are reals and rounding is exact; the source uses float64 and converts with int().
- The random generator: every draw in [0,1) and every pick is possible.
- Versions.SortNewestFirst: an insertion sort stands for sort.Slice; only the promise of a sorted permutation is used.
- Levenshtein.Distance: the source compares bytes; a string's characters stand for its bytes.
- Keywords.UnknownDeployOptions: the wording, sorting and suggestions of the printed lines.
- Keywords.Parsed: alias lookups are maps; a database error counts as no alias.
- NodeBlocks.OsversFollows: an empty system is excluded; what Go's regexp makes of a dollar sign in a system is a parameter, and the system is what it makes.
- NodeBlocks.DeployHosts: creating k3d clusters, and everything behind the loop.
- Substitution.Substitute: the greedy pattern is written as string functions on the pieces between quotes; addresses are texts of digits and dots or empty.
- Gtid.GtidCount: GTID_SUBTRACT's normalisation is the printed form; MySQL's conversion of text to numbers is a parameter that reads decimal numerals, and the rounding of large numbers and the INT result are not modelled.
- Cidr.IngressRange: reading and printing the dotted addresses; the shell's words have any width of at least 32 bits.
- JoinLock.Master.Turn: a joiner that dies while it holds the lock, or loses the connection after creating the file, keeps it for ever.
- Monkey.NeverTheLastNode: only one loop and no other actor; a replaced loop may still be holding its victim while the next one starts.
- The list of measured latencies, the topology view, the package lists, the operator scripts, the container images and the playbook: command assembly around other tools.
