/**
 The node agent against the bundle store: publish, rollback, polls, lost and corrupted replies and
 crashes at any point, as steps of one system.
 */
module Protocol {
  import opened Common
  import opened Store
  import opened History

  /** The state file; anything that is not whole reads as version 0. */
  datatype StateFile = Missing | Torn | Saved(version: int, checksum: string)

  datatype Reply = NoBundle | Unchanged | Changed(version: int, checksum: string, config: string)

  /** Where a poll stands. `Replaced` is the window between the two writes: the configuration file is
      new, the state file still old. */
  datatype Phase =
    | Idle
    | Asked(since: int)
    | Answered(reply: Reply)
    | Fetched(version: int, checksum: string, config: string)
    | Replaced(version: int, checksum: string)

  /** `disk` is the configuration file, if there is one. */
  datatype Node = Node(disk: Option<string>, state: StateFile, phase: Phase)

  datatype System = System(world: World, node: Node)

  datatype Act =
    | Call(op: Op)
    | StartPoll
    | Serve
    | Lose
    | Deliver(corrupted: Option<string>)
    | WriteConfig
    | SaveState
    | Crash
    | CrashSaving

  function CurrentVersion(f: StateFile): int { if f.Saved? then f.version else 0 }

  /** The endpoint the agent polls. */
  function AgentBundle(bundles: seq<BundleRow>, since: int): Reply {
    var row := ActiveRow(bundles);
    if row.None? then NoBundle
    else if row.value.manifest.version == since then Unchanged
    else Changed(row.value.manifest.version, row.value.manifest.checksum, row.value.config)
  }

  /** One step of the node; a step that does not apply changes nothing. `bundles` is what the server
      would answer from. */
  function NodeStep(checksum: string -> string, bundles: seq<BundleRow>, n: Node, a: Act): Node {
    match a
    case Call(_) => n
    case StartPoll => if n.phase.Idle? then n.(phase := Asked(CurrentVersion(n.state))) else n
    case Serve => if n.phase.Asked? then n.(phase := Answered(AgentBundle(bundles, n.phase.since))) else n
    case Lose => if n.phase.Asked? || n.phase.Answered? then n.(phase := Idle) else n
    case Deliver(corrupted) =>
      if !n.phase.Answered? then n
      else if !n.phase.reply.Changed? then n.(phase := Idle)
      else
        var r := n.phase.reply;
        n.(phase := Fetched(r.version, r.checksum, Default(corrupted, r.config)))
    case WriteConfig =>
      if !n.phase.Fetched? then n
      else if checksum(n.phase.config) != n.phase.checksum then n.(phase := Idle)
      else n.(disk := Some(n.phase.config), phase := Replaced(n.phase.version, n.phase.checksum))
    case SaveState =>
      if n.phase.Replaced? then n.(state := Saved(n.phase.version, n.phase.checksum), phase := Idle) else n
    case Crash => n.(phase := Idle)
    case CrashSaving => if n.phase.Replaced? then n.(state := Torn, phase := Idle) else n
  }

  function Next(tools: Tools, s: System, a: Act): System {
    System(if a.Call? then Store.Next(tools, s.world, a.op) else s.world,
           NodeStep(tools.checksum, s.world.bundles, s.node, a))
  }

  function RunActs(tools: Tools, s: System, acts: seq<Act>): System
    decreases acts
  {
    if acts == [] then s else RunActs(tools, Next(tools, s, acts[0]), acts[1..])
  }

  /** A new installation next to an empty store; the file may hold anything. */
  function Fresh(disk: Option<string>): System { System(EMPTY, Node(disk, Missing, Idle)) }

  // ---------------------------------------------------------------- what every step keeps

  ghost predicate Injective(checksum: string -> string) {
    forall a, b :: checksum(a) == checksum(b) ==> a == b
  }

  ghost predicate ChecksumsOk(tools: Tools, bundles: seq<BundleRow>) {
    forall i :: 0 <= i < |bundles| ==> bundles[i].manifest.checksum == tools.checksum(bundles[i].config)
  }

  /** The bytes of version `v`. */
  predicate IsBundle(bundles: seq<BundleRow>, v: int, config: string) {
    1 <= v <= |bundles| && bundles[v - 1].config == config
  }

  predicate HasChecksum(bundles: seq<BundleRow>, v: int, checksum: string) {
    1 <= v <= |bundles| && bundles[v - 1].manifest.checksum == checksum
  }

  /** What is in flight is what the store holds, configuration text aside, and after the first write the
      file is the bundle about to be recorded. */
  predicate InFlightOk(bundles: seq<BundleRow>, n: Node) {
    match n.phase
    case Idle => true
    case Asked(_) => true
    case Answered(reply) =>
      reply.Changed? ==> IsBundle(bundles, reply.version, reply.config)
                         && HasChecksum(bundles, reply.version, reply.checksum)
    case Fetched(v, c, _) => HasChecksum(bundles, v, c)
    case Replaced(v, _) => n.disk.Some? && IsBundle(bundles, v, n.disk.value)
  }

  ghost predicate FileOk(disk: Option<string>, initial: Option<string>, bundles: seq<BundleRow>) {
    disk == initial || (disk.Some? && exists v :: IsBundle(bundles, v, disk.value))
  }

  ghost predicate Sane(tools: Tools, initial: Option<string>, s: System) {
    && Inv(tools, s.world) && ChecksumsOk(tools, s.world.bundles)
    && FileOk(s.node.disk, initial, s.world.bundles) && InFlightOk(s.world.bundles, s.node)
    && (s.node.state.Saved? ==> s.node.state.version >= 1)
    && (s.node.phase.Asked? ==> s.node.phase.since == CurrentVersion(s.node.state))
  }

  /** Outside the window, a recorded version is the version on disk. */
  predicate RecordedOk(s: System) {
    !s.node.phase.Replaced? && CurrentVersion(s.node.state) > 0 ==>
      s.node.disk.Some? && IsBundle(s.world.bundles, CurrentVersion(s.node.state), s.node.disk.value)
  }

  ghost predicate Grown(a: seq<BundleRow>, b: seq<BundleRow>) {
    |a| <= |b| && forall i :: 0 <= i < |a| ==> SameBundle(a[i], b[i])
  }

  lemma {:induction false} GrownKeeps(a: seq<BundleRow>, b: seq<BundleRow>, n: Node, initial: Option<string>)
    requires Grown(a, b) && InFlightOk(a, n) && FileOk(n.disk, initial, a)
    ensures InFlightOk(b, n) && FileOk(n.disk, initial, b)
    ensures forall v, config :: IsBundle(a, v, config) ==> IsBundle(b, v, config)
  {
    if n.disk != initial {
      var v :| IsBundle(a, v, n.disk.value);
      assert IsBundle(b, v, n.disk.value);
    }
  }

  lemma {:induction false} CallChecksums(tools: Tools, w: World, op: Op)
    requires ChecksumsOk(tools, w.bundles)
    ensures ChecksumsOk(tools, Store.Next(tools, w, op).bundles)
  {
  }

  lemma {:induction false} CallKeeps(tools: Tools, initial: Option<string>, s: System, op: Op)
    requires Sane(tools, initial, s)
    ensures Sane(tools, initial, Next(tools, s, Call(op)))
    ensures RecordedOk(s) ==> RecordedOk(Next(tools, s, Call(op)))
  {
    var more := Store.Next(tools, s.world, op);
    StepKeeps(tools, s.world, op);
    BundlesStay(tools, s.world, op);
    CallChecksums(tools, s.world, op);
    GrownKeeps(s.world.bundles, more.bundles, s.node, initial);
  }

  /** What the server answers is one of its bundles, the active one. */
  lemma {:induction false} ReplyIsActive(tools: Tools, w: World, since: int)
    requires Inv(tools, w) && ChecksumsOk(tools, w.bundles)
    ensures var r := AgentBundle(w.bundles, since);
            && (r.Changed? ==> IsBundle(w.bundles, r.version, r.config) && HasChecksum(w.bundles, r.version, r.checksum)
                               && r.checksum == tools.checksum(r.config))
            && (ActiveRow(w.bundles).Some? ==>
                  var row := ActiveRow(w.bundles).value;
                  IsBundle(w.bundles, row.manifest.version, row.config)
                  && row.manifest.checksum == tools.checksum(row.config))
  {
    if w.bundles != [] {
      var k :| IsOnlyActive(w.bundles, k);
      ActiveIs(w.bundles, k);
    }
  }

  /** A text with the checksum of a bundle is that bundle's text. */
  lemma {:induction false} ChecksumTells(tools: Tools, bundles: seq<BundleRow>, v: int, c: string, config: string)
    requires Injective(tools.checksum) && ChecksumsOk(tools, bundles) && HasChecksum(bundles, v, c)
    requires tools.checksum(config) == c
    ensures IsBundle(bundles, v, config)
  {
  }

  lemma {:induction false} NodeKeeps(tools: Tools, initial: Option<string>, s: System, a: Act)
    requires Injective(tools.checksum) && Sane(tools, initial, s) && !a.Call?
    ensures Sane(tools, initial, Next(tools, s, a))
  {
    var n, bundles := s.node, s.world.bundles;
    if a.Serve? && n.phase.Asked? {
      ReplyIsActive(tools, s.world, n.phase.since);
    } else if a.WriteConfig? && n.phase.Fetched? && tools.checksum(n.phase.config) == n.phase.checksum {
      ChecksumTells(tools, bundles, n.phase.version, n.phase.checksum, n.phase.config);
    }
  }

  lemma {:induction false} NodeRecords(tools: Tools, initial: Option<string>, s: System, a: Act)
    requires Sane(tools, initial, s) && !a.Call? && RecordedOk(s) && !(a.Crash? && s.node.phase.Replaced?)
    ensures RecordedOk(Next(tools, s, a))
  {
    var t := Next(tools, s, a);
    assert t.world == s.world;
    if !a.SaveState? && !a.WriteConfig? && !a.CrashSaving? {
      assert t.node.disk == s.node.disk && t.node.state == s.node.state;
    }
  }

  lemma {:induction false} ActKeeps(tools: Tools, initial: Option<string>, s: System, a: Act)
    requires Injective(tools.checksum) && Sane(tools, initial, s)
    ensures Sane(tools, initial, Next(tools, s, a))
    ensures RecordedOk(s) && !(a.Crash? && s.node.phase.Replaced?) ==> RecordedOk(Next(tools, s, a))
  {
    if a.Call? {
      CallKeeps(tools, initial, s, a.op);
    } else {
      NodeKeeps(tools, initial, s, a);
      if RecordedOk(s) && !(a.Crash? && s.node.phase.Replaced?) { NodeRecords(tools, initial, s, a); }
    }
  }

  // ---------------------------------------------------------------- safety over runs

  lemma {:induction false} RunSane(tools: Tools, initial: Option<string>, s: System, acts: seq<Act>)
    requires Injective(tools.checksum) && Sane(tools, initial, s)
    ensures Sane(tools, initial, RunActs(tools, s, acts))
    decreases acts
  {
    if acts != [] {
      ActKeeps(tools, initial, s, acts[0]);
      RunSane(tools, initial, Next(tools, s, acts[0]), acts[1..]);
    }
  }

  lemma {:induction false} FreshSane(tools: Tools, initial: Option<string>)
    ensures Sane(tools, initial, Fresh(initial)) && RecordedOk(Fresh(initial))
  {
    EmptyOk(tools);
  }

  /** With lost replies, corrupted texts and crashes anywhere, the configuration file is always the one
      found at first or exactly some published bundle. */
  lemma {:induction false} FileIsPublished(tools: Tools, initial: Option<string>, acts: seq<Act>)
    requires Injective(tools.checksum)
    ensures var s := RunActs(tools, Fresh(initial), acts);
            s.node.disk == initial
            || (s.node.disk.Some? && exists v :: IsBundle(s.world.bundles, v, s.node.disk.value))
  {
    FreshSane(tools, initial);
    RunSane(tools, initial, Fresh(initial), acts);
  }

  /** No crash falls between the two writes. */
  predicate SparesWindow(tools: Tools, s: System, acts: seq<Act>)
    decreases acts
  {
    acts == []
    || (!(acts[0].Crash? && s.node.phase.Replaced?) && SparesWindow(tools, Next(tools, s, acts[0]), acts[1..]))
  }

  lemma {:induction false} RunRecorded(tools: Tools, initial: Option<string>, s: System, acts: seq<Act>)
    requires Injective(tools.checksum) && Sane(tools, initial, s) && RecordedOk(s) && SparesWindow(tools, s, acts)
    ensures RecordedOk(RunActs(tools, s, acts)) && Sane(tools, initial, RunActs(tools, s, acts))
    decreases acts
  {
    if acts != [] {
      ActKeeps(tools, initial, s, acts[0]);
      RunRecorded(tools, initial, Next(tools, s, acts[0]), acts[1..]);
    }
  }

  /** When no crash falls between the two writes, a recorded version is exactly what is on disk, except
      while a write is under way. */
  lemma {:induction false} RecordedIsOnDisk(tools: Tools, initial: Option<string>, acts: seq<Act>)
    requires Injective(tools.checksum) && SparesWindow(tools, Fresh(initial), acts)
    ensures RecordedOk(RunActs(tools, Fresh(initial), acts))
  {
    FreshSane(tools, initial);
    RunRecorded(tools, initial, Fresh(initial), acts);
  }

  // ---------------------------------------------------------------- a poll that completes

  function Calls(ops: seq<Op>): (r: seq<Act>)
    ensures |r| == |ops|
  {
    if ops == [] then [] else [Call(ops[0])] + Calls(ops[1..])
  }

  /** One uncorrupted poll from beginning to end, with service calls going on before each of its steps. */
  function PollActs(a: seq<Op>, b: seq<Op>, c: seq<Op>, d: seq<Op>): seq<Act> {
    [StartPoll] + Calls(a) + [Serve] + Calls(b) + [Deliver(None)] + Calls(c) + [WriteConfig] + Calls(d) + [SaveState]
  }

  lemma {:induction false} RunActsAppend(tools: Tools, s: System, a: seq<Act>, b: seq<Act>)
    ensures RunActs(tools, s, a + b) == RunActs(tools, RunActs(tools, s, a), b)
    decreases a
  {
    if a == [] {
      assert a + b == b;
    } else {
      assert (a + b)[0] == a[0] && (a + b)[1..] == a[1..] + b;
      RunActsAppend(tools, Next(tools, s, a[0]), a[1..], b);
    }
  }

  lemma {:induction false} RunActsSnoc(tools: Tools, s: System, acts: seq<Act>, a: Act)
    ensures RunActs(tools, s, acts + [a]) == Next(tools, RunActs(tools, s, acts), a)
  {
    RunActsAppend(tools, s, acts, [a]);
    var r := RunActs(tools, s, acts);
    assert [a][1..] == [];
    assert RunActs(tools, r, [a]) == RunActs(tools, Next(tools, r, a), []);
  }

  lemma {:induction false} CallsRun(tools: Tools, s: System, ops: seq<Op>)
    ensures RunActs(tools, s, Calls(ops)) == System(Run(tools, s.world, ops), s.node)
    decreases ops
  {
    if ops != [] {
      var more := Next(tools, s, Call(ops[0]));
      assert Calls(ops)[1..] == Calls(ops[1..]);
      CallsRun(tools, more, ops[1..]);
    }
  }

  /** Service calls, then one step. */
  lemma {:induction false} CallsThen(tools: Tools, s: System, acts: seq<Act>, ops: seq<Op>, a: Act)
    requires !a.Call?
    ensures var r := RunActs(tools, s, acts);
            RunActs(tools, s, acts + Calls(ops) + [a]) ==
            System(Run(tools, r.world, ops),
                   NodeStep(tools.checksum, Run(tools, r.world, ops).bundles, r.node, a))
  {
    RunActsSnoc(tools, s, acts + Calls(ops), a);
    RunActsAppend(tools, s, acts, Calls(ops));
    CallsRun(tools, RunActs(tools, s, acts), ops);
  }

  /** What a reply does to a node that asked. */
  function Take(checksum: string -> string, n: Node, reply: Reply): Node {
    var n1 := n.(phase := Answered(reply));
    var n2 := NodeStep(checksum, [], n1, Deliver(None));
    var n3 := NodeStep(checksum, [], n2, WriteConfig);
    NodeStep(checksum, [], n3, SaveState)
  }

  /** Only the serving step looks at the store. */
  lemma {:induction false} PollNode(checksum: string -> string, n: Node, a: seq<BundleRow>, b: seq<BundleRow>,
                                    c: seq<BundleRow>, d: seq<BundleRow>, e: seq<BundleRow>)
    requires n.phase.Idle?
    ensures var asked := NodeStep(checksum, a, n, StartPoll);
            var answered := NodeStep(checksum, b, asked, Serve);
            var fetched := NodeStep(checksum, c, answered, Deliver(None));
            NodeStep(checksum, e, NodeStep(checksum, d, fetched, WriteConfig), SaveState) ==
            Take(checksum, n, AgentBundle(b, CurrentVersion(n.state)))
  {
  }

  /** A whole poll: the reply is what the store answers at the moment it serves. */
  lemma {:induction false} PollRuns(tools: Tools, s: System, a: seq<Op>, b: seq<Op>, c: seq<Op>, d: seq<Op>)
    requires s.node.phase.Idle?
    ensures var served := Run(tools, s.world, a);
            && RunActs(tools, s, PollActs(a, b, c, d)).node ==
               Take(tools.checksum, s.node, AgentBundle(served.bundles, CurrentVersion(s.node.state)))
            && RunActs(tools, s, PollActs(a, b, c, d)).world == Run(tools, Run(tools, Run(tools, served, b), c), d)
  {
    var start := [StartPoll];
    var serve := start + Calls(a) + [Serve];
    var deliver := serve + Calls(b) + [Deliver(None)];
    var write := deliver + Calls(c) + [WriteConfig];
    RunActsSnoc(tools, s, [], StartPoll);
    assert [] + [StartPoll] == start && RunActs(tools, s, []) == s;
    CallsThen(tools, s, start, a, Serve);
    CallsThen(tools, s, serve, b, Deliver(None));
    CallsThen(tools, s, deliver, c, WriteConfig);
    CallsThen(tools, s, write, d, SaveState);
    assert PollActs(a, b, c, d) == write + Calls(d) + [SaveState];
    var wa := Run(tools, s.world, a);
    var wb := Run(tools, wa, b);
    var wc := Run(tools, wb, c);
    PollNode(tools.checksum, s.node, s.world.bundles, wa.bundles, wb.bundles, wc.bundles, Run(tools, wc, d).bundles);
  }

  /** What a completed poll leaves. The version it found active is recorded, and its bytes are on disk
      exactly when that version was not recorded already or its bytes were there already. */
  lemma {:induction false} PollOutcome(tools: Tools, initial: Option<string>, s: System, a: seq<Op>, b: seq<Op>,
                                       c: seq<Op>, d: seq<Op>)
    requires Sane(tools, initial, s) && s.node.phase.Idle?
    requires ActiveRow(Run(tools, s.world, a).bundles).Some?
    ensures var row := ActiveRow(Run(tools, s.world, a).bundles).value;
            var n := RunActs(tools, s, PollActs(a, b, c, d)).node;
            && n.phase.Idle? && CurrentVersion(n.state) == row.manifest.version
            && n.disk in {Some(row.config), s.node.disk}
            && (n.disk == Some(row.config) <==>
                row.manifest.version != CurrentVersion(s.node.state) || s.node.disk == Some(row.config))
  {
    var served := Run(tools, s.world, a);
    PollRuns(tools, s, a, b, c, d);
    ServedSane(tools, initial, s, a);
    ReplyIsActive(tools, served, CurrentVersion(s.node.state));
    TakesActive(tools.checksum, served.bundles, s.node);
  }

  /** A node that asked from idle, against an active bundle with its own checksum. */
  lemma {:induction false} TakesActive(checksum: string -> string, bundles: seq<BundleRow>, n: Node)
    requires n.phase.Idle? && ActiveRow(bundles).Some?
    requires var row := ActiveRow(bundles).value; row.manifest.checksum == checksum(row.config)
    ensures var row := ActiveRow(bundles).value;
            var r := Take(checksum, n, AgentBundle(bundles, CurrentVersion(n.state)));
            && r.phase.Idle? && CurrentVersion(r.state) == row.manifest.version
            && r.disk in {Some(row.config), n.disk}
            && (r.disk == Some(row.config) <==>
                row.manifest.version != CurrentVersion(n.state) || n.disk == Some(row.config))
  {
  }

  /** Before anything was published a completed poll leaves the node as it was. */
  lemma {:induction false} PollFindsNothing(tools: Tools, s: System, a: seq<Op>, b: seq<Op>, c: seq<Op>, d: seq<Op>)
    requires s.node.phase.Idle? && ActiveRow(Run(tools, s.world, a).bundles).None?
    ensures RunActs(tools, s, PollActs(a, b, c, d)).node == s.node
  {
    PollRuns(tools, s, a, b, c, d);
  }

  lemma {:induction false} ServedSane(tools: Tools, initial: Option<string>, s: System, ops: seq<Op>)
    requires Sane(tools, initial, s)
    ensures Sane(tools, initial, System(Run(tools, s.world, ops), s.node))
    ensures RecordedOk(s) ==> RecordedOk(System(Run(tools, s.world, ops), s.node))
    decreases ops
  {
    if ops != [] {
      CallKeeps(tools, initial, s, ops[0]);
      ServedSane(tools, initial, Next(tools, s, Call(ops[0])), ops[1..]);
    }
  }

  /** Convergence: after any run whose crashes spare the window, a poll that completes uncorrupted leaves
      the bytes of the bundle that was active when it was served, a rollback to a lower version included. */
  lemma {:induction false} PollConverges(tools: Tools, initial: Option<string>, acts: seq<Act>, a: seq<Op>, b: seq<Op>,
                                         c: seq<Op>, d: seq<Op>)
    requires Injective(tools.checksum) && SparesWindow(tools, Fresh(initial), acts)
    requires RunActs(tools, Fresh(initial), acts).node.phase.Idle?
    requires ActiveRow(Run(tools, RunActs(tools, Fresh(initial), acts).world, a).bundles).Some?
    ensures var s := RunActs(tools, Fresh(initial), acts);
            var row := ActiveRow(Run(tools, s.world, a).bundles).value;
            var n := RunActs(tools, s, PollActs(a, b, c, d)).node;
            n.disk == Some(row.config) && CurrentVersion(n.state) == row.manifest.version
  {
    var s := RunActs(tools, Fresh(initial), acts);
    FreshSane(tools, initial);
    RunRecorded(tools, initial, Fresh(initial), acts);
    PollOutcome(tools, initial, s, a, b, c, d);
    ServedSane(tools, initial, s, a);
    ReplyIsActive(tools, Run(tools, s.world, a), CurrentVersion(s.node.state));
  }

  // ---------------------------------------------------------------- a crash in the window

  /** A crash between the two writes leaves bundle `n` on disk and the old version `o` recorded. The next
      completed poll puts the active bytes on disk exactly when the active version is not `o`, or is `o`
      with the bytes of `n`. Otherwise the server says "unchanged" and the node stays on bundle `n`. */
  lemma {:induction false} WindowCrash(tools: Tools, initial: Option<string>, s: System, a: seq<Op>, b: seq<Op>,
                                       c: seq<Op>, d: seq<Op>)
    requires Sane(tools, initial, s) && s.node.phase.Replaced?
    requires ActiveRow(Run(tools, s.world, a).bundles).Some?
    ensures var crashed := Next(tools, s, Crash);
            var row := ActiveRow(Run(tools, s.world, a).bundles).value;
            var node := RunActs(tools, crashed, PollActs(a, b, c, d)).node;
            && (node.disk == Some(row.config) <==>
                row.manifest.version != CurrentVersion(s.node.state)
                || row.config == s.world.bundles[s.node.phase.version - 1].config)
            && (node.disk != Some(row.config) ==> node.disk == s.node.disk)
  {
    var crashed := Next(tools, s, Crash);
    PollOutcome(tools, initial, crashed, a, b, c, d);
  }

  /** A crash that tears the state file heals: the torn file reads as version 0, so the next completed poll
      always has the active bytes on disk, a rollback to any version included. */
  lemma {:induction false} TornHeals(tools: Tools, initial: Option<string>, s: System, a: seq<Op>, b: seq<Op>,
                                     c: seq<Op>, d: seq<Op>)
    requires Sane(tools, initial, s) && s.node.phase.Replaced?
    requires ActiveRow(Run(tools, s.world, a).bundles).Some?
    ensures var torn := Next(tools, s, CrashSaving);
            var row := ActiveRow(Run(tools, s.world, a).bundles).value;
            var node := RunActs(tools, torn, PollActs(a, b, c, d)).node;
            && CurrentVersion(torn.node.state) == 0
            && node.disk == Some(row.config) && CurrentVersion(node.state) == row.manifest.version
  {
    var torn := Next(tools, s, CrashSaving);
    PollOutcome(tools, initial, torn, a, b, c, d);
    ServedSane(tools, initial, torn, a);
    ReplyIsActive(tools, Run(tools, torn.world, a), 0);
  }

  lemma {:induction false} RollbackServes(tools: Tools, w: World, actor: string, v: int)
    requires Inv(tools, w) && 1 <= v <= |w.bundles|
    ensures var later := Run(tools, w, [Rollback(actor, v)]);
            && ActiveRow(later.bundles).Some? && ActiveVersion(later.bundles) == Some(v)
            && ActiveRow(later.bundles).value.config == w.bundles[v - 1].config
  {
    var back := Rollback(actor, v);
    RollbackGives(tools, w, actor, v);
    assert [back][1..] == [];
    assert Run(tools, w, [back]) == Run(tools, Store.Next(tools, w, back), []);
  }

  lemma {:induction false} CrashSane(tools: Tools, initial: Option<string>, s: System)
    requires Sane(tools, initial, s)
    ensures var crashed := Next(tools, s, Crash);
            && Sane(tools, initial, crashed) && crashed.node.phase.Idle? && crashed.world == s.world
            && crashed.node.state == s.node.state && crashed.node.disk == s.node.disk
  {
  }

  lemma {:induction false} WindowDisk(tools: Tools, initial: Option<string>, s: System)
    requires Sane(tools, initial, s) && s.node.phase.Replaced?
    ensures 1 <= s.node.phase.version <= |s.world.bundles|
    ensures s.node.disk == Some(s.world.bundles[s.node.phase.version - 1].config)
  {
  }

  /** So a rollback to the recorded version after such a crash is never applied, unless the two bundles
      have the same bytes: version and state file say `o`, the file keeps the bytes of `n`. */
  lemma {:induction false} RollbackMissed(tools: Tools, initial: Option<string>, s: System, actor: string, o: int)
    requires Sane(tools, initial, s) && s.node.phase.Replaced? && o == CurrentVersion(s.node.state)
    requires 1 <= o <= |s.world.bundles|
    requires s.world.bundles[o - 1].config != s.world.bundles[s.node.phase.version - 1].config
    ensures var after := RunActs(tools, Next(tools, s, Crash), PollActs([Rollback(actor, o)], [], [], []));
            && after.node.disk == s.node.disk && CurrentVersion(after.node.state) == o
            && ActiveVersion(Run(tools, s.world, [Rollback(actor, o)]).bundles) == Some(o)
            && after.node.disk != Some(s.world.bundles[o - 1].config)
  {
    RollbackServes(tools, s.world, actor, o);
    CrashSane(tools, initial, s);
    WindowDisk(tools, initial, s);
    PollOutcome(tools, initial, Next(tools, s, Crash), [Rollback(actor, o)], [], [], []);
  }

  lemma {:induction false} RunFive(tools: Tools, s: System, a: Act, b: Act, c: Act, d: Act, e: Act)
    ensures RunActs(tools, s, [a, b, c, d, e]) ==
            Next(tools, Next(tools, Next(tools, Next(tools, Next(tools, s, a), b), c), d), e)
  {
    assert RunActs(tools, s, []) == s && [] + [a] == [a] && [a] + [b] == [a, b];
    assert [a, b] + [c] == [a, b, c] && [a, b, c] + [d] == [a, b, c, d] && [a, b, c, d] + [e] == [a, b, c, d, e];
    RunActsSnoc(tools, s, [], a);
    RunActsSnoc(tools, s, [a], b);
    RunActsSnoc(tools, s, [a, b], c);
    RunActsSnoc(tools, s, [a, b, c], d);
    RunActsSnoc(tools, s, [a, b, c, d], e);
  }

  /** From an idle node that has bundle 1, publishing bundle 2 and polling up to the first write. */
  lemma {:induction false} IntoWindow(tools: Tools, initial: Option<string>, s: System, publish: Op) returns (r: System)
    requires Sane(tools, initial, s) && s.node.phase.Idle? && CurrentVersion(s.node.state) <= |s.world.bundles|
    requires publish.Publish? && Step(tools, s.world, publish).Ok?
    ensures r == RunActs(tools, s, [Call(publish), StartPoll, Serve, Deliver(None), WriteConfig])
    ensures r.world == Store.Next(tools, s.world, publish)
    ensures r.node.phase.Replaced? && r.node.phase.version == |s.world.bundles| + 1 && r.node.state == s.node.state
  {
    var w := Store.Next(tools, s.world, publish);
    var s1 := Next(tools, s, Call(publish));
    PublishActive(tools, s.world, publish);
    CallKeeps(tools, initial, s, publish);
    ReplyIsActive(tools, w, CurrentVersion(s.node.state));
    RunFive(tools, s, Call(publish), StartPoll, Serve, Deliver(None), WriteConfig);
    r := WindowSteps(tools, s1);
  }

  lemma {:induction false} PublishCounts(tools: Tools, w: World, publish: Op)
    requires publish.Publish? && Step(tools, w, publish).Ok?
    ensures |Store.Next(tools, w, publish).bundles| == |w.bundles| + 1
  {
  }

  lemma {:induction false} PublishActive(tools: Tools, w: World, publish: Op)
    requires Inv(tools, w) && publish.Publish? && Step(tools, w, publish).Ok?
    ensures ActiveVersion(Store.Next(tools, w, publish).bundles) == Some(|w.bundles| + 1)
    ensures ActiveRow(Store.Next(tools, w, publish).bundles).Some?
  {
    NextIsCount(w.bundles);
    PublishedRows(w.bundles, BuildBundle(tools, LoadChain(w), NextVersion(w.bundles), publish.actor, publish.note).value);
  }

  lemma {:induction false} WindowSteps(tools: Tools, s: System) returns (r: System)
    requires s.node.phase.Idle? && ActiveRow(s.world.bundles).Some?
    requires ActiveVersion(s.world.bundles).value != CurrentVersion(s.node.state)
    requires var row := ActiveRow(s.world.bundles).value; row.manifest.checksum == tools.checksum(row.config)
    ensures r == Next(tools, Next(tools, Next(tools, Next(tools, s, StartPoll), Serve), Deliver(None)), WriteConfig)
    ensures r.world == s.world && r.node.state == s.node.state
    ensures r.node.phase.Replaced? && r.node.phase.version == ActiveVersion(s.world.bundles).value
  {
    r := Next(tools, Next(tools, Next(tools, Next(tools, s, StartPoll), Serve), Deliver(None)), WriteConfig);
  }

  /** The window is reached in practice: publish, poll, publish again, poll up to the first write. */
  lemma {:induction false} WindowReached(tools: Tools, initial: Option<string>, first: Op, second: Op)
    returns (s: System)
    requires Injective(tools.checksum) && first.Publish? && Step(tools, EMPTY, first).Ok?
    requires second.Publish? && Step(tools, Store.Next(tools, EMPTY, first), second).Ok?
    ensures s == RunActs(tools, RunActs(tools, RunActs(tools, Fresh(initial), [Call(first)]), PollActs([], [], [], [])),
                         [Call(second), StartPoll, Serve, Deliver(None), WriteConfig])
    ensures Sane(tools, initial, s) && s.node.phase.Replaced? && s.node.phase.version == 2
    ensures CurrentVersion(s.node.state) == 1 && |s.world.bundles| == 2
  {
    var s1 := System(Store.Next(tools, EMPTY, first), Fresh(initial).node);
    FreshSane(tools, initial);
    RunActsSnoc(tools, Fresh(initial), [], Call(first));
    assert [] + [Call(first)] == [Call(first)] && RunActs(tools, Fresh(initial), []) == Fresh(initial);
    CallKeeps(tools, initial, Fresh(initial), first);
    PublishActive(tools, EMPTY, first);
    var s2 := RunActs(tools, s1, PollActs([], [], [], []));
    assert Run(tools, s1.world, []) == s1.world;
    PollOutcome(tools, initial, s1, [], [], [], []);
    PollRuns(tools, s1, [], [], [], []);
    RunSane(tools, initial, s1, PollActs([], [], [], []));
    PublishCounts(tools, EMPTY, first);
    PublishCounts(tools, s1.world, second);
    s := IntoWindow(tools, initial, s2, second);
    RunSane(tools, initial, s2, [Call(second), StartPoll, Serve, Deliver(None), WriteConfig]);
  }

  // ---------------------------------------------------------------- the agent as an object

  /** What one request to the server came back with. */
  datatype Fetch = FetchFailed | Body(reply: Reply)

  class Agent {
    const checksum: string -> string
    var disk: Option<string>
    var state: StateFile

    constructor (checksum: string -> string, disk: Option<string>, state: StateFile)
      ensures this.checksum == checksum && this.disk == disk && this.state == state
    {
      this.checksum, this.disk, this.state := checksum, disk, state;
    }

    method ReadVersion() returns (v: int)
      ensures v == CurrentVersion(state)
    {
      match state {
        case Saved(version, _) => v := version;
        case _ => v := 0;
      }
    }

    method SaveVersion(version: int, actual: string)
      modifies `state
      ensures state == Saved(version, actual)
    {
      state := Saved(version, actual);
    }

    /** Two writes, the configuration first; a text with the wrong checksum changes neither file. */
    method ApplyConfig(config: string, version: int, expected: string) returns (applied: bool)
      modifies this
      ensures applied <==> checksum(config) == expected
      ensures disk == if applied then Some(config) else old(disk)
      ensures state == if applied then Saved(version, expected) else old(state)
    {
      var actual := checksum(config);
      if actual != expected { return false; }
      disk := Some(config);
      SaveVersion(version, actual);
      applied := true;
    }

    /** One poll; `fetch` is the server and the network for the version sent. It does to the files what
        the protocol's own steps do. */
    method PollOnce(fetch: int -> Fetch) returns (applied: bool)
      modifies this
      ensures var was := Node(old(disk), old(state), Idle);
              var answer := fetch(CurrentVersion(old(state)));
              Node(disk, state, Idle) == if answer.FetchFailed? then was else Take(checksum, was, answer.reply)
      ensures !applied ==> disk == old(disk) && state == old(state)
      ensures var answer := fetch(if old(state).Saved? then old(state).version else 0);
              && (applied <==> answer.Body? && answer.reply.Changed?
                               && checksum(answer.reply.config) == answer.reply.checksum)
              && (applied ==> disk == Some(answer.reply.config)
                              && state == Saved(answer.reply.version, answer.reply.checksum))
    {
      var since := ReadVersion();
      var answer := fetch(since);
      match answer {
        case FetchFailed => applied := false;
        case Body(reply) =>
          if reply.Changed? {
            applied := ApplyConfig(reply.config, reply.version, reply.checksum);
          } else {
            applied := false;
          }
      }
    }
  }
}
