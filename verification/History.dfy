/** What holds over every run of service calls: the audit log is a complete history of the rules, the
    settings and the active bundle, and stored bundles never change. */
module History {
  import opened Common
  import opened Rules
  import opened Store
  import Compiler
  import Consequences
  import Limits
  import Names

  // ---------------------------------------------------------------- replaying the log

  datatype Snapshot = Snapshot(rules: seq<Rule>, settings: Settings, active: Option<int>)

  const NOTHING := Snapshot([], Settings(FORWARD, false), None)

  function Apply(s: Snapshot, c: Change): Snapshot {
    match c
    case RuleCreated(after) => s.(rules := s.rules + [after])
    case RuleUpdated(_, after) => s.(rules := Put(s.rules, after))
    case RuleDisabled(_, after) => s.(rules := Put(s.rules, after))
    case SettingsChanged(_, after) => s.(settings := after)
    case Published(manifest, _) => s.(active := Some(manifest.version))
    case RolledBack(_, target) => s.(active := Some(target))
  }

  function Replay(log: seq<AuditRow>): Snapshot {
    if log == [] then NOTHING else Apply(Replay(log[..|log| - 1]), log[|log| - 1].change)
  }

  function SnapshotOf(w: World): Snapshot {
    Snapshot(w.rules, SettingsOf(w), ActiveVersion(w.bundles))
  }

  /** The `before` of an entry is what stood there. */
  predicate Agrees(s: Snapshot, c: Change) {
    match c
    case RuleCreated(after) => !Names.Taken(s.rules, after.id)
    case RuleUpdated(before, after) => Find(s.rules, after.id) == Some(before)
    case RuleDisabled(before, after) => Find(s.rules, after.id) == Some(before)
    case SettingsChanged(before, _) => s.settings == before
    case Published(_, _) => true
    case RolledBack(previous, _) => s.active == previous
  }

  ghost predicate BeforesAgree(log: seq<AuditRow>) {
    forall i {:trigger log[i]} :: 0 <= i < |log| ==> Agrees(Replay(log[..i]), log[i].change)
  }

  predicate IsAbout(c: Change, id: string) {
    match c
    case RuleCreated(after) => after.id == id
    case RuleUpdated(_, after) => after.id == id
    case RuleDisabled(_, after) => after.id == id
    case _ => false
  }

  /** How many entries are about a rule. */
  function Entries(log: seq<AuditRow>, id: string): nat {
    if log == [] then 0
    else Entries(log[..|log| - 1], id) + if IsAbout(log[|log| - 1].change, id) then 1 else 0
  }

  lemma {:induction false} LogSnoc(log: seq<AuditRow>, e: AuditRow)
    ensures Replay(log + [e]) == Apply(Replay(log), e.change)
    ensures forall id :: Entries(log + [e], id) == Entries(log, id) + if IsAbout(e.change, id) then 1 else 0
    ensures BeforesAgree(log) && Agrees(Replay(log), e.change) ==> BeforesAgree(log + [e])
  {
    var more := log + [e];
    assert more[..|more| - 1] == log;
    if BeforesAgree(log) && Agrees(Replay(log), e.change) {
      forall i | 0 <= i < |more| ensures Agrees(Replay(more[..i]), more[i].change) {
        assert more[..i] == if i < |log| then log[..i] else log;
      }
    }
  }

  // ---------------------------------------------------------------- the rule table

  lemma {:induction false} FindRow(rules: seq<Rule>, i: nat)
    requires UniqueIds(rules) && i < |rules|
    ensures Find(rules, rules[i].id) == Some(rules[i])
  {
    if i > 0 { FindRow(rules[1..], i - 1); }
  }

  lemma {:induction false} FindTaken(rules: seq<Rule>, id: string)
    ensures Find(rules, id).Some? <==> Names.Taken(rules, id)
  {
    if rules != [] {
      FindTaken(rules[1..], id);
      if Names.Taken(rules, id) && rules[0].id != id {
        var i :| 0 <= i < |rules| && rules[i].id == id;
        assert rules[1..][i - 1].id == id;
      }
    }
  }

  lemma {:induction false} PutKeeps(rules: seq<Rule>, r: Rule)
    requires UniqueIds(rules)
    ensures UniqueIds(Put(rules, r))
    ensures forall id :: Names.Taken(rules, id) <==> Names.Taken(Put(rules, r), id)
    ensures forall q :: q in Put(rules, r) ==> q in rules || q == r
    ensures forall q :: q in Put(rules, r) && q.id != r.id ==> q in rules
    ensures forall q :: q in Put(rules, r) && q.id == r.id ==> q == r
  {
    var s := Put(rules, r);
    forall i | 0 <= i < |rules| ensures s[i].id == rules[i].id {}
    forall id | Names.Taken(rules, id) ensures Names.Taken(s, id) {
      var i :| 0 <= i < |rules| && rules[i].id == id;
      assert s[i].id == id;
    }
  }

  // ---------------------------------------------------------------- the bundle table

  /** Versions are 1 to n in order, and once there is a bundle exactly one row is active. */
  ghost predicate BundlesOk(bundles: seq<BundleRow>) {
    && (forall i :: 0 <= i < |bundles| ==> bundles[i].manifest.version == i + 1)
    && (bundles != [] ==> exists k :: IsOnlyActive(bundles, k))
  }

  ghost predicate IsOnlyActive(bundles: seq<BundleRow>, k: int) {
    0 <= k < |bundles| && forall i :: 0 <= i < |bundles| ==> (bundles[i].active <==> i == k)
  }

  lemma {:induction false} NextIsCount(bundles: seq<BundleRow>)
    requires forall i :: 0 <= i < |bundles| ==> bundles[i].manifest.version == i + 1
    ensures NextVersion(bundles) == |bundles| + 1
  {
    if bundles != [] { NextIsCount(bundles[..|bundles| - 1]); }
  }

  lemma {:induction false} ActiveIs(bundles: seq<BundleRow>, k: nat)
    requires IsOnlyActive(bundles, k)
    ensures ActiveRow(bundles) == Some(bundles[k])
  {
    if k > 0 {
      assert IsOnlyActive(bundles[1..], k - 1) by {
        forall i | 0 <= i < |bundles[1..]| ensures bundles[1..][i].active <==> i == k - 1 {
          assert bundles[1..][i] == bundles[i + 1];
        }
      }
      ActiveIs(bundles[1..], k - 1);
    }
  }

  lemma {:induction false} FindBundleAt(bundles: seq<BundleRow>, first: int, v: int)
    requires forall i :: 0 <= i < |bundles| ==> bundles[i].manifest.version == first + i
    ensures FindBundle(bundles, v).Some? <==> first <= v < first + |bundles|
    ensures FindBundle(bundles, v).Some? ==> FindBundle(bundles, v).value == bundles[v - first]
  {
    if bundles != [] { FindBundleAt(bundles[1..], first + 1, v); }
  }

  lemma {:induction false} PublishedRows(bundles: seq<BundleRow>, row: BundleRow)
    requires BundlesOk(bundles) && row.manifest.version == |bundles| + 1 && row.active
    ensures BundlesOk(Activate(bundles, None) + [row])
    ensures ActiveRow(Activate(bundles, None) + [row]) == Some(row)
  {
    var s := Activate(bundles, None) + [row];
    assert IsOnlyActive(s, |bundles|);
    ActiveIs(s, |bundles|);
  }

  lemma {:induction false} RolledBackRows(bundles: seq<BundleRow>, v: int)
    requires BundlesOk(bundles) && 1 <= v <= |bundles|
    ensures BundlesOk(Activate(bundles, Some(v)))
    ensures ActiveRow(Activate(bundles, Some(v))) == Some(bundles[v - 1].(active := true))
  {
    var s := Activate(bundles, Some(v));
    assert IsOnlyActive(s, v - 1);
    ActiveIs(s, v - 1);
  }

  // ---------------------------------------------------------------- the invariant

  ghost predicate RulesOk(tools: Tools, w: World) {
    && UniqueIds(w.rules)
    && (forall r :: r in w.rules ==> RuleOk(tools, r) && r.version == Entries(w.audit, r.id))
    && (forall id :: !Names.Taken(w.rules, id) ==> Entries(w.audit, id) == 0)
  }

  ghost predicate LogOk(w: World) {
    Replay(w.audit) == SnapshotOf(w) && BeforesAgree(w.audit)
  }

  /** The log replays to the tables, every `before` is right, versions count entries, bundles are
      numbered, and every stored rule passes the model's checks. */
  ghost predicate Inv(tools: Tools, w: World) {
    RulesOk(tools, w) && LogOk(w) && BundlesOk(w.bundles)
  }

  lemma {:induction false} LogStep(w: World, more: World, actor: string, c: Change)
    requires LogOk(w) && more.audit == w.audit + [AuditRow(actor, c)]
    requires Agrees(SnapshotOf(w), c) && Apply(SnapshotOf(w), c) == SnapshotOf(more)
    ensures LogOk(more)
    ensures forall id :: Entries(more.audit, id) == Entries(w.audit, id) + if IsAbout(c, id) then 1 else 0
  {
    LogSnoc(w.audit, AuditRow(actor, c));
  }

  lemma {:induction false} CreateKeeps(tools: Tools, w: World, actor: string, n: NewRule)
    requires Inv(tools, w)
    ensures Inv(tools, Next(tools, w, CreateRule(actor, n)))
  {
    var more, id := Next(tools, w, CreateRule(actor, n)), Names.FreshId(w.rules, n.name);
    if Step(tools, w, CreateRule(actor, n)).Ok? {
      Names.FreshIdForm(w.rules, n.name);
      LogStep(w, more, actor, RuleCreated(Created(id, n)));
      forall k ensures Names.Taken(more.rules, k) <==> Names.Taken(w.rules, k) || k == id {
        Names.TakenSnoc(w.rules, Created(id, n), k);
      }
      NotTakenUnique(w.rules, Created(id, n));
    }
  }

  lemma {:induction false} NotTakenUnique(rules: seq<Rule>, r: Rule)
    requires UniqueIds(rules) && !Names.Taken(rules, r.id)
    ensures UniqueIds(rules + [r])
    ensures forall q :: q in rules ==> q.id != r.id
  {
  }

  /** A stored rule changed in place, its version one higher, one entry about it appended. */
  lemma {:induction false} TouchKeeps(tools: Tools, w: World, actor: string, before: Rule, after: Rule, c: Change)
    requires Inv(tools, w) && Find(w.rules, after.id) == Some(before) && RuleOk(tools, after)
    requires after.version == before.version + 1 && c in {RuleUpdated(before, after), RuleDisabled(before, after)}
    ensures Inv(tools, Log(w.(rules := Put(w.rules, after)), actor, c))
  {
    var more := Log(w.(rules := Put(w.rules, after)), actor, c);
    PutKeeps(w.rules, after);
    LogStep(w, more, actor, c);
    FindTaken(w.rules, after.id);
  }

  lemma {:induction false} BundleStepKeeps(tools: Tools, w: World, more: World, actor: string, c: Change)
    requires Inv(tools, w) && more.rules == w.rules && more.audit == w.audit + [AuditRow(actor, c)]
    requires BundlesOk(more.bundles) && forall id :: !IsAbout(c, id)
    requires Agrees(SnapshotOf(w), c) && Apply(SnapshotOf(w), c) == SnapshotOf(more)
    ensures Inv(tools, more)
  {
    LogStep(w, more, actor, c);
  }

  lemma {:induction false} PublishKeeps(tools: Tools, w: World, actor: string, note: string, require_: bool, gate: Gate)
    requires Inv(tools, w)
    ensures Inv(tools, Next(tools, w, Publish(actor, note, require_, gate)))
  {
    NextIsCount(w.bundles);
    if Step(tools, w, Publish(actor, note, require_, gate)).Ok? {
      var row, skipped := PublishAdds(tools, w, actor, note, require_, gate);
      RowAdded(tools, w, Next(tools, w, Publish(actor, note, require_, gate)), actor, row, skipped);
    }
  }

  lemma {:induction false} PublishAdds(tools: Tools, w: World, actor: string, note: string, require_: bool, gate: Gate)
    returns (row: BundleRow, skipped: bool)
    requires Step(tools, w, Publish(actor, note, require_, gate)).Ok?
    ensures row.active && row.manifest.version == NextVersion(w.bundles)
    ensures Next(tools, w, Publish(actor, note, require_, gate)) ==
            Log(w.(settings := Some(SettingsOf(w)), bundles := Activate(w.bundles, None) + [row]), actor,
                Published(row.manifest, skipped))
  {
    row := BuildBundle(tools, LoadChain(w), NextVersion(w.bundles), actor, note).value;
    skipped := CheckGate(gate, require_).value;
  }

  lemma {:induction false} RowAdded(tools: Tools, w: World, more: World, actor: string, row: BundleRow, skipped: bool)
    requires Inv(tools, w) && row.active && row.manifest.version == |w.bundles| + 1
    requires more == Log(w.(settings := Some(SettingsOf(w)), bundles := Activate(w.bundles, None) + [row]), actor,
                         Published(row.manifest, skipped))
    ensures Inv(tools, more)
  {
    PublishedRows(w.bundles, row);
    BundleStepKeeps(tools, w, more, actor, Published(row.manifest, skipped));
  }

  lemma {:induction false} RollbackKeeps(tools: Tools, w: World, actor: string, v: int)
    requires Inv(tools, w)
    ensures Inv(tools, Next(tools, w, Rollback(actor, v)))
  {
    var more := Next(tools, w, Rollback(actor, v));
    FindBundleAt(w.bundles, 1, v);
    if FindBundle(w.bundles, v).Some? {
      RolledBackRows(w.bundles, v);
      BundleStepKeeps(tools, w, more, actor, RolledBack(ActiveVersion(w.bundles), v));
    }
  }

  lemma {:induction false} RuleOpKeeps(tools: Tools, w: World, op: Op)
    requires Inv(tools, w) && (op.UpdateRule? || op.DisableRule?)
    ensures Inv(tools, Next(tools, w, op))
  {
    var row := Find(w.rules, op.id);
    if Step(tools, w, op).Ok? {
      var after := if op.UpdateRule? then Patched(row.value, op.patch) else Disabled(row.value);
      assert row.value in w.rules;
      TouchKeeps(tools, w, op.actor, row.value, after,
                 if op.UpdateRule? then RuleUpdated(row.value, after) else RuleDisabled(row.value, after));
    }
  }

  /** Every service call keeps the invariant. */
  lemma {:induction false} StepKeeps(tools: Tools, w: World, op: Op)
    requires Inv(tools, w)
    ensures Inv(tools, Next(tools, w, op))
  {
    match op
    case CreateRule(actor, n) => CreateKeeps(tools, w, actor, n);
    case UpdateRule(_, _, _) => RuleOpKeeps(tools, w, op);
    case DisableRule(_, _) => RuleOpKeeps(tools, w, op);
    case SetSettings(actor, defaultAction, shadowMode) =>
      var before := SettingsOf(w);
      var after := Settings(Default(defaultAction, before.defaultAction), Default(shadowMode, before.shadowMode));
      BundleStepKeeps(tools, w, Next(tools, w, op), actor, SettingsChanged(before, after));
    case Publish(actor, note, require_, gate) => PublishKeeps(tools, w, actor, note, require_, gate);
    case Rollback(actor, v) => RollbackKeeps(tools, w, actor, v);
  }

  // ---------------------------------------------------------------- runs

  lemma {:induction false} RunKeeps(tools: Tools, w: World, ops: seq<Op>)
    requires Inv(tools, w)
    ensures Inv(tools, Run(tools, w, ops))
    decreases ops
  {
    if ops != [] {
      StepKeeps(tools, w, ops[0]);
      RunKeeps(tools, Next(tools, w, ops[0]), ops[1..]);
    }
  }

  lemma {:induction false} EmptyOk(tools: Tools)
    ensures Inv(tools, EMPTY)
  {
  }

  /** After any calls the log alone rebuilds the rules, the settings and the active version; every
      `before` is what the log up to there rebuilds; and a rule's version is the number of its entries. */
  lemma {:induction false} AuditComplete(tools: Tools, ops: seq<Op>)
    ensures var w := Run(tools, EMPTY, ops);
            && Replay(w.audit) == SnapshotOf(w)
            && (forall i {:trigger w.audit[i]} :: 0 <= i < |w.audit| ==> Agrees(Replay(w.audit[..i]), w.audit[i].change))
            && (forall r :: r in w.rules ==> r.version == Entries(w.audit, r.id))
            && UniqueIds(w.rules)
  {
    EmptyOk(tools);
    RunKeeps(tools, EMPTY, ops);
  }

  lemma {:induction false} RunAppend(tools: Tools, w: World, a: seq<Op>, b: seq<Op>)
    ensures Run(tools, w, a + b) == Run(tools, Run(tools, w, a), b)
    decreases a
  {
    if a == [] {
      assert a + b == b;
    } else {
      assert (a + b)[0] == a[0] && (a + b)[1..] == a[1..] + b;
      RunAppend(tools, Next(tools, w, a[0]), a[1..], b);
    }
  }

  /** A call that is carried out appends exactly one audit row, under its caller's name. */
  lemma {:induction false} OneRowPerCall(tools: Tools, w: World, op: Op)
    requires Step(tools, w, op).Ok?
    ensures exists c :: Next(tools, w, op).audit == w.audit + [AuditRow(op.actor, c)]
  {
    match op
    case CreateRule(actor, n) =>
      var r := Created(Names.FreshId(w.rules, n.name), n);
      assert Next(tools, w, op).audit == w.audit + [AuditRow(actor, RuleCreated(r))];
    case UpdateRule(actor, id, p) =>
      var r := Find(w.rules, id).value;
      assert Next(tools, w, op).audit == w.audit + [AuditRow(actor, RuleUpdated(r, Patched(r, p)))];
    case DisableRule(actor, id) =>
      var r := Find(w.rules, id).value;
      assert Next(tools, w, op).audit == w.audit + [AuditRow(actor, RuleDisabled(r, Disabled(r)))];
    case SetSettings(actor, defaultAction, shadowMode) =>
    case Publish(actor, note, require_, gate) =>
      var row := BuildBundle(tools, LoadChain(w), NextVersion(w.bundles), actor, note).value;
      assert Next(tools, w, op).audit ==
             w.audit + [AuditRow(actor, Published(row.manifest, CheckGate(gate, require_).value))];
    case Rollback(actor, v) =>
      assert Next(tools, w, op).audit == w.audit + [AuditRow(actor, RolledBack(ActiveVersion(w.bundles), v))];
  }

  predicate SameBundle(a: BundleRow, b: BundleRow) { a.manifest == b.manifest && a.config == b.config }

  /** What later calls may not undo: ids stay, the log only grows, bundles keep their content. */
  ghost predicate Extends(w: World, more: World) {
    && (forall id :: Names.Taken(w.rules, id) ==> Names.Taken(more.rules, id))
    && w.audit <= more.audit
    && |w.bundles| <= |more.bundles|
    && forall i :: 0 <= i < |w.bundles| ==> SameBundle(w.bundles[i], more.bundles[i])
  }

  lemma {:induction false} RulesStay(tools: Tools, w: World, op: Op, id: string)
    requires Inv(tools, w) && Names.Taken(w.rules, id)
    ensures Names.Taken(Next(tools, w, op).rules, id)
  {
    if Next(tools, w, op).rules == w.rules {
      return;
    } else if op.CreateRule? {
      Names.TakenSnoc(w.rules, Created(Names.FreshId(w.rules, op.rule.name), op.rule), id);
    } else if op.UpdateRule? && Find(w.rules, op.id).Some? {
      PutKeeps(w.rules, Patched(Find(w.rules, op.id).value, op.patch));
    } else if op.DisableRule? && Find(w.rules, op.id).Some? {
      PutKeeps(w.rules, Disabled(Find(w.rules, op.id).value));
    }
  }

  lemma {:induction false} StepExtends(tools: Tools, w: World, op: Op)
    requires Inv(tools, w)
    ensures Extends(w, Next(tools, w, op))
  {
    if Step(tools, w, op).Ok? { OneRowPerCall(tools, w, op); }
    forall id | Names.Taken(w.rules, id) ensures Names.Taken(Next(tools, w, op).rules, id) {
      RulesStay(tools, w, op, id);
    }
    BundlesStay(tools, w, op);
  }

  lemma {:induction false} BundlesStay(tools: Tools, w: World, op: Op)
    ensures var more := Next(tools, w, op);
            && |w.bundles| <= |more.bundles|
            && forall i :: 0 <= i < |w.bundles| ==> SameBundle(w.bundles[i], more.bundles[i])
  {
  }

  /** Over any run no rule id disappears, no log row changes, and the bytes, checksum and manifest of a
      stored bundle stay what they were. */
  lemma {:induction false} NothingIsUndone(tools: Tools, w: World, ops: seq<Op>)
    requires Inv(tools, w)
    ensures Extends(w, Run(tools, w, ops))
    decreases ops
  {
    if ops != [] {
      StepExtends(tools, w, ops[0]);
      StepKeeps(tools, w, ops[0]);
      NothingIsUndone(tools, Next(tools, w, ops[0]), ops[1..]);
    }
  }

  /** A well-formed update of a stored rule is refused exactly when the merged rule would retain
      payloads without dropping; of an unknown rule always. */
  lemma {:induction false} UpdateRefusedExactly(tools: Tools, w: World, actor: string, id: string, p: Patch)
    requires Inv(tools, w) && PatchOk(tools, p)
    ensures Find(w.rules, id).None? <==> !Names.Taken(w.rules, id)
    ensures Step(tools, w, UpdateRule(actor, id, p)).Refused? <==>
              Find(w.rules, id).None?
              || (var row := Find(w.rules, id).value;
                  Default(p.retainPayload, row.retainPayload) && Default(p.action, row.action) == FORWARD)
  {
    FindTaken(w.rules, id);
  }

  lemma {:induction false} LoadedFits(tools: Tools, w: World)
    requires Inv(tools, w)
    ensures Compiler.CompileText(LoadChain(w), |w.bundles| + 1).Ok? <==>
              Limits.IntFits(|w.bundles| + 1) && forall r :: r in w.rules && r.enabled ==> Limits.RuleFits(r)
  {
    SortSorts(w.rules);
    assert forall r :: r in Sort(w.rules) <==> r in multiset(Sort(w.rules));
    assert forall r :: r in w.rules <==> r in multiset(w.rules);
    Limits.ChainFits(LoadChain(w), |w.bundles| + 1, tools.validCidr);
  }

  /** A publish is refused exactly when the gate says no, or an enabled rule or the version is outside
      the encoder's limits; nothing else the stored rules can hold is refused. */
  lemma {:induction false} PublishRefusedExactly(tools: Tools, w: World, op: Op)
    requires Inv(tools, w) && op.Publish?
    ensures Step(tools, w, op).Refused? <==>
              || op.gate == Failed || (op.gate == Skipped && op.requireVector)
              || !Limits.IntFits(|w.bundles| + 1)
              || exists r :: r in w.rules && r.enabled && !Limits.RuleFits(r)
  {
    NextIsCount(w.bundles);
    LoadedFits(tools, w);
    PublishRefusal(tools, w, op);
  }

  lemma {:induction false} PublishRefusal(tools: Tools, w: World, op: Op)
    requires op.Publish?
    ensures Step(tools, w, op).Refused? <==>
              || op.gate == Failed || (op.gate == Skipped && op.requireVector)
              || Compiler.CompileText(LoadChain(w), NextVersion(w.bundles)).Refused?
  {
  }

  // ---------------------------------------------------------------- bundles over runs

  /** A publish in world `w` built this row from the rules stored there, and its gate passed or was let
      through as skipped because the publish did not insist on it. */
  ghost predicate BuiltFrom(tools: Tools, w: World, op: Op, row: BundleRow) {
    && op.Publish? && (op.gate == Passed || (op.gate == Skipped && !op.requireVector))
    && var built := BuildBundle(tools, LoadChain(w), |w.bundles| + 1, op.actor, op.note);
       built.Ok? && SameBundle(built.value, row)
  }

  lemma {:induction false} PublishBuilds(tools: Tools, w: World, op: Op)
    requires Inv(tools, w) && |Next(tools, w, op).bundles| > |w.bundles|
    ensures op.Publish? && (op.gate == Passed || (op.gate == Skipped && !op.requireVector))
    ensures var built := BuildBundle(tools, LoadChain(w), |w.bundles| + 1, op.actor, op.note);
            && built.Ok?
            && |Next(tools, w, op).bundles| == |w.bundles| + 1
            && Next(tools, w, op).bundles[|w.bundles|] == built.value
  {
    NextIsCount(w.bundles);
  }

  lemma {:induction false} BuiltLast(tools: Tools, w: World, op: Op)
    requires Inv(tools, w) && |Next(tools, w, op).bundles| > |w.bundles|
    ensures |Next(tools, w, op).bundles| == |w.bundles| + 1
    ensures BuiltFrom(tools, w, op, Next(tools, w, op).bundles[|w.bundles|])
  {
    PublishBuilds(tools, w, op);
  }

  lemma {:induction false} BuiltSame(tools: Tools, w: World, op: Op, a: BundleRow, b: BundleRow)
    requires BuiltFrom(tools, w, op, a) && SameBundle(a, b)
    ensures BuiltFrom(tools, w, op, b)
  {
  }

  ghost predicate PublishedAt(tools: Tools, w: World, ops: seq<Op>, k: nat, row: BundleRow) {
    k < |ops| && BuiltFrom(tools, Run(tools, w, ops[..k]), ops[k], row)
  }

  lemma {:induction false} PublishedAtLonger(tools: Tools, w: World, ops: seq<Op>, op: Op, k: nat, a: BundleRow,
                                             b: BundleRow)
    requires PublishedAt(tools, w, ops, k, a) && SameBundle(a, b)
    ensures PublishedAt(tools, w, ops + [op], k, b)
  {
    assert (ops + [op])[..k] == ops[..k] && (ops + [op])[k] == ops[k];
    BuiltSame(tools, Run(tools, w, ops[..k]), ops[k], a, b);
  }

  lemma {:induction false} PublishedAtLast(tools: Tools, w: World, ops: seq<Op>, op: Op, row: BundleRow)
    requires BuiltFrom(tools, Run(tools, w, ops), op, row)
    ensures PublishedAt(tools, w, ops + [op], |ops|, row)
  {
    assert (ops + [op])[..|ops|] == ops;
  }

  lemma {:induction false} RunSnoc(tools: Tools, w: World, ops: seq<Op>, op: Op)
    ensures Run(tools, w, ops + [op]) == Next(tools, Run(tools, w, ops), op)
  {
    RunAppend(tools, w, ops, [op]);
    var r := Run(tools, w, ops);
    assert [op][1..] == [];
    assert Run(tools, r, [op]) == Run(tools, Next(tools, r, op), []);
  }

  lemma {:induction false} SplitLast(ops: seq<Op>)
    requires ops != []
    ensures ops == ops[..|ops| - 1] + [ops[|ops| - 1]]
  {
  }

  /** Every stored bundle was built and let through by a publish of the run. */
  lemma {:induction false} EveryBundlePassed(tools: Tools, w: World, ops: seq<Op>, i: nat) returns (k: nat)
    requires Inv(tools, w) && w.bundles == [] && i < |Run(tools, w, ops).bundles|
    ensures PublishedAt(tools, w, ops, k, Run(tools, w, ops).bundles[i])
    decreases |ops|, 0
  {
    var n := |ops| - 1;
    var front, op := ops[..n], ops[n];
    var before := Run(tools, w, front);
    SplitLast(ops);
    RunSnoc(tools, w, front, op);
    RunKeeps(tools, w, front);
    if i < |before.bundles| {
      RowStays(tools, before, op, i);
    } else {
      NewRow(tools, before, op, i);
    }
    k := OriginStep(tools, w, front, op, before.bundles, Run(tools, w, ops).bundles[i], i);
  }

  lemma {:induction false} RowStays(tools: Tools, w: World, op: Op, i: nat)
    requires i < |w.bundles|
    ensures i < |Next(tools, w, op).bundles| && SameBundle(w.bundles[i], Next(tools, w, op).bundles[i])
  {
    BundlesStay(tools, w, op);
  }

  lemma {:induction false} NewRow(tools: Tools, w: World, op: Op, i: nat)
    requires Inv(tools, w) && |w.bundles| <= i < |Next(tools, w, op).bundles|
    ensures BuiltFrom(tools, w, op, Next(tools, w, op).bundles[i])
  {
    BuiltLast(tools, w, op);
    assert i == |w.bundles|;
  }

  lemma {:induction false} OriginStep(tools: Tools, w: World, front: seq<Op>, op: Op, rows: seq<BundleRow>,
                                      row: BundleRow, i: nat) returns (k: nat)
    requires Inv(tools, w) && w.bundles == [] && rows == Run(tools, w, front).bundles
    requires if i < |rows| then SameBundle(rows[i], row) else BuiltFrom(tools, Run(tools, w, front), op, row)
    ensures PublishedAt(tools, w, front + [op], k, row)
    decreases |front|, 1
  {
    if i < |rows| {
      k := EveryBundlePassed(tools, w, front, i);
      PublishedAtLonger(tools, w, front, op, k, rows[i], row);
    } else {
      k := |front|;
      PublishedAtLast(tools, w, front, op, row);
    }
  }

  /** Over any run the versions are exactly 1 to n, and exactly one bundle is active once there is one. */
  lemma {:induction false} VersionsAndOneActive(tools: Tools, ops: seq<Op>)
    ensures var bundles := Run(tools, EMPTY, ops).bundles;
            && (forall i :: 0 <= i < |bundles| ==> bundles[i].manifest.version == i + 1)
            && (bundles != [] ==> exists k :: IsOnlyActive(bundles, k))
  {
    EmptyOk(tools);
    RunKeeps(tools, EMPTY, ops);
  }

  lemma {:induction false} RollbackGives(tools: Tools, w: World, actor: string, v: int)
    requires Inv(tools, w) && 1 <= v <= |w.bundles|
    ensures ActiveRow(Next(tools, w, Rollback(actor, v)).bundles) == Some(w.bundles[v - 1].(active := true))
  {
    FindBundleAt(w.bundles, 1, v);
    RolledBackRows(w.bundles, v);
  }

  lemma {:induction false} PublishedStays(tools: Tools, w: World, publish: Op, between: seq<Op>)
    requires Inv(tools, w) && publish.Publish? && Step(tools, w, publish).Ok?
    ensures var v, later := |w.bundles| + 1, Run(tools, Next(tools, w, publish), between);
            && Inv(tools, later) && |later.bundles| >= v
            && ConfigOf(tools, LoadChain(w), v) == Ok(later.bundles[v - 1].config)
            && later.bundles[v - 1].manifest.version == v
  {
    var first := Next(tools, w, publish);
    StepKeeps(tools, w, publish);
    PublishedRow(tools, w, publish);
    BundleStays(tools, first, between, |w.bundles|);
  }

  lemma {:induction false} PublishedRow(tools: Tools, w: World, publish: Op)
    requires Inv(tools, w) && publish.Publish? && Step(tools, w, publish).Ok?
    ensures var rows, v := Next(tools, w, publish).bundles, |w.bundles| + 1;
            && |rows| == v && rows[v - 1].manifest.version == v
            && ConfigOf(tools, LoadChain(w), v) == Ok(rows[v - 1].config)
  {
    NextIsCount(w.bundles);
    PublishBuilds(tools, w, publish);
  }

  lemma {:induction false} BundleStays(tools: Tools, w: World, ops: seq<Op>, i: nat)
    requires Inv(tools, w) && i < |w.bundles|
    ensures var later := Run(tools, w, ops);
            Inv(tools, later) && i < |later.bundles| && SameBundle(w.bundles[i], later.bundles[i])
  {
    NothingIsUndone(tools, w, ops);
    RunKeeps(tools, w, ops);
  }

  /** Rolling back makes active the very bytes that the publish of that version built, whatever calls,
      rule edits included, came in between. */
  lemma {:induction false} RollbackRestores(tools: Tools, w: World, publish: Op, between: seq<Op>, actor: string)
    returns (row: BundleRow)
    requires Inv(tools, w) && publish.Publish? && Step(tools, w, publish).Ok?
    ensures var later := Run(tools, Next(tools, w, publish), between);
            ActiveRow(Next(tools, later, Rollback(actor, |w.bundles| + 1)).bundles) == Some(row)
    ensures ConfigOf(tools, LoadChain(w), |w.bundles| + 1) == Ok(row.config) && row.manifest.version == |w.bundles| + 1
  {
    var later := Run(tools, Next(tools, w, publish), between);
    PublishedStays(tools, w, publish, between);
    RollbackGives(tools, later, actor, |w.bundles| + 1);
    row := later.bundles[|w.bundles|].(active := true);
  }

  lemma {:induction false} LoadedUnique(tools: Tools, w: World)
    requires Inv(tools, w)
    ensures UniqueIds(LoadChain(w).rules)
  {
    SortSorts(w.rules);
    SortedIdsUnique(w.rules, Sort(w.rules));
  }

  /** A row's text was rendered from a program compiled for its own version from a unique-id chain, and
      its manifest is about that text and that chain. */
  ghost predicate IsCompiled(tools: Tools, row: BundleRow, chain: Chain, version: int) {
    && UniqueIds(chain.rules) && Compiler.CompileText(chain, version).Ok?
    && row.config == tools.render(Compiler.CompileText(chain, version).value)
    && row.manifest.version == version && row.manifest.checksum == tools.checksum(row.config)
    && |row.manifest.ruleIds| == |Active(chain)|
    && (forall k :: 0 <= k < |Active(chain)| ==> row.manifest.ruleIds[k] == Active(chain)[k].id)
    && row.manifest.defaultAction == chain.defaultAction && row.manifest.shadowMode == chain.shadowMode
  }

  /** Every bundle of a run is the compiled form of a chain, and its manifest describes it. */
  lemma {:induction false} RowCompiled(tools: Tools, ops: seq<Op>, i: nat) returns (chain: Chain)
    requires i < |Run(tools, EMPTY, ops).bundles|
    ensures IsCompiled(tools, Run(tools, EMPTY, ops).bundles[i], chain, i + 1)
  {
    EmptyOk(tools);
    var k := EveryBundlePassed(tools, EMPTY, ops, i);
    var w := Run(tools, EMPTY, ops[..k]);
    RunKeeps(tools, EMPTY, ops[..k]);
    RunKeeps(tools, EMPTY, ops);
    LoadedUnique(tools, w);
    chain := LoadChain(w);
    BuiltCompiled(tools, w, ops[k], Run(tools, EMPTY, ops).bundles[i]);
  }

  lemma {:induction false} BuiltCompiled(tools: Tools, w: World, op: Op, row: BundleRow)
    requires BuiltFrom(tools, w, op, row) && UniqueIds(LoadChain(w).rules)
    ensures IsCompiled(tools, row, LoadChain(w), |w.bundles| + 1)
  {
  }

  /** Rendering is injective: what was rendered can be told from the result. */
  ghost predicate RenderTells(tools: Tools) { forall a :: OnlyFrom(tools, a) }

  ghost predicate OnlyFrom(tools: Tools, a: string) { forall b :: tools.render(a) == tools.render(b) ==> a == b }

  lemma {:induction false} RenderApart(tools: Tools, a: string, b: string)
    requires RenderTells(tools) && a != b
    ensures tools.render(a) != tools.render(b)
  {
    assert OnlyFrom(tools, a);
  }

  /** No two bundles of a run hold the same bytes: the version is part of the program. */
  lemma {:induction false} BundlesDiffer(tools: Tools, ops: seq<Op>, i: nat, j: nat)
    requires RenderTells(tools)
    requires i < j < |Run(tools, EMPTY, ops).bundles|
    ensures Run(tools, EMPTY, ops).bundles[i].config != Run(tools, EMPTY, ops).bundles[j].config
  {
    var s := TextOfRow(tools, ops, i);
    var t := TextOfRow(tools, ops, j);
    TextsDiffer(s, t, i + 1, j + 1);
    RenderApart(tools, s, t);
  }

  /** A text compiled for that version. */
  ghost predicate IsTextFor(text: string, version: int) {
    exists chain: Chain :: UniqueIds(chain.rules) && Compiler.CompileText(chain, version) == Ok(text)
  }

  lemma {:induction false} TextOfRow(tools: Tools, ops: seq<Op>, i: nat) returns (text: string)
    requires i < |Run(tools, EMPTY, ops).bundles|
    ensures IsTextFor(text, i + 1) && Run(tools, EMPTY, ops).bundles[i].config == tools.render(text)
  {
    var chain := RowCompiled(tools, ops, i);
    text := Compiler.CompileText(chain, i + 1).value;
  }

  lemma {:induction false} TextsDiffer(s: string, t: string, v: int, w: int)
    requires IsTextFor(s, v) && IsTextFor(t, w) && v != w
    ensures s != t
  {
    var a: Chain :| UniqueIds(a.rules) && Compiler.CompileText(a, v) == Ok(s);
    var b: Chain :| UniqueIds(b.rules) && Compiler.CompileText(b, w) == Ok(t);
    Consequences.VersionInText(a, b, v, w);
  }
}
