/** What each service call does to the tables, row by row and field by field, in any world of the
    invariant; and what it refuses. None of it mentions the functions that carry the calls out. */
module Effects {
  import opened Common
  import opened Rules
  import opened Store
  import opened History
  import Compiler
  import Consequences
  import Names

  // ---------------------------------------------------------------- rows

  /** Row `i` alone may differ. */
  predicate OneRow(before: seq<Rule>, after: seq<Rule>, i: nat) {
    i < |before| && |after| == |before| && forall j :: 0 <= j < |before| && j != i ==> after[j] == before[j]
  }

  lemma {:induction false} OneRowPut(rules: seq<Rule>, id: string, r: Rule) returns (i: nat)
    requires UniqueIds(rules) && Find(rules, id).Some? && r.id == id
    ensures OneRow(rules, Put(rules, r), i) && rules[i].id == id
    ensures Find(rules, id) == Some(rules[i]) && Put(rules, r)[i] == r
  {
    FindTaken(rules, id);
    i :| 0 <= i < |rules| && rules[i].id == id;
    FindRow(rules, i);
  }

  /** The settings row, or what it says before it is first asked for. */
  function StoredSettings(w: World): Settings {
    match w.settings
    case Some(s) => s
    case None => Settings(FORWARD, false)
  }

  /** The rules as stored, in table order, under the stored settings. */
  function StoredChain(w: World): Chain {
    Chain(w.rules, StoredSettings(w).defaultAction, StoredSettings(w).shadowMode)
  }

  // ---------------------------------------------------------------- rules

  /** A new rule goes to the end of the table as it was asked for, under an id no rule had. */
  lemma {:induction false} CreateSets(tools: Tools, w: World, op: Op) returns (r: Rule)
    requires op.CreateRule? && Step(tools, w, op).Ok?
    ensures var more := Next(tools, w, op);
            && more.rules == w.rules + [r] && AsAsked(op.rule, r) && r.id == Names.FreshId(w.rules, op.rule.name)
            && (forall q :: q in w.rules ==> q.id != r.id)
            && more.settings == w.settings && more.bundles == w.bundles
            && more.audit == w.audit + [AuditRow(op.actor, RuleCreated(r))]
  {
    r := Created(Names.FreshId(w.rules, op.rule.name), op.rule);
    assert !Names.Taken(w.rules, r.id);
  }

  /** An update changes one row: every field that was sent has the value sent, the others are as
      before, and the version is one higher. */
  lemma {:induction false} UpdateSets(tools: Tools, w: World, op: Op) returns (i: nat)
    requires Inv(tools, w) && op.UpdateRule? && Step(tools, w, op).Ok?
    ensures var more := Next(tools, w, op);
            && OneRow(w.rules, more.rules, i) && w.rules[i].id == op.id
            && Merges(w.rules[i], op.patch, more.rules[i])
            && more.settings == w.settings && more.bundles == w.bundles
            && more.audit == w.audit + [AuditRow(op.actor, RuleUpdated(w.rules[i], more.rules[i]))]
  {
    var r := Patched(Find(w.rules, op.id).value, op.patch);
    PatchedMerges(Find(w.rules, op.id).value, op.patch);
    i := OneRowPut(w.rules, op.id, r);
  }

  /** Disabling changes one row: it is switched off, its version one higher, everything else as before. */
  lemma {:induction false} DisableSets(tools: Tools, w: World, op: Op) returns (i: nat)
    requires Inv(tools, w) && op.DisableRule? && Step(tools, w, op).Ok?
    ensures var more := Next(tools, w, op);
            && OneRow(w.rules, more.rules, i) && w.rules[i].id == op.id
            && SwitchesOff(w.rules[i], more.rules[i])
            && more.settings == w.settings && more.bundles == w.bundles
            && more.audit == w.audit + [AuditRow(op.actor, RuleDisabled(w.rules[i], more.rules[i]))]
  {
    i := OneRowPut(w.rules, op.id, Disabled(Find(w.rules, op.id).value));
  }

  /** So a disabled rule is in no chain that is built from the tables after it. */
  lemma {:induction false} DisabledIsInactive(tools: Tools, w: World, op: Op)
    requires Inv(tools, w) && op.DisableRule? && Step(tools, w, op).Ok?
    ensures forall r :: r in Active(StoredChain(Next(tools, w, op))) ==> r.id != op.id
    ensures forall r :: r in Active(LoadChain(Next(tools, w, op))) ==> r.id != op.id
  {
    var more := Next(tools, w, op);
    var i := DisableSets(tools, w, op);
    StepKeeps(tools, w, op);
    ChainLoads(tools, more);
    ActiveUnique(StoredChain(more));
    forall r | r in more.rules && r.id == op.id ensures !r.enabled {
      SameIdSameRule(more.rules, r, more.rules[i]);
    }
  }

  // ---------------------------------------------------------------- settings

  /** Settings that were sent are stored, the other is as it was; nothing else changes. */
  lemma {:induction false} SettingsSet(tools: Tools, w: World, op: Op)
    requires op.SetSettings?
    ensures Step(tools, w, op).Ok?
    ensures var more := Next(tools, w, op);
            && more.settings.Some? && more.rules == w.rules && more.bundles == w.bundles
            && Becomes(op.defaultAction, StoredSettings(w).defaultAction, more.settings.value.defaultAction)
            && Becomes(op.shadowMode, StoredSettings(w).shadowMode, more.settings.value.shadowMode)
            && more.audit == w.audit + [AuditRow(op.actor, SettingsChanged(StoredSettings(w), more.settings.value))]
  {
  }

  // ---------------------------------------------------------------- bundles

  lemma {:induction false} ChainLoads(tools: Tools, w: World)
    requires Inv(tools, w)
    ensures LoadChain(w).defaultAction == StoredSettings(w).defaultAction
    ensures LoadChain(w).shadowMode == StoredSettings(w).shadowMode
    ensures Active(LoadChain(w)) == Active(StoredChain(w))
    ensures forall v :: Compiler.CompileText(LoadChain(w), v) == Compiler.CompileText(StoredChain(w), v)
  {
    EnabledPermuted(w.rules, LoadChain(w).rules) by { SortSorts(w.rules); }
    ActiveCanonical(StoredChain(w), LoadChain(w));
    forall v ensures Compiler.CompileText(LoadChain(w), v) == Compiler.CompileText(StoredChain(w), v) {
      Consequences.CanonicalText(StoredChain(w), LoadChain(w), v);
    }
  }

  lemma {:induction false} EnabledCount(rules: seq<Rule>, r: Rule)
    ensures multiset(Enabled(rules))[r] == if r.enabled then multiset(rules)[r] else 0
  {
    if rules != [] {
      EnabledCount(rules[1..], r);
      assert rules == [rules[0]] + rules[1..];
    }
  }

  lemma {:induction false} EnabledPermuted(a: seq<Rule>, b: seq<Rule>)
    requires multiset(a) == multiset(b)
    ensures multiset(Enabled(a)) == multiset(Enabled(b))
  {
    forall r ensures multiset(Enabled(a))[r] == multiset(Enabled(b))[r] {
      EnabledCount(a, r);
      EnabledCount(b, r);
    }
  }

  /** A bundle of version `v` as `w` has it published: the compiled form of the stored rules under the
      stored settings, and a manifest that says so. */
  ghost predicate Describes(tools: Tools, w: World, op: Op, v: int, m: Manifest, config: string)
    requires op.Publish?
  {
    var text, active := Compiler.CompileText(StoredChain(w), v), Active(StoredChain(w));
    && text.Ok? && config == tools.render(text.value)
    && m.version == v && m.checksum == tools.checksum(config)
    && m.defaultAction == StoredSettings(w).defaultAction && m.shadowMode == StoredSettings(w).shadowMode
    && m.createdBy == op.actor && m.note == op.note
    && |m.ruleIds| == |active| && forall k :: 0 <= k < |active| ==> m.ruleIds[k] == active[k].id
  }

  lemma {:induction false} BuiltDescribes(tools: Tools, w: World, op: Op, row: BundleRow)
    requires Inv(tools, w) && BuiltFrom(tools, w, op, row)
    ensures Describes(tools, w, op, |w.bundles| + 1, row.manifest, row.config)
  {
    ChainLoads(tools, w);
    assert Compiler.CompileText(LoadChain(w), |w.bundles| + 1).Ok?;
  }

  lemma {:induction false} PublishTables(tools: Tools, w: World, op: Op)
    requires op.Publish? && Step(tools, w, op).Ok?
    ensures var more, n := Next(tools, w, op), |w.bundles|;
            && more.rules == w.rules && more.settings == Some(StoredSettings(w)) && |more.bundles| == n + 1
            && (forall i :: 0 <= i < n ==> more.bundles[i] == w.bundles[i].(active := false))
            && more.bundles[n].active
            && more.audit == w.audit + [AuditRow(op.actor, Published(more.bundles[n].manifest, op.gate == Skipped))]
  {
  }

  /** A publish appends one row for the stored rules under the stored settings, which alone is active;
      rules and earlier bundles stay, and the settings row is there afterwards. */
  lemma {:induction false} PublishSets(tools: Tools, w: World, op: Op)
    requires Inv(tools, w) && op.Publish? && Step(tools, w, op).Ok?
    ensures var more, n := Next(tools, w, op), |w.bundles|;
            && more.rules == w.rules && more.settings == Some(StoredSettings(w)) && |more.bundles| == n + 1
            && (forall i :: 0 <= i < n ==> more.bundles[i] == w.bundles[i].(active := false))
            && more.bundles[n].active
            && Describes(tools, w, op, n + 1, more.bundles[n].manifest, more.bundles[n].config)
            && more.audit == w.audit + [AuditRow(op.actor, Published(more.bundles[n].manifest, op.gate == Skipped))]
  {
    PublishTables(tools, w, op);
    BuiltLast(tools, w, op);
    BuiltDescribes(tools, w, op, Next(tools, w, op).bundles[|w.bundles|]);
  }

  /** A rollback to a version that exists moves the active flag there and changes nothing else; to any
      other version it is refused. */
  lemma {:induction false} RollbackSets(tools: Tools, w: World, op: Op)
    requires Inv(tools, w) && op.Rollback?
    ensures Step(tools, w, op).Ok? <==> 1 <= op.version <= |w.bundles|
    ensures Step(tools, w, op).Refused? ==> Step(tools, w, op).error == NoSuchVersion
    ensures Step(tools, w, op).Ok? ==>
              var more := Next(tools, w, op);
              && more.rules == w.rules && more.settings == w.settings && |more.bundles| == |w.bundles|
              && (forall i :: 0 <= i < |w.bundles| ==>
                    more.bundles[i] == w.bundles[i].(active := i + 1 == op.version))
              && (forall k :: IsOnlyActive(w.bundles, k) ==>
                    more.audit == w.audit + [AuditRow(op.actor, RolledBack(Some(k + 1), op.version))])
  {
    FindBundleAt(w.bundles, 1, op.version);
    forall k | IsOnlyActive(w.bundles, k) ensures ActiveVersion(w.bundles) == Some(k + 1) { ActiveIs(w.bundles, k); }
  }

  /** Every bundle of a run is what some publish made of the rules and settings stored at that moment. */
  lemma {:induction false} EveryBundleDescribed(tools: Tools, ops: seq<Op>, i: nat) returns (k: nat)
    requires i < |Run(tools, EMPTY, ops).bundles|
    ensures k < |ops| && ops[k].Publish?
    ensures var row := Run(tools, EMPTY, ops).bundles[i];
            Describes(tools, Run(tools, EMPTY, ops[..k]), ops[k], i + 1, row.manifest, row.config)
  {
    EmptyOk(tools);
    k := EveryBundlePassed(tools, EMPTY, ops, i);
    RunKeeps(tools, EMPTY, ops[..k]);
    RunKeeps(tools, EMPTY, ops);
    BuiltDescribes(tools, Run(tools, EMPTY, ops[..k]), ops[k], Run(tools, EMPTY, ops).bundles[i]);
  }

  // ---------------------------------------------------------------- refusals

  /** A new rule is refused exactly when its name or its conditions break the rule model, or it would
      retain payloads without dropping. */
  lemma {:induction false} CreateRefusedExactly(tools: Tools, w: World, op: Op)
    requires op.CreateRule? && |w.rules| + 1 < Names.SUFFIX_LIMIT
    ensures Step(tools, w, op).Refused? <==>
              || |op.rule.name| == 0 || |op.rule.name| > 200
              || |op.rule.conditions| == 0 || |op.rule.conditions| > 64
              || (exists i :: 0 <= i < |op.rule.conditions| && !ConditionOk(op.rule.conditions[i], tools.validCidr))
              || (op.rule.retainPayload && op.rule.action == FORWARD)
    ensures Step(tools, w, op).Refused? ==> Step(tools, w, op).error == InvalidRule
  {
    Names.FreshIdIsFree(w.rules, op.rule.name);
  }

  /** Why an update or a disabling is refused. A disabling of a stored rule never is. */
  lemma {:induction false} RuleRefusals(tools: Tools, w: World, op: Op)
    requires op.UpdateRule? || op.DisableRule?
    ensures (forall r :: r in w.rules ==> r.id != op.id) <==> Step(tools, w, op) == Refused(NoSuchRule)
    ensures Step(tools, w, op).Refused? && (exists r :: r in w.rules && r.id == op.id) ==>
              op.UpdateRule? && Step(tools, w, op).error == InvalidRule
  {
    FindTaken(w.rules, op.id);
    assert Names.Taken(w.rules, op.id) <==> exists r :: r in w.rules && r.id == op.id;
  }
}
