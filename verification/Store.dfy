/**
 The rule store and the bundle store as one database: four tables, and the service calls that change
 them. Each call is one transaction; it either does everything, audit row included, or nothing.
 */
module Store {
  import opened Common
  import opened Rules
  import Compiler
  import Names

  // ---------------------------------------------------------------- rows

  datatype Settings = Settings(defaultAction: Action, shadowMode: bool)

  datatype Manifest = Manifest(
    version: int, checksum: string, createdBy: string, ruleIds: seq<string>,
    defaultAction: Action, shadowMode: bool, note: string)

  datatype BundleRow = BundleRow(manifest: Manifest, config: string, active: bool)

  /** What an audit row says: the action, and the before and after it carries. */
  datatype Change =
    | RuleCreated(after: Rule)
    | RuleUpdated(before: Rule, after: Rule)
    | RuleDisabled(before: Rule, after: Rule)
    | SettingsChanged(old_: Settings, new_: Settings)
    | Published(manifest: Manifest, skipped: bool)
    | RolledBack(previous: Option<int>, target: int)

  datatype AuditRow = AuditRow(actor: string, change: Change)

  /** `settings` is the row with id 1, which is made when it is first asked for. */
  datatype World = World(
    rules: seq<Rule>, settings: Option<Settings>, bundles: seq<BundleRow>, audit: seq<AuditRow>)

  const EMPTY := World([], None, [], [])

  // ---------------------------------------------------------------- requests

  datatype NewRule = NewRule(
    name: string, description: string, enabled: bool, order: nat, action: Action,
    conditions: seq<Condition>, output: string, retainPayload: bool, shadow: bool)

  datatype Patch = Patch(
    name: Option<string>, description: Option<string>, enabled: Option<bool>, order: Option<nat>,
    action: Option<Action>, conditions: Option<seq<Condition>>, output: Option<string>,
    retainPayload: Option<bool>, shadow: Option<bool>)

  /** What the validation of a built configuration said. */
  datatype Gate = Passed | Failed | Skipped

  /** Everything outside the database: address syntax, TOML rendering, SHA-256. */
  datatype Tools = Tools(
    validCidr: string -> bool,
    render: string -> string,
    checksum: string -> string)

  datatype Op =
    | CreateRule(actor: string, rule: NewRule)
    | UpdateRule(actor: string, id: string, patch: Patch)
    | DisableRule(actor: string, id: string)
    | SetSettings(actor: string, defaultAction: Option<Action>, shadowMode: Option<bool>)
    | Publish(actor: string, note: string, requireVector: bool, gate: Gate)
    | Rollback(actor: string, version: int)

  // ---------------------------------------------------------------- validation

  predicate NameOk(name: string) { 1 <= |name| <= 200 }

  /** The rule model's own checks, run on every row that is read back. */
  predicate RuleOk(tools: Tools, r: Rule) {
    && Names.IsRuleId(r.id) && NameOk(r.name) && ConditionsOk(r.conditions, tools.validCidr)
    && (r.retainPayload ==> r.action == DROP)
  }

  predicate NewRuleOk(tools: Tools, n: NewRule) {
    NameOk(n.name) && ConditionsOk(n.conditions, tools.validCidr) && (n.retainPayload ==> n.action == DROP)
  }

  predicate PatchOk(tools: Tools, p: Patch) {
    && (p.name.Some? ==> NameOk(p.name.value))
    && (p.conditions.Some? ==> ConditionsOk(p.conditions.value, tools.validCidr))
  }

  // ---------------------------------------------------------------- tables

  function Find(rules: seq<Rule>, id: string): (r: Option<Rule>)
    ensures r.Some? ==> r.value in rules && r.value.id == id
  {
    if rules == [] then None
    else if rules[0].id == id then Some(rules[0])
    else Find(rules[1..], id)
  }

  /** The table with the row of that id replaced. */
  function Put(rules: seq<Rule>, r: Rule): (s: seq<Rule>)
    ensures |s| == |rules|
  {
    seq(|rules|, i requires 0 <= i < |rules| => if rules[i].id == r.id then r else rules[i])
  }

  function SettingsOf(w: World): Settings { Default(w.settings, Settings(FORWARD, false)) }

  /** The stored chain, in evaluation order. */
  function LoadChain(w: World): Chain {
    Chain(Sort(w.rules), SettingsOf(w).defaultAction, SettingsOf(w).shadowMode)
  }

  /** One past the highest version stored. */
  function NextVersion(bundles: seq<BundleRow>): int {
    if bundles == [] then 1
    else
      var rest := NextVersion(bundles[..|bundles| - 1]);
      var v := bundles[|bundles| - 1].manifest.version;
      if v + 1 > rest then v + 1 else rest
  }

  /** Every row's flag set to whether it has this version. */
  function Activate(bundles: seq<BundleRow>, version: Option<int>): (r: seq<BundleRow>)
    ensures |r| == |bundles|
  {
    seq(|bundles|, i requires 0 <= i < |bundles| =>
      bundles[i].(active := version == Some(bundles[i].manifest.version)))
  }

  function FindBundle(bundles: seq<BundleRow>, version: int): (r: Option<BundleRow>)
    ensures r.Some? ==> r.value in bundles && r.value.manifest.version == version
  {
    if bundles == [] then None
    else if bundles[0].manifest.version == version then Some(bundles[0])
    else FindBundle(bundles[1..], version)
  }

  function ActiveRow(bundles: seq<BundleRow>): (r: Option<BundleRow>)
    ensures r.Some? ==> r.value in bundles && r.value.active
  {
    if bundles == [] then None
    else if bundles[0].active then Some(bundles[0])
    else ActiveRow(bundles[1..])
  }

  function ActiveVersion(bundles: seq<BundleRow>): Option<int> {
    var row := ActiveRow(bundles);
    if row.Some? then Some(row.value.manifest.version) else None
  }

  // ---------------------------------------------------------------- building values

  function Created(id: string, n: NewRule): Rule {
    Rule(id, n.name, n.description, n.enabled, n.order, n.action, n.conditions, n.output, n.retainPayload, n.shadow, 1)
  }

  /** Only the fields that were sent change; the version always goes up. */
  function Patched(r: Rule, p: Patch): Rule {
    Rule(r.id, Default(p.name, r.name), Default(p.description, r.description), Default(p.enabled, r.enabled), Default(p.order, r.order),
         Default(p.action, r.action), Default(p.conditions, r.conditions), Default(p.output, r.output),
         Default(p.retainPayload, r.retainPayload), Default(p.shadow, r.shadow), r.version + 1)
  }

  /** A field that was sent has the value sent, one that was not keeps what it had. */
  predicate Becomes<A(==)>(sent: Option<A>, before: A, after: A) {
    match sent
    case Some(x) => after == x
    case None => after == before
  }

  /** An update as its caller sees it. */
  predicate Merges(r: Rule, p: Patch, s: Rule) {
    && s.id == r.id && s.version == r.version + 1
    && Becomes(p.name, r.name, s.name) && Becomes(p.description, r.description, s.description)
    && Becomes(p.enabled, r.enabled, s.enabled) && Becomes(p.order, r.order, s.order)
    && Becomes(p.action, r.action, s.action) && Becomes(p.conditions, r.conditions, s.conditions)
    && Becomes(p.output, r.output, s.output) && Becomes(p.retainPayload, r.retainPayload, s.retainPayload)
    && Becomes(p.shadow, r.shadow, s.shadow)
  }

  /** The same rule switched off. */
  predicate SwitchesOff(r: Rule, s: Rule) {
    && !s.enabled && s.version == r.version + 1
    && s.id == r.id && s.name == r.name && s.description == r.description && s.order == r.order
    && s.action == r.action && s.conditions == r.conditions && s.output == r.output
    && s.retainPayload == r.retainPayload && s.shadow == r.shadow
  }

  /** A new rule has what its caller asked for, and version 1. */
  predicate AsAsked(n: NewRule, r: Rule) {
    && r.name == n.name && r.description == n.description && r.enabled == n.enabled && r.order == n.order
    && r.action == n.action && r.conditions == n.conditions && r.output == n.output
    && r.retainPayload == n.retainPayload && r.shadow == n.shadow && r.version == 1
  }

  /** Row by row the table is what it was, except that `r` stands wherever its id stood. */
  predicate OnlyRow(before: seq<Rule>, after: seq<Rule>, r: Rule) {
    && |after| == |before|
    && forall i :: 0 <= i < |before| ==> after[i] == if before[i].id == r.id then r else before[i]
  }

  lemma {:induction false} PatchedMerges(r: Rule, p: Patch)
    ensures Merges(r, p, Patched(r, p))
  {
  }

  lemma {:induction false} PutOnly(rules: seq<Rule>, r: Rule)
    ensures OnlyRow(rules, Put(rules, r), r)
  {
  }

  function Disabled(r: Rule): Rule { r.(enabled := false, version := r.version + 1) }

  function Ids(rules: seq<Rule>): seq<string> { seq(|rules|, i requires 0 <= i < |rules| => rules[i].id) }

  function ConfigOf(tools: Tools, chain: Chain, version: int): Result<string> {
    var program :- Compiler.CompileText(chain, version);
    Ok(tools.render(program))
  }

  function ManifestOf(tools: Tools, chain: Chain, version: int, config: string, actor: string, note: string): Manifest {
    Manifest(version, tools.checksum(config), actor, Ids(Active(chain)), chain.defaultAction, chain.shadowMode, note)
  }

  function BuildBundle(tools: Tools, chain: Chain, version: int, actor: string, note: string): Result<BundleRow> {
    var config :- ConfigOf(tools, chain, version);
    Ok(BundleRow(ManifestOf(tools, chain, version, config, actor, note), config, true))
  }

  function CheckGate(gate: Gate, requireVector: bool): Result<bool> {
    if gate == Skipped && requireVector then Refused(NoVector)
    else if gate == Failed then Refused(GateFailed)
    else Ok(gate == Skipped)
  }

  // ---------------------------------------------------------------- the service calls as steps

  function Log(w: World, actor: string, change: Change): World {
    w.(audit := w.audit + [AuditRow(actor, change)])
  }

  function Step(tools: Tools, w: World, op: Op): Result<World> {
    match op
    case CreateRule(actor, n) =>
      var id := Names.FreshId(w.rules, n.name);
      if !NewRuleOk(tools, n) || Names.Taken(w.rules, id) then Refused(InvalidRule)
      else Ok(Log(w.(rules := w.rules + [Created(id, n)]), actor, RuleCreated(Created(id, n))))
    case UpdateRule(actor, id, p) =>
      var row := Find(w.rules, id);
      if row.None? then Refused(NoSuchRule)
      else if !PatchOk(tools, p) || !RuleOk(tools, Patched(row.value, p)) then Refused(InvalidRule)
      else
        var r := Patched(row.value, p);
        Ok(Log(w.(rules := Put(w.rules, r)), actor, RuleUpdated(row.value, r)))
    case DisableRule(actor, id) =>
      var row := Find(w.rules, id);
      if row.None? then Refused(NoSuchRule)
      else
        var r := Disabled(row.value);
        Ok(Log(w.(rules := Put(w.rules, r)), actor, RuleDisabled(row.value, r)))
    case SetSettings(actor, defaultAction, shadowMode) =>
      var before := SettingsOf(w);
      var after := Settings(Default(defaultAction, before.defaultAction), Default(shadowMode, before.shadowMode));
      Ok(Log(w.(settings := Some(after)), actor, SettingsChanged(before, after)))
    case Publish(actor, note, requireVector, gate) =>
      var row :- BuildBundle(tools, LoadChain(w), NextVersion(w.bundles), actor, note);
      var skipped :- CheckGate(gate, requireVector);
      Ok(Log(w.(settings := Some(SettingsOf(w)), bundles := Activate(w.bundles, None) + [row]),
             actor, Published(row.manifest, skipped)))
    case Rollback(actor, version) =>
      if FindBundle(w.bundles, version).None? then Refused(NoSuchVersion)
      else Ok(Log(w.(bundles := Activate(w.bundles, Some(version))), actor,
                  RolledBack(ActiveVersion(w.bundles), version)))
  }

  /** A refused call rolls back and leaves the database as it was. */
  function Next(tools: Tools, w: World, op: Op): World {
    var r := Step(tools, w, op);
    if r.Ok? then r.value else w
  }

  function Run(tools: Tools, w: World, ops: seq<Op>): World
    decreases ops
  {
    if ops == [] then w else Run(tools, Next(tools, w, ops[0]), ops[1..])
  }

  // ---------------------------------------------------------------- the service as an object

  /** A database session: the four tables, changed in place by the service calls. */
  class Session {
    const tools: Tools
    var rules: seq<Rule>
    var settings: Option<Settings>
    var bundles: seq<BundleRow>
    var audit: seq<AuditRow>

    function State(): World
      reads this
    {
      World(rules, settings, bundles, audit)
    }

    constructor (tools: Tools)
      ensures this.tools == tools && State() == EMPTY
    {
      this.tools := tools;
      rules, settings, bundles, audit := [], None, [], [];
    }

    method WriteAudit(actor: string, change: Change)
      modifies `audit
      ensures audit == old(audit) + [AuditRow(actor, change)]
    {
      audit := audit + [AuditRow(actor, change)];
    }

    /** The settings row, inserted with the defaults when it is missing. */
    method GetSettings() returns (r: Settings)
      modifies `settings
      ensures r == SettingsOf(old(State())) && settings == Some(r)
      ensures r == if old(settings).Some? then old(settings).value else Settings(FORWARD, false)
    {
      if settings.None? { settings := Some(Settings(FORWARD, false)); }
      r := settings.value;
    }

    method CreateRule(actor: string, payload: NewRule) returns (r: Rule)
      requires NewRuleOk(tools, payload) && |rules| + 1 < Names.SUFFIX_LIMIT
      modifies this
      ensures Step(tools, old(State()), Op.CreateRule(actor, payload)) == Ok(State())
      ensures rules == old(rules) + [r] && RuleOk(tools, r) && AsAsked(payload, r)
      ensures audit == old(audit) + [AuditRow(actor, RuleCreated(r))]
    {
      var id, _ := Names.UniqueId(rules, payload.name);
      r := Rule(id, payload.name, payload.description, payload.enabled, payload.order, payload.action,
                payload.conditions, payload.output, payload.retainPayload, payload.shadow, 1);
      rules := rules + [r];
      WriteAudit(actor, RuleCreated(r));
    }

    /** The fields that were sent, one after the other. */
    method SetFields(before: Rule, payload: Patch) returns (row: Rule)
      ensures row.(version := row.version + 1) == Patched(before, payload)
    {
      row := before;
      row := row.(name := Default(payload.name, row.name));
      row := row.(description := Default(payload.description, row.description));
      row := row.(enabled := Default(payload.enabled, row.enabled));
      row := row.(order := Default(payload.order, row.order));
      row := row.(action := Default(payload.action, row.action));
      row := row.(conditions := Default(payload.conditions, row.conditions));
      row := row.(output := Default(payload.output, row.output));
      row := row.(retainPayload := Default(payload.retainPayload, row.retainPayload));
      row := row.(shadow := Default(payload.shadow, row.shadow));
    }

    /** The row's fields change one by one before the merged rule is checked; a failed check restores
        the row, version included. */
    method UpdateRule(actor: string, id: string, payload: Patch) returns (r: Result<Rule>)
      requires PatchOk(tools, payload)
      modifies this
      ensures Step(tools, old(State()), Op.UpdateRule(actor, id, payload)) ==
              if r.Ok? then Ok(State()) else Refused(r.error)
      ensures r.Refused? ==> State() == old(State())
      ensures r.Ok? ==>
                && old(Find(rules, id)).Some? && r.value.id == id
                && Merges(old(Find(rules, id)).value, payload, r.value) && OnlyRow(old(rules), rules, r.value)
                && audit == old(audit) + [AuditRow(actor, RuleUpdated(old(Find(rules, id)).value, r.value))]
    {
      var found := Find(rules, id);
      if found.None? { return Refused(NoSuchRule); }
      var before, saved := found.value, rules;
      var row := SetFields(before, payload);
      row := row.(version := row.version + 1);
      PatchedMerges(before, payload);
      rules := Put(rules, row);
      PutOnly(saved, row);
      if !RuleOk(tools, row) {
        rules := saved;
        return Refused(InvalidRule);
      }
      WriteAudit(actor, RuleUpdated(before, row));
      r := Ok(row);
    }

    method DisableRule(actor: string, id: string) returns (r: Result<Rule>)
      modifies this
      ensures Step(tools, old(State()), Op.DisableRule(actor, id)) ==
              if r.Ok? then Ok(State()) else Refused(r.error)
      ensures r.Refused? ==> State() == old(State())
      ensures r.Ok? ==>
                && old(Find(rules, id)).Some? && r.value.id == id
                && SwitchesOff(old(Find(rules, id)).value, r.value) && OnlyRow(old(rules), rules, r.value)
                && audit == old(audit) + [AuditRow(actor, RuleDisabled(old(Find(rules, id)).value, r.value))]
    {
      var found := Find(rules, id);
      if found.None? { return Refused(NoSuchRule); }
      var row := found.value.(enabled := false);
      row := row.(version := row.version + 1);
      rules := Put(rules, row);
      WriteAudit(actor, RuleDisabled(found.value, row));
      r := Ok(row);
    }

    method SetChainSettings(actor: string, defaultAction: Option<Action>, shadowMode: Option<bool>)
      modifies this
      ensures Step(tools, old(State()), SetSettings(actor, defaultAction, shadowMode)) == Ok(State())
      ensures settings.Some? && Becomes(defaultAction, SettingsOf(old(State())).defaultAction, settings.value.defaultAction)
      ensures Becomes(shadowMode, SettingsOf(old(State())).shadowMode, settings.value.shadowMode)
    {
      var before := GetSettings();
      var row := before;
      if defaultAction.Some? { row := row.(defaultAction := defaultAction.value); }
      if shadowMode.Some? { row := row.(shadowMode := shadowMode.value); }
      settings := Some(row);
      WriteAudit(actor, SettingsChanged(before, row));
    }

    /** `gate` is what validating the built configuration would answer. */
    method Publish(actor: string, note: string, requireVector: bool, gate: Gate) returns (r: Result<BundleRow>)
      modifies this
      ensures Step(tools, old(State()), Op.Publish(actor, note, requireVector, gate)) ==
              if r.Ok? then Ok(State()) else Refused(r.error)
      ensures r.Refused? ==> State() == old(State())
      ensures r.Ok? ==> bundles == Activate(old(bundles), None) + [r.value]
    {
      var saved := settings;
      var current := GetSettings();
      var chain := Chain(Sort(rules), current.defaultAction, current.shadowMode);
      var built := BuildBundle(tools, chain, NextVersion(bundles), actor, note);
      var skipped := CheckGate(gate, requireVector);
      if built.Refused? || skipped.Refused? {
        settings := saved;
        return Refused(if built.Refused? then built.error else skipped.error);
      }
      bundles := Activate(bundles, None);
      bundles := bundles + [built.value];
      WriteAudit(actor, Published(built.value.manifest, skipped.value));
      r := Ok(built.value);
    }

    method Rollback(actor: string, target: int) returns (r: Result<BundleRow>)
      modifies this
      ensures Step(tools, old(State()), Op.Rollback(actor, target)) ==
              if r.Ok? then Ok(State()) else Refused(r.error)
      ensures r.Refused? ==> State() == old(State())
      ensures r.Ok? ==> FindBundle(old(bundles), target).Some?
                        && r.value == FindBundle(old(bundles), target).value.(active := true)
    {
      var row := FindBundle(bundles, target);
      if row.None? { return Refused(NoSuchVersion); }
      var previous := ActiveVersion(bundles);
      bundles := Activate(bundles, Some(target));
      WriteAudit(actor, RolledBack(previous, target));
      r := Ok(row.value.(active := true));
    }
  }
}
