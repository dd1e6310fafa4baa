/**
 What a rule chain means, stated without reference to the compiled program: which fields an event
 has, when a condition holds, which rule decides, and what is recorded.
 */
module Meaning {
  import opened Common
  import opened Vrl
  import opened Rules
  import Decimals
  import Encoder
  import Globs

  // ---------------------------------------------------------------- values and fields

  function ScalarVal(v: Scalar): Val {
    match v
    case SStr(s) => Str(s)
    case SBool(b) => Bool(b)
    case SInt(i) => Int(i)
    case SFloat(f) => if f.Finite? then Float(Decimals.RealOf(f)) else Null
  }

  function ScalarVals(vs: seq<Scalar>): (r: seq<Val>)
    ensures |r| == |vs|
  {
    seq(|vs|, i requires 0 <= i < |vs| => ScalarVal(vs[i]))
  }

  function CondVal(v: CondValue): Val {
    match v
    case NoValue => Null
    case One(s) => ScalarVal(s)
    case Many(vs) => Arr(ScalarVals(vs))
  }

  /** A value as text, empty when it has none. */
  function Textual(lib: Library, v: Val): string {
    var t := lib.toText(v);
    if t.Some? then t.value else ""
  }

  /** The field's value, or null when the event has none. */
  function FieldOf(ev: map<string, Val>, field: string): Val {
    Walk(Obj(ev), Encoder.Split(field))
  }

  function Folded(s: string, caseSensitive: bool): string {
    if caseSensitive then s else Lower(s)
  }

  // ---------------------------------------------------------------- conditions

  /** Strings compare as text under the condition's case rule; other values compare raw. */
  predicate Equals(lib: Library, v: Val, value: CondValue, caseSensitive: bool) {
    if value.One? && value.v.SStr? then
      Folded(Textual(lib, v), caseSensitive) == Folded(value.v.s, caseSensitive)
    else SameValue(lib, v, CondVal(value))
  }

  /** Membership in a list of strings is text equality with one of them; in any other list the raw
      value must be an item, with no case folding. */
  predicate IsMember(lib: Library, v: Val, items: seq<Scalar>, caseSensitive: bool) {
    if forall i :: 0 <= i < |items| ==> items[i].SStr? then
      exists i :: 0 <= i < |items| &&
        Folded(items[i].s, caseSensitive) == Folded(Textual(lib, v), caseSensitive)
    else exists i :: 0 <= i < |items| && SameItem(lib, ScalarVal(items[i]), v)
  }

  function ThresholdVal(v: Scalar): Option<real> {
    match v
    case SInt(i) => Some(i as real)
    case SFloat(f) => if f.Finite? then Some(Decimals.RealOf(f)) else None
    case _ => None
  }

  predicate Beyond(op: Operator, x: real, y: real)
    requires IsNumericOp(op)
  {
    if op == LT then x < y else if op == LTE then x <= y else if op == GT then x > y else x >= y
  }

  ghost predicate Holds(lib: Library, ev: map<string, Val>, c: Condition) {
    var v := FieldOf(ev, c.field);
    var text := Textual(lib, v);
    var cs := c.caseSensitive;
    match c.operator
    case EXISTS => v != Null
    case NOT_EXISTS => v == Null
    case EQ => Equals(lib, v, c.value, cs)
    case NE => !Equals(lib, v, c.value, cs)
    case IN => c.value.Many? && IsMember(lib, v, c.value.vs, cs)
    case NOT_IN => c.value.Many? && !IsMember(lib, v, c.value.vs, cs)
    case _ =>
      c.value.One? &&
      if IsNumericOp(c.operator) then
        var x := lib.toFloat(v);
        var y := ThresholdVal(c.value.v);
        x.Some? && y.Some? && Beyond(c.operator, x.value, y.value)
      else
        c.value.v.SStr? &&
        if c.operator == GLOB then Globs.GlobMatches(c.value.v.s, text, !cs)
        else if c.operator == CIDR then lib.inCidr(c.value.v.s, text) == Some(true)
        else if c.operator == CONTAINS then Contains(Folded(text, cs), Folded(c.value.v.s, cs))
        else if c.operator == STARTS_WITH then StartsWith(Folded(text, cs), Folded(c.value.v.s, cs))
        else EndsWith(Folded(text, cs), Folded(c.value.v.s, cs))
  }

  ghost predicate AllHold(lib: Library, ev: map<string, Val>, cs: seq<Condition>) {
    forall i :: 0 <= i < |cs| ==> Holds(lib, ev, cs[i])
  }

  /** All conditions of the rule hold. */
  ghost predicate Matches(lib: Library, ev: map<string, Val>, r: Rule) {
    AllHold(lib, ev, r.conditions)
  }

  // ---------------------------------------------------------------- the deciding rule

  ghost predicate Candidate(lib: Library, ev: map<string, Val>, chain: Chain, r: Rule) {
    r in chain.rules && r.enabled && Matches(lib, ev, r)
  }

  /** The enabled matching rule with the smallest (order, id). */
  ghost predicate Decides(lib: Library, ev: map<string, Val>, chain: Chain, r: Rule) {
    && Candidate(lib, ev, chain, r)
    && forall q :: Candidate(lib, ev, chain, q) ==> Before(r, q)
  }

  ghost function Decider(lib: Library, ev: map<string, Val>, chain: Chain): (d: Option<Rule>)
    ensures d.Some? ==> Decides(lib, ev, chain, d.value)
    ensures d.None? ==> forall r :: !Decides(lib, ev, chain, r)
  {
    if exists r :: Decides(lib, ev, chain, r) then
      var r :| Decides(lib, ev, chain, r);
      Some(r)
    else None
  }

  lemma {:induction false} DeciderUnique(lib: Library, ev: map<string, Val>, chain: Chain, a: Rule, b: Rule)
    requires UniqueIds(chain.rules) && Decides(lib, ev, chain, a) && Decides(lib, ev, chain, b)
    ensures a == b
  {
    assert Before(a, b) && Before(b, a);
    StringLeAntisymmetric(a.id, b.id);
    SameIdSameRule(chain.rules, a, b);
  }

  /** The deciding rule has the smallest order of all that match, and of those with that order the id
      that stands first in a dictionary. */
  lemma {:induction false} LeastDecides(lib: Library, ev: map<string, Val>, chain: Chain, r: Rule, q: Rule)
    requires Decider(lib, ev, chain) == Some(r) && Candidate(lib, ev, chain, q)
    ensures Candidate(lib, ev, chain, r)
    ensures r.order < q.order || (r.order == q.order && (r.id == q.id || ComesFirst(r.id, q.id)))
  {
    BeforeMeans(r, q);
  }

  // ---------------------------------------------------------------- the event as rules see it

  datatype View = View(ev: map<string, Val>, syslogOk: bool, cefOk: bool)

  /** CEF names at the top, syslog names under `syslog`, all lower-cased. */
  ghost function MakeView(syslog: Option<map<string, Val>>, cef: Option<map<string, Val>>): View {
    var top := LowerKeysOf(Default(cef, map[]));
    var ev := if syslog.Some? then top["syslog" := Obj(LowerKeysOf(syslog.value))] else top;
    View(ev, syslog.Some?, cef.Some?)
  }

  function RawText(lib: Library, event: map<string, Val>): string {
    Textual(lib, if "message" in event then event["message"] else Null)
  }

  /** What syslog leaves as the message body; the raw text when that has no text. */
  function BodyText(lib: Library, raw: string, syslog: Option<map<string, Val>>): string {
    if syslog.None? then raw
    else Default(lib.toText(if "message" in syslog.value then syslog.value["message"] else Null), raw)
  }

  /** CEF from the first marker in the raw text. */
  function FromMarker(lib: Library, raw: string): Option<map<string, Val>>
    requires forall s, n :: lib.find(s, n).Some? ==> lib.find(s, n).value <= |s|
  {
    var i := lib.find(raw, "CEF:");
    if i.Some? && i.value >= 0 then lib.parseCef(raw[i.value..]) else None
  }

  /** CEF from the body, or else from the marker. */
  function CefOf(lib: Library, raw: string, body: string): Option<map<string, Val>>
    requires forall s, n :: lib.find(s, n).Some? ==> lib.find(s, n).value <= |s|
  {
    if lib.parseCef(body).Some? then lib.parseCef(body) else FromMarker(lib, raw)
  }

  ghost function ViewOf(lib: Library, event: map<string, Val>): View
    requires Sound(lib)
  {
    var raw := RawText(lib, event);
    var syslog := lib.parseSyslog(raw);
    MakeView(syslog, CefOf(lib, raw, BodyText(lib, raw, syslog)))
  }

  // ---------------------------------------------------------------- the verdict

  datatype Verdict = Verdict(
    decision: string, reason: string,
    ruleId: Val, ruleVersion: Val, retain: bool)

  function Enforce(chain: Chain, parsed: bool, d: Option<Rule>): (string, string) {
    if !parsed then ("forward_parse_error", "parse_error")
    else if d.None? then (ActionText(chain.defaultAction), "default")
    else if d.value.shadow || chain.shadowMode then ("forward", "shadow")
    else (ActionText(d.value.action), "rule")
  }

  ghost function Judge(lib: Library, view: View, chain: Chain): Verdict {
    var d := Decider(lib, view.ev, chain);
    var outcome := Enforce(chain, view.syslogOk || view.cefOk, d);
    Verdict(outcome.0, outcome.1,
            if d.Some? then Str(d.value.id) else Null,
            if d.Some? then Int(d.value.version) else Null,
            d.Some? && d.value.retainPayload)
  }

  /** A summary field: the CEF name, or the syslog name when that has no text. */
  function SummaryOf(lib: Library, ev: map<string, Val>, cef: string, syslog: string): string {
    var first := Textual(lib, Walk(Obj(ev), [cef]));
    if first != "" then first else Textual(lib, Walk(Obj(ev), ["syslog", syslog]))
  }

  function VerdictFields(verdict: Verdict, version: int): map<string, Val> {
    map["chain_version" := Int(version),
        "decision" := Str(verdict.decision),
        "reason" := Str(verdict.reason),
        "rule_id" := verdict.ruleId,
        "rule_version" := verdict.ruleVersion,
        "retain" := Bool(verdict.retain)]
  }

  function ParserFields(lib: Library, view: View): map<string, Val> {
    map["parse_ok" := Bool(view.syslogOk || view.cefOk),
        "cef_ok" := Bool(view.cefOk),
        "syslog_ok" := Bool(view.syslogOk),
        "ts" := Str(Textual(lib, lib.now))]
  }

  function SummaryFields(lib: Library, ev: map<string, Val>): map<string, Val> {
    map["event_id" := Str(SummaryOf(lib, ev, "eventid", "msgid")),
        "severity" := Str(SummaryOf(lib, ev, "severity", "severity")),
        "host" := Str(SummaryOf(lib, ev, "filterhostname", "hostname")),
        "name" := Str(SummaryOf(lib, ev, "name", "appname"))]
  }

  /** The record the program leaves under `.ss`. */
  ghost function RecordOf(lib: Library, event: map<string, Val>, chain: Chain, version: int): map<string, Val>
    requires Sound(lib)
  {
    var view := ViewOf(lib, event);
    VerdictFields(Judge(lib, view, chain), version) + ParserFields(lib, view) + SummaryFields(lib, view.ev)
  }
}
