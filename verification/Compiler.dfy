/** From a rule chain to a VRL program. Every user value goes through the encoder or is refused. */
module Compiler {
  import opened Common
  import opened Vrl
  import opened Rules
  import opened Programs
  import Decimals
  import Encoder
  import Globs

  // ---------------------------------------------------------------- encoding user values

  function Literals(segments: seq<string>): (r: seq<Expr>)
    ensures |r| == |segments|
  {
    if segments == [] then [] else [LitStr(segments[0])] + Literals(segments[1..])
  }

  function EncodePath(field: string): Result<Expr> {
    var segments :- Encoder.PathSegments(field);
    Ok(Array(Literals(segments)))
  }

  function EncodeText(s: string): Result<Expr> {
    var quoted :- Encoder.EncodeString(s);
    Ok(LitStr(s))
  }

  function EncodeNumber(text: Result<string>): Result<Expr> {
    var lexeme :- text;
    Ok(LitNum(lexeme))
  }

  function EncodeScalar(v: Scalar): Result<Expr> {
    match v
    case SBool(b) => Ok(LitBool(b))
    case SStr(s) => EncodeText(s)
    case SInt(i) => EncodeNumber(Decimals.EncodeInt(i))
    case SFloat(f) => EncodeNumber(Decimals.EncodeFloat(f))
  }

  function EncodeScalars(vs: seq<Scalar>): (r: Result<seq<Expr>>)
    ensures r.Ok? ==> |r.value| == |vs|
  {
    if vs == [] then Ok([])
    else
      var e :- EncodeScalar(vs[0]);
      var rest :- EncodeScalars(vs[1..]);
      Ok([e] + rest)
  }

  function EncodeValue(v: CondValue): Result<Expr> {
    match v
    case NoValue => Refused(NotEncodable)
    case One(s) => EncodeScalar(s)
    case Many(vs) =>
      if |vs| > Encoder.MAX_LIST_LEN then Refused(ListTooLong)
      else
        var items :- EncodeScalars(vs);
        Ok(Array(items))
  }

  // ---------------------------------------------------------------- conditions

  function Call1(f: Func, a: Expr): Expr { Call(f, [a], None) }

  function Call2(f: Func, a: Expr, b: Expr): Expr { Call(f, [a, b], None) }

  /** `a ?? b`, parenthesised, because `??` binds looser than a comparison. */
  function OrElse(a: Expr, b: Expr): Expr { Paren(Bin(Coalesce, a, b)) }

  function ValueExpr(path: Expr): Expr { OrElse(Call2(Get, Var(Ev), path), LitNull) }

  function TextExpr(path: Expr): Expr { OrElse(Call1(ToString, ValueExpr(path)), LitStr("")) }

  function NumberExpr(path: Expr): Expr { OrElse(Call1(ToFloat, ValueExpr(path)), LitNull) }

  function StringOperand(path: Expr, caseSensitive: bool): Expr {
    if caseSensitive then TextExpr(path) else Call1(Downcase, TextExpr(path))
  }

  function FoldedText(s: string, caseSensitive: bool): string {
    if caseSensitive then s else Lower(s)
  }

  predicate AllStrings(vs: seq<Scalar>) { forall i :: 0 <= i < |vs| ==> vs[i].SStr? }

  function FoldedTexts(vs: seq<Scalar>, caseSensitive: bool): (r: seq<Scalar>)
    requires AllStrings(vs)
    ensures |r| == |vs|
  {
    if vs == [] then []
    else [SStr(FoldedText(vs[0].s, caseSensitive))] + FoldedTexts(vs[1..], caseSensitive)
  }

  function StringFunc(op: Operator): Func
    requires op in {CONTAINS, STARTS_WITH, ENDS_WITH}
  {
    if op == CONTAINS then Contains_ else if op == STARTS_WITH then StartsWith_ else EndsWith_
  }

  function CompareOp(op: Operator): Op
    requires IsNumericOp(op)
  {
    if op == LT then Lt else if op == LTE then Le else if op == GT then Gt else Ge
  }

  function TextValue(v: CondValue): Result<string> {
    if v.One? && v.v.SStr? then Ok(v.v.s) else Refused(WrongValueShape)
  }

  /** `float(value)` of a threshold; a bool is not a number here, whatever the schema let through. */
  function Threshold(v: CondValue): Result<Decimals.Float> {
    if !v.One? then Refused(WrongValueShape)
    else
      match v.v
      case SInt(i) => Ok(Decimals.Finite(i < 0, if i < 0 then -i else i, 0))
      case SFloat(f) => Ok(f)
      case _ => Refused(WrongValueShape)
  }

  function CompileEquality(c: Condition, op: Op): Result<Expr>
    requires op in {EqEq, NotEq}
  {
    var path :- EncodePath(c.field);
    if c.value.One? && c.value.v.SStr? then
      var right :- EncodeText(FoldedText(c.value.v.s, c.caseSensitive));
      Ok(Paren(Bin(op, StringOperand(path, c.caseSensitive), right)))
    else
      var right :- EncodeValue(c.value);
      Ok(Paren(Bin(op, ValueExpr(path), right)))
  }

  function CompileMembership(c: Condition): Result<Expr> {
    if !c.value.Many? then Refused(WrongValueShape)
    else
      var path :- EncodePath(c.field);
      if AllStrings(c.value.vs) then
        var items :- EncodeScalars(FoldedTexts(c.value.vs, c.caseSensitive));
        Ok(Call2(Includes, Array(items), StringOperand(path, c.caseSensitive)))
      else
        var right :- EncodeValue(c.value);
        Ok(Call2(Includes, right, ValueExpr(path)))
  }

  /** One condition as a parenthesised boolean expression. */
  function CompileCondition(c: Condition): Result<Expr> {
    match c.operator
    case EXISTS =>
      var path :- EncodePath(c.field);
      Ok(Paren(Bin(NotEq, ValueExpr(path), LitNull)))
    case NOT_EXISTS =>
      var path :- EncodePath(c.field);
      Ok(Paren(Bin(EqEq, ValueExpr(path), LitNull)))
    case EQ => CompileEquality(c, EqEq)
    case NE => CompileEquality(c, NotEq)
    case IN =>
      var e :- CompileMembership(c);
      Ok(Paren(e))
    case NOT_IN =>
      var e :- CompileMembership(c);
      Ok(Paren(Not(e)))
    case GLOB =>
      var pattern :- TextValue(c.value);
      var regex :- Globs.GlobToRegex(pattern, !c.caseSensitive);
      var path :- EncodePath(c.field);
      var literal :- Globs.EncodeRegexLiteral(regex);
      Ok(Paren(Call2(Match, TextExpr(path), LitRegex(regex))))
    case CIDR =>
      var cidr :- TextValue(c.value);
      var path :- EncodePath(c.field);
      var literal :- EncodeText(cidr);
      Ok(OrElse(Call2(IpCidrContains, literal, TextExpr(path)), LitBool(false)))
    case CONTAINS => CompileStringTest(c)
    case STARTS_WITH => CompileStringTest(c)
    case ENDS_WITH => CompileStringTest(c)
    case LT => CompileThreshold(c)
    case LTE => CompileThreshold(c)
    case GT => CompileThreshold(c)
    case GTE => CompileThreshold(c)
  }

  function CompileStringTest(c: Condition): Result<Expr>
    requires c.operator in {CONTAINS, STARTS_WITH, ENDS_WITH}
  {
    var text :- TextValue(c.value);
    var path :- EncodePath(c.field);
    var needle :- EncodeText(text);
    Ok(Paren(Call(StringFunc(c.operator), [TextExpr(path), needle], Some(c.caseSensitive))))
  }

  /** The trailing `?? false` makes a missing or non-numeric field fail the test. */
  function CompileThreshold(c: Condition): Result<Expr>
    requires IsNumericOp(c.operator)
  {
    var f :- Threshold(c.value);
    var path :- EncodePath(c.field);
    var right :- EncodeNumber(Decimals.EncodeFloat(f));
    Ok(OrElse(Paren(Bin(CompareOp(c.operator), NumberExpr(path), right)), LitBool(false)))
  }

  /** All conditions joined by `&&`. */
  function CompilePredicate(conditions: seq<Condition>): Result<Expr> {
    if conditions == [] then Refused(NoConditions)
    else
      var e :- CompileCondition(conditions[0]);
      if |conditions| == 1 then Ok(e)
      else
        var rest :- CompilePredicate(conditions[1..]);
        Ok(Bin(And, e, rest))
  }

  // ---------------------------------------------------------------- rule branches

  datatype Branch = Branch(note: string, predicate_: Expr, body: seq<Stmt>)

  function RuleNote(r: Rule): string {
    Encoder.CommentText(r.id + ": " + if r.description != "" then r.description else r.name)
  }

  function RuleBody(r: Rule, version: Expr): seq<Stmt> {
    [Assign(MatchedId, LitStr(r.id)),
     Assign(MatchedVersion, version),
     Assign(MatchedAction, LitStr(ActionText(r.action))),
     Assign(MatchedShadow, LitBool(r.shadow)),
     Assign(MatchedRetain, LitBool(r.retainPayload))]
  }

  function CompileRule(r: Rule): Result<Branch> {
    var e :- CompilePredicate(r.conditions);
    var id :- EncodeText(r.id);
    var version :- EncodeNumber(Decimals.EncodeInt(r.version));
    Ok(Branch(RuleNote(r), e, RuleBody(r, version)))
  }

  function CompileRules(rules: seq<Rule>): (r: Result<seq<Branch>>)
    ensures r.Ok? ==> |r.value| == |rules|
  {
    if rules == [] then Ok([])
    else
      var b :- CompileRule(rules[0]);
      var rest :- CompileRules(rules[1..]);
      Ok([b] + rest)
  }

  lemma {:induction false} CompileRulesSnoc(rules: seq<Rule>, r: Rule)
    ensures CompileRules(rules + [r]) ==
            (if CompileRules(rules).Refused? then CompileRules(rules)
             else if CompileRule(r).Refused? then Refused(CompileRule(r).error)
             else Ok(CompileRules(rules).value + [CompileRule(r).value]))
  {
    if rules == [] {
      assert rules + [r] == [r] && [r][1..] == [];
      if CompileRule(r).Ok? {
        var b := CompileRule(r).value;
        assert [b] + [] == [] + [b];
      }
    } else {
      assert (rules + [r])[0] == rules[0] && (rules + [r])[1..] == rules[1..] + [r];
      CompileRulesSnoc(rules[1..], r);
      if CompileRule(rules[0]).Ok? && CompileRules(rules[1..]).Ok? && CompileRule(r).Ok? {
        assert [CompileRule(rules[0]).value] + (CompileRules(rules[1..]).value + [CompileRule(r).value]) ==
               CompileRules(rules).value + [CompileRule(r).value];
      }
    }
  }

  /** The comment of the next rule stands before its `} else if`, so it closes this rule's block. */
  function ArmBody(branches: seq<Branch>): seq<Stmt>
    requires branches != []
  {
    branches[0].body + if |branches| > 1 then [Note(0, branches[1].note)] else []
  }

  function Arms(branches: seq<Branch>): Tail {
    if branches == [] then Done
    else Elif(branches[0].predicate_, ArmBody(branches), Arms(branches[1..]))
  }

  function Matching(branches: seq<Branch>): seq<Stmt> {
    if branches == [] then []
    else [Note(0, branches[0].note),
          If(false, branches[0].predicate_, ArmBody(branches), Arms(branches[1..]))]
  }

  // ---------------------------------------------------------------- the fixed parts

  function GetOr(from: Name, path: seq<string>, other: Expr): Expr {
    Bin(Coalesce, Call2(Get, Var(from), Array(Literals(path))), other)
  }

  function SetupFields(): seq<Stmt> {
    [Assign(Raw, Bin(Coalesce, Call1(ToString, Dot(Message)), LitStr(""))),
     Assign(Ev, Object([])),
     Assign(ParseOk, LitBool(false)),
     Assign(SyslogOk, LitBool(false)),
     Assign(CefOk, LitBool(false))]
  }

  function SetupVerdict(): seq<Stmt> {
    [Assign(Body, Var(Raw)),
     Assign(Decision, LitStr("forward")),
     Assign(Reason, LitStr("default"))]
  }

  function Setup(): seq<Stmt> { SetupFields() + SetupVerdict() }

  function SyslogStep(): seq<Stmt> {
    [AssignPair(Parsed, Perr, Call1(ParseSyslog, Var(Raw))),
     If(false, Bin(EqEq, Var(Perr), LitNull),
        [Assign(SyslogOk, LitBool(true)),
         Assign(Body, Bin(Coalesce, Call1(ToString, GetOr(Parsed, ["message"], Var(Raw))), Var(Raw)))],
        Done)]
  }

  /** The fallback's test; `guarded` is the `marker != null` that must stand in front. */
  function MarkerTest(guarded: bool): Expr {
    var inRange := Bin(Ge, Var(Marker), LitNum("0"));
    if guarded then Bin(And, Bin(NotEq, Var(Marker), LitNull), inRange) else inRange
  }

  function MarkerStep(guarded: bool): Stmt {
    If(false, MarkerTest(guarded),
       [AssignPair(Cef, Cerr, Call1(ParseCef, Call2(Slice, Var(Raw), Var(Marker))))],
       Done)
  }

  function CefStep(guarded: bool): seq<Stmt> {
    [AssignPair(Cef, Cerr, Call1(ParseCef, Var(Body))),
     If(false, Bin(NotEq, Var(Cerr), LitNull),
        [Assign(Marker, Call2(Find, Var(Raw), LitStr("CEF:"))), MarkerStep(guarded)],
        Done)]
  }

  function SetSyslog(): Expr {
    Call(Set, [Var(Ev), Array([LitStr("syslog")]), LowerKeys(Var(Parsed))], None)
  }

  function FieldsStep(): seq<Stmt> {
    [If(false, Bin(EqEq, Var(Cerr), LitNull), [Assign(Ev, Var(Cef)), Assign(CefOk, LitBool(true))], Done),
     Assign(Ev, LowerKeys(Var(Ev))),
     If(false, Var(SyslogOk), [Assign(Ev, SetSyslog())], Done),
     Assign(ParseOk, Bin(Or, Var(SyslogOk), Var(CefOk)))]
  }

  function NoMatchYet(): seq<Stmt> {
    [Assign(MatchedId, LitNull),
     Assign(MatchedVersion, LitNull),
     Assign(MatchedAction, LitNull),
     Assign(MatchedShadow, LitBool(false)),
     Assign(MatchedRetain, LitBool(false))]
  }

  function Prelude(guarded: bool): seq<Stmt> {
    Setup() + SyslogStep() + CefStep(guarded) + FieldsStep() + NoMatchYet()
  }

  function Decided(decision: Expr, reason: string): seq<Stmt> {
    [Assign(Decision, decision), Assign(Reason, LitStr(reason))]
  }

  /** A parse failure, then no match, then shadow mode, then the rule's action. */
  function DecideStep(defaultAction: Action): Stmt {
    If(false, Not(Var(ParseOk)), Decided(LitStr("forward_parse_error"), "parse_error"),
       Elif(Bin(EqEq, Var(MatchedId), LitNull), Decided(LitStr(ActionText(defaultAction)), "default"),
            Elif(Bin(Or, Var(MatchedShadow), Var(ShadowChain)), Decided(LitStr("forward"), "shadow"),
                 Else(Decided(Var(MatchedAction), "rule")))))
  }

  function Enforcement(defaultAction: Action, shadowMode: bool): seq<Stmt> {
    [Assign(ShadowChain, LitBool(shadowMode)), Blank, DecideStep(defaultAction)]
  }

  function SummaryExpr(path: seq<string>): Expr {
    Bin(Coalesce, Call1(ToString, GetOr(Ev, path, LitStr(""))), LitStr(""))
  }

  /** A summary field: the CEF name first, the syslog name when that is empty. */
  function Summary(n: Name, cef: string, syslog: string): seq<Stmt> {
    [Assign(n, SummaryExpr([cef])),
     If(true, Bin(EqEq, Var(n), LitStr("")), [Assign(n, SummaryExpr(["syslog", syslog]))], Done)]
  }

  function Summaries(): seq<Stmt> {
    Summary(SsEventId, "eventid", "msgid") + Summary(SsSeverity, "severity", "severity")
    + Summary(SsHost, "filterhostname", "hostname") + Summary(SsName, "name", "appname")
  }

  function VerdictEntries(version: Expr): seq<Entry> {
    [Entry("chain_version", version),
     Entry("decision", Var(Decision)),
     Entry("reason", Var(Reason)),
     Entry("rule_id", Var(MatchedId)),
     Entry("rule_version", Var(MatchedVersion)),
     Entry("retain", Var(MatchedRetain))]
  }

  function ParserEntries(): seq<Entry> {
    [Entry("parse_ok", Var(ParseOk)),
     Entry("cef_ok", Var(CefOk)),
     Entry("syslog_ok", Var(SyslogOk)),
     Entry("ts", Call1(ToString, Call(Now, [], None)))]
  }

  function SummaryEntries(): seq<Entry> {
    [Entry("event_id", Var(SsEventId)),
     Entry("severity", Var(SsSeverity)),
     Entry("host", Var(SsHost)),
     Entry("name", Var(SsName))]
  }

  function RecordEntries(version: Expr): seq<Entry> {
    VerdictEntries(version) + ParserEntries() + SummaryEntries()
  }

  // ---------------------------------------------------------------- the whole program

  /** `guarded` is true in what the compiler emits; false is the program without the guard. */
  function Program(guarded: bool, branches: seq<Branch>, chain: Chain, version: Expr): seq<Stmt> {
    Prelude(guarded) + [Blank] + Matching(branches) + [Blank]
    + Enforcement(chain.defaultAction, chain.shadowMode) + [Blank]
    + Summaries() + [Blank]
    + [AssignDot(Ss, Object(RecordEntries(version)))]
  }

  function CompileChain(chain: Chain, version: int): Result<seq<Stmt>> {
    var branches :- CompileRules(Active(chain));
    var v :- EncodeNumber(Decimals.EncodeInt(version));
    Ok(Program(true, branches, chain, v))
  }

  /** The emitted VRL text. */
  function CompileText(chain: Chain, version: int): Result<string> {
    var program :- CompileChain(chain, version);
    Ok(Text(program))
  }

  lemma {:induction false} RefusedPrefix(a: seq<Rule>, b: seq<Rule>, e: Error)
    requires CompileRules(a) == Refused(e)
    ensures CompileRules(a + b) == Refused(e)
  {
    if a != [] {
      assert (a + b)[0] == a[0] && (a + b)[1..] == a[1..] + b;
      if CompileRule(a[0]).Ok? { RefusedPrefix(a[1..], b, e); }
    }
  }
}
