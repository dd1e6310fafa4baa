/** The emitted text: it is always read back as the intended program, and user text cannot change
    its token structure. */
module Emission {
  import opened Common
  import opened Vrl
  import opened Rules
  import opened Lexer
  import opened Syntax
  import opened Programs
  import opened Compiler
  import Decimals
  import Encoder
  import Globs

  // ---------------------------------------------------------------- no parenthesis is missing

  lemma {:induction false} LiteralsWritten(segments: seq<string>)
    ensures WrittenAll(Literals(segments))
  {
    if segments != [] { LiteralsWritten(segments[1..]); }
  }

  lemma {:induction false} PathWritten(field: string)
    requires EncodePath(field).Ok?
    ensures Written(EncodePath(field).value) && Level(EncodePath(field).value) == 4
  {
    LiteralsWritten(Encoder.PathSegments(field).value);
  }

  lemma {:induction false} ScalarWritten(v: Scalar)
    requires EncodeScalar(v).Ok?
    ensures Written(EncodeScalar(v).value) && Level(EncodeScalar(v).value) == 4
  {
    match v
    case SInt(i) => Decimals.IntLiteral(i);
    case SFloat(f) => Decimals.FloatLiteral(f);
    case _ =>
  }

  lemma {:induction false} ScalarsWritten(vs: seq<Scalar>)
    requires EncodeScalars(vs).Ok?
    ensures WrittenAll(EncodeScalars(vs).value)
  {
    if vs != [] {
      ScalarWritten(vs[0]);
      ScalarsWritten(vs[1..]);
    }
  }

  lemma {:induction false} ValueWritten(v: CondValue)
    requires EncodeValue(v).Ok?
    ensures Written(EncodeValue(v).value) && Level(EncodeValue(v).value) == 4
  {
    match v
    case One(s) => ScalarWritten(s);
    case Many(vs) => ScalarsWritten(vs);
  }

  lemma {:induction false} OneWritten(f: Func, a: Expr)
    requires Written(a)
    ensures Written(Call1(f, a))
  {
    assert [a][1..] == [];
  }

  lemma {:induction false} PairWritten(f: Func, a: Expr, b: Expr, cs: Option<bool>)
    requires Written(a) && Written(b)
    ensures Written(Call(f, [a, b], cs))
  {
    assert [a, b][1..] == [b] && [b][1..] == [];
    assert WrittenAll([b]);
  }

  lemma {:induction false} OrElseWritten(a: Expr, b: Expr)
    requires Written(a) && Written(b) && Level(a) == 4 && Level(b) == 4
    ensures Written(OrElse(a, b)) && Level(OrElse(a, b)) == 4
  {
  }

  lemma {:induction false} OperandsWritten(path: Expr, caseSensitive: bool)
    requires Written(path) && Level(path) == 4
    ensures Written(ValueExpr(path)) && Level(ValueExpr(path)) == 4
    ensures Written(TextExpr(path)) && Level(TextExpr(path)) == 4
    ensures Written(NumberExpr(path)) && Level(NumberExpr(path)) == 4
    ensures Written(StringOperand(path, caseSensitive)) && Level(StringOperand(path, caseSensitive)) == 4
  {
    var get := Call2(Get, Var(Ev), path);
    PairWritten(Get, Var(Ev), path, None);
    OrElseWritten(get, LitNull);
    OneWritten(ToString, ValueExpr(path));
    OrElseWritten(Call1(ToString, ValueExpr(path)), LitStr(""));
    OneWritten(ToFloat, ValueExpr(path));
    OrElseWritten(Call1(ToFloat, ValueExpr(path)), LitNull);
    OneWritten(Downcase, TextExpr(path));
  }

  /** A parenthesised comparison of two tightly binding operands. */
  lemma {:induction false} CompareWritten(op: Op, a: Expr, b: Expr)
    requires Written(a) && Written(b) && Level(a) == 4 && Level(b) == 4
    ensures Written(Paren(Bin(op, a, b))) && Level(Paren(Bin(op, a, b))) == 4
  {
  }

  lemma {:induction false} EqualityWritten(c: Condition, op: Op)
    requires op in {EqEq, NotEq} && CompileEquality(c, op).Ok?
    ensures Written(CompileEquality(c, op).value) && Level(CompileEquality(c, op).value) == 4
  {
    var path := EncodePath(c.field).value;
    PathWritten(c.field);
    OperandsWritten(path, c.caseSensitive);
    if c.value.One? && c.value.v.SStr? {
      CompareWritten(op, StringOperand(path, c.caseSensitive), LitStr(FoldedText(c.value.v.s, c.caseSensitive)));
    } else {
      ValueWritten(c.value);
      CompareWritten(op, ValueExpr(path), EncodeValue(c.value).value);
    }
  }

  lemma {:induction false} MembershipWritten(c: Condition)
    requires CompileMembership(c).Ok?
    ensures Written(CompileMembership(c).value) && Level(CompileMembership(c).value) == 4
  {
    PathWritten(c.field);
    OperandsWritten(EncodePath(c.field).value, c.caseSensitive);
    var Call(_, args, _) := CompileMembership(c).value;
    if AllStrings(c.value.vs) {
      ScalarsWritten(FoldedTexts(c.value.vs, c.caseSensitive));
    } else {
      ValueWritten(c.value);
    }
    PairWritten(Includes, args[0], args[1], None);
  }

  lemma {:induction false} GlobWritten(c: Condition)
    requires c.operator == GLOB && CompileCondition(c).Ok?
    ensures Written(CompileCondition(c).value) && Level(CompileCondition(c).value) == 4
  {
    var path := EncodePath(c.field).value;
    PathWritten(c.field);
    OperandsWritten(path, true);
    PairWritten(Match, TextExpr(path), LitRegex(Globs.GlobToRegex(c.value.v.s, !c.caseSensitive).value), None);
  }

  lemma {:induction false} StringTestWritten(c: Condition)
    requires c.operator in {CONTAINS, STARTS_WITH, ENDS_WITH} && CompileStringTest(c).Ok?
    ensures Written(CompileStringTest(c).value) && Level(CompileStringTest(c).value) == 4
  {
    var path := EncodePath(c.field).value;
    PathWritten(c.field);
    OperandsWritten(path, true);
    PairWritten(StringFunc(c.operator), TextExpr(path), LitStr(c.value.v.s), Some(c.caseSensitive));
  }

  lemma {:induction false} CidrWritten(c: Condition)
    requires c.operator == CIDR && CompileCondition(c).Ok?
    ensures Written(CompileCondition(c).value) && Level(CompileCondition(c).value) == 4
  {
    var path, literal := EncodePath(c.field).value, LitStr(c.value.v.s);
    PathWritten(c.field);
    OperandsWritten(path, true);
    PairWritten(IpCidrContains, literal, TextExpr(path), None);
    OrElseWritten(Call2(IpCidrContains, literal, TextExpr(path)), LitBool(false));
  }

  lemma {:induction false} ExistsWritten(c: Condition)
    requires c.operator in {EXISTS, NOT_EXISTS} && CompileCondition(c).Ok?
    ensures Written(CompileCondition(c).value) && Level(CompileCondition(c).value) == 4
  {
    var path := EncodePath(c.field).value;
    PathWritten(c.field);
    NullTestWritten(path, if c.operator == EXISTS then NotEq else EqEq);
  }

  lemma {:induction false} NullTestWritten(path: Expr, op: Op)
    requires Written(path) && Level(path) == 4
    ensures var e := Paren(Bin(op, ValueExpr(path), LitNull)); Written(e) && Level(e) == 4
  {
    OperandsWritten(path, true);
    CompareWritten(op, ValueExpr(path), LitNull);
  }

  lemma {:induction false} ThresholdWritten(c: Condition)
    requires IsNumericOp(c.operator) && CompileThreshold(c).Ok?
    ensures Written(CompileThreshold(c).value) && Level(CompileThreshold(c).value) == 4
  {
    var path := EncodePath(c.field).value;
    var f := Threshold(c.value).value;
    var right := LitNum(Decimals.EncodeFloat(f).value);
    PathWritten(c.field);
    OperandsWritten(path, true);
    NumeralWritten(f);
    CompareWritten(CompareOp(c.operator), NumberExpr(path), right);
    OrElseWritten(Paren(Bin(CompareOp(c.operator), NumberExpr(path), right)), LitBool(false));
  }

  lemma {:induction false} NumeralWritten(f: Decimals.Float)
    requires Decimals.EncodeFloat(f).Ok?
    ensures Written(LitNum(Decimals.EncodeFloat(f).value))
  {
    Decimals.FloatLiteral(f);
  }

  lemma {:induction false} ConditionWritten(c: Condition)
    requires CompileCondition(c).Ok?
    ensures Written(CompileCondition(c).value) && Level(CompileCondition(c).value) == 4
  {
    match c.operator
    case EXISTS | NOT_EXISTS => ExistsWritten(c);
    case EQ => EqualityWritten(c, EqEq);
    case NE => EqualityWritten(c, NotEq);
    case IN | NOT_IN => MembershipWritten(c);
    case GLOB => GlobWritten(c);
    case CIDR => CidrWritten(c);
    case CONTAINS | STARTS_WITH | ENDS_WITH => StringTestWritten(c);
    case LT | LTE | GT | GTE => ThresholdWritten(c);
  }

  lemma {:induction false} PredicateWritten(conditions: seq<Condition>)
    requires CompilePredicate(conditions).Ok?
    ensures Written(CompilePredicate(conditions).value) && Level(CompilePredicate(conditions).value) >= 2
  {
    ConditionWritten(conditions[0]);
    if |conditions| > 1 { PredicateWritten(conditions[1..]); }
  }

  predicate WrittenBranch(b: Branch) {
    Written(b.predicate_) && WrittenBlock(b.body) && '\n' !in b.note
  }

  predicate WrittenBranches(bs: seq<Branch>) {
    forall i :: 0 <= i < |bs| ==> WrittenBranch(bs[i])
  }

  lemma {:induction false} RuleBodyWritten(r: Rule, version: Expr)
    requires Written(version)
    ensures WrittenBlock(RuleBody(r, version))
  {
  }

  lemma {:induction false} RuleWritten(r: Rule)
    requires CompileRule(r).Ok?
    ensures WrittenBranch(CompileRule(r).value)
  {
    var version := LitNum(Decimals.EncodeInt(r.version).value);
    PredicateWritten(r.conditions);
    Decimals.IntLiteral(r.version);
    RuleBodyWritten(r, version);
    RuleParts(r);
  }

  lemma {:induction false} RuleParts(r: Rule)
    requires CompileRule(r).Ok?
    ensures CompileRule(r).value ==
            Branch(RuleNote(r), CompilePredicate(r.conditions).value,
                   RuleBody(r, LitNum(Decimals.EncodeInt(r.version).value)))
  {
  }

  lemma {:induction false} RulesWritten(rules: seq<Rule>)
    requires CompileRules(rules).Ok?
    ensures WrittenBranches(CompileRules(rules).value)
  {
    if rules != [] {
      RuleWritten(rules[0]);
      RulesWritten(rules[1..]);
    }
  }

  lemma {:induction false} ArmBodyWritten(bs: seq<Branch>)
    requires bs != [] && WrittenBranches(bs)
    ensures WrittenBlock(ArmBody(bs))
  {
    assert WrittenBranch(bs[0]);
    if |bs| > 1 {
      assert WrittenBranch(bs[1]);
    } else {
      assert bs[0].body + [] == bs[0].body;
    }
  }

  lemma {:induction false} ArmsWritten(bs: seq<Branch>)
    requires WrittenBranches(bs)
    ensures WrittenTail(Arms(bs))
  {
    if bs != [] {
      ArmBodyWritten(bs);
      ArmsWritten(bs[1..]);
    }
  }

  lemma {:induction false} MatchingWritten(bs: seq<Branch>)
    requires WrittenBranches(bs)
    ensures WrittenBlock(Matching(bs))
  {
    if bs != [] {
      var s := If(false, bs[0].predicate_, ArmBody(bs), Arms(bs[1..]));
      ArmBodyWritten(bs);
      ArmsWritten(bs[1..]);
      assert WrittenBranch(bs[0]);
    }
  }

  // ---------------------------------------------------------------- the fixed parts

  lemma {:induction false} GetOrWritten(from: Name, path: seq<string>, other: Expr)
    requires Written(other) && Level(other) == 4
    ensures Written(GetOr(from, path, other)) && Written(Call1(ToString, GetOr(from, path, other)))
  {
    LiteralsWritten(path);
    PairWritten(Get, Var(from), Array(Literals(path)), None);
    OneWritten(ToString, GetOr(from, path, other));
  }

  lemma {:induction false} SetupWritten()
    ensures WrittenBlock(Setup())
  {
    OneWritten(ToString, Dot(Message));
  }

  lemma {:induction false} SyslogStepWritten()
    ensures WrittenBlock(SyslogStep())
  {
    OneWritten(ParseSyslog, Var(Raw));
    GetOrWritten(Parsed, ["message"], Var(Raw));
  }

  lemma {:induction false} MarkerTestWritten(guarded: bool)
    ensures Written(MarkerTest(guarded))
  {
    assert Decimals.IsNumeral("0") by {
      assert Decimals.AllDigits("0");
      Decimals.DigitsAlone("0");
    }
  }

  lemma {:induction false} IfWritten(c: Expr, body: seq<Stmt>, tail: Tail)
    requires Written(c) && WrittenTail(tail) && WrittenBlock(body)
    ensures WrittenStmt(If(false, c, body, tail)) && WrittenTail(Elif(c, body, tail))
  {
  }

  lemma {:induction false} MarkerStepWritten(guarded: bool)
    ensures WrittenStmt(MarkerStep(guarded))
  {
    MarkerTestWritten(guarded);
    PairWritten(Slice, Var(Raw), Var(Marker), None);
    OneWritten(ParseCef, Call2(Slice, Var(Raw), Var(Marker)));
    IfWritten(MarkerTest(guarded), [AssignPair(Cef, Cerr, Call1(ParseCef, Call2(Slice, Var(Raw), Var(Marker))))], Done);
  }

  lemma {:induction false} CefStepWritten(guarded: bool)
    ensures WrittenBlock(CefStep(guarded))
  {
    OneWritten(ParseCef, Var(Body));
    PairWritten(Find, Var(Raw), LitStr("CEF:"), None);
    MarkerStepWritten(guarded);
    IfWritten(Bin(NotEq, Var(Cerr), LitNull),
              [Assign(Marker, Call2(Find, Var(Raw), LitStr("CEF:"))), MarkerStep(guarded)], Done);
  }

  lemma {:induction false} SetSyslogWritten()
    ensures Written(SetSyslog())
  {
    assert WrittenAll([LitStr("syslog")]);
    assert WrittenAll([Var(Ev), Array([LitStr("syslog")]), LowerKeys(Var(Parsed))]);
  }

  lemma {:induction false} FieldsStepWritten()
    ensures WrittenBlock(FieldsStep())
  {
    IfWritten(Bin(EqEq, Var(Cerr), LitNull), [Assign(Ev, Var(Cef)), Assign(CefOk, LitBool(true))], Done);
    SetSyslogWritten();
    IfWritten(Var(SyslogOk), [Assign(Ev, SetSyslog())], Done);
  }

  lemma {:induction false} PreludeWritten(guarded: bool)
    ensures WrittenBlock(Prelude(guarded))
  {
    SetupWritten();
    SyslogStepWritten();
    CefStepWritten(guarded);
    FieldsStepWritten();
  }

  lemma {:induction false} DecidedWritten(decision: Expr, reason: string)
    requires Written(decision)
    ensures WrittenBlock(Decided(decision, reason))
  {
  }

  lemma {:induction false} DecideWritten(defaultAction: Action)
    ensures WrittenStmt(DecideStep(defaultAction))
  {
    var If(_, c, body, t1) := DecideStep(defaultAction);
    DecidedWritten(LitStr("forward_parse_error"), "parse_error");
    DecidedWritten(LitStr(ActionText(defaultAction)), "default");
    DecidedWritten(LitStr("forward"), "shadow");
    DecidedWritten(Var(MatchedAction), "rule");
    var t3 := Else(Decided(Var(MatchedAction), "rule"));
    IfWritten(t1.tail.c, Decided(LitStr("forward"), "shadow"), t3);
    IfWritten(t1.c, Decided(LitStr(ActionText(defaultAction)), "default"), t1.tail);
    IfWritten(c, Decided(LitStr("forward_parse_error"), "parse_error"), t1);
  }

  lemma {:induction false} EnforcementWritten(defaultAction: Action, shadowMode: bool)
    ensures WrittenBlock(Enforcement(defaultAction, shadowMode))
  {
    DecideWritten(defaultAction);
  }

  lemma {:induction false} SummaryWritten(n: Name, cef: string, syslog: string)
    ensures WrittenBlock(Summary(n, cef, syslog))
  {
    SummaryExprWritten([cef]);
    SummaryExprWritten(["syslog", syslog]);
    var If(_, c, body, _) := Summary(n, cef, syslog)[1];
    assert WrittenBlock(body) && IsSimple(body[0]);
    assert WrittenStmt(If(true, c, body, Done));
  }

  lemma {:induction false} SummaryExprWritten(path: seq<string>)
    ensures Written(SummaryExpr(path))
  {
    GetOrWritten(Ev, path, LitStr(""));
  }

  lemma {:induction false} SummariesWritten()
    ensures WrittenBlock(Summaries())
  {
    SummaryWritten(SsEventId, "eventid", "msgid");
    SummaryWritten(SsSeverity, "severity", "severity");
    SummaryWritten(SsHost, "filterhostname", "hostname");
    SummaryWritten(SsName, "name", "appname");
  }

  lemma {:induction false} RecordWritten(version: Expr)
    requires Written(version)
    ensures Written(Object(RecordEntries(version)))
  {
    OneWritten(ToString, Call(Now, [], None));
    assert WrittenEntries(VerdictEntries(version)) && WrittenEntries(ParserEntries());
    assert WrittenEntries(RecordEntries(version));
  }

  lemma {:induction false} ProgramWritten(guarded: bool, bs: seq<Branch>, chain: Chain, version: Expr)
    requires WrittenBranches(bs) && Written(version)
    ensures WrittenBlock(Program(guarded, bs, chain, version))
  {
    PreludeWritten(guarded);
    MatchingWritten(bs);
    EnforcementWritten(chain.defaultAction, chain.shadowMode);
    SummariesWritten();
    RecordWritten(version);
  }

  lemma {:induction false} ChainWritten(chain: Chain, version: int)
    requires CompileChain(chain, version).Ok?
    ensures WrittenBlock(CompileChain(chain, version).value)
  {
    RulesWritten(Active(chain));
    Decimals.IntLiteral(version);
    ProgramWritten(true, CompileRules(Active(chain)).value, chain, LitNum(Decimals.EncodeInt(version).value));
  }

  // ---------------------------------------------------------------- what the text is read back as

  /** The text of one compiled rule predicate, before anything delimiter-led, is read back under the
      precedence grammar as exactly the compiled tree. */
  lemma {:induction false} PredicateTextRead(conditions: seq<Condition>, rest: seq<Piece>)
    requires CompilePredicate(conditions).Ok?
    requires WellSpaced(rest) && Stops(0, Toks(rest))
    requires rest != [] ==> !rest[0].T? || rest[0].t in {TSym(RParen), TSym(RBracket), TSym(RBrace), TSym(Comma)}
    ensures var e := CompilePredicate(conditions).value;
            && Lex(Render(Show(e) + rest)).Some?
            && ParseE(0, Lex(Render(Show(e) + rest)).value) == Some((e, Toks(rest)))
  {
    var e := CompilePredicate(conditions).value;
    PredicateWritten(conditions);
    ExprTidy(e);
    TidyFits(Show(e), rest);
    ExprTextRead(e, rest);
  }

  lemma {:induction false} TidyFits(ps: seq<Piece>, rest: seq<Piece>)
    requires Tidy(ps)
    requires rest != [] ==> !rest[0].T? || rest[0].t in {TSym(RParen), TSym(RBracket), TSym(RBrace), TSym(Comma)}
    ensures Fits(ps, rest)
  {
  }

  /** The whole emitted text is read back as the intended program, whatever the user text. */
  lemma {:induction false} ChainTextRead(chain: Chain, version: int)
    requires CompileText(chain, version).Ok?
    ensures CompileChain(chain, version).Ok?
    ensures ReadProgram(CompileText(chain, version).value) == Some(Code(CompileChain(chain, version).value))
    ensures Lex(CompileText(chain, version).value) == Some(TBlock(CompileChain(chain, version).value))
  {
    ChainWritten(chain, version);
    TextRead(CompileChain(chain, version).value);
  }

  /** Without the compiler's parentheses the null test would be read inside the `??`: the printed
      text of `(x ?? null) != null` minus its parentheses is the text of `x ?? (null != null)`. */
  lemma {:induction false} UnparenthesisedMisreads(path: Expr)
    requires Written(path) && Level(path) == 4
    ensures var x := Call2(Get, Var(Ev), path);
            var bare := Bin(NotEq, Bin(Coalesce, x, LitNull), LitNull);
            && !Written(bare)
            && ParseE(0, TE(bare)) == Some((Bin(Coalesce, x, Bin(NotEq, LitNull, LitNull)), []))
  {
    var x := Call2(Get, Var(Ev), path);
    var bare := Bin(NotEq, Bin(Coalesce, x, LitNull), LitNull);
    var read := Bin(Coalesce, x, Bin(NotEq, LitNull, LitNull));
    PairWritten(Get, Var(Ev), path, None);
    ExprRead(0, read, []);
    assert TE(bare) == TE(read) + [];
  }
}
