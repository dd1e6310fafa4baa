/**
 Skeleton invariance for whole chains: two emitted programs have the same skeleton exactly when their
 rules have the same shapes in the order they are tried; what that means for chains that differ only in
 text; and a pair of chains that shows why the order matters.
 */
module ChainShapes {
  import opened Common
  import opened Vrl
  import opened Lexer
  import opened Syntax
  import opened Programs
  import opened Rules
  import opened Compiler
  import opened Skeleton
  import opened Shapes
  import Decimals
  import Emission
  import Encoder
  import Limits
  import Operators

  // ---------------------------------------------------------------- rules

  /** What a rule's branch tells: its conditions' shapes and the values it notes that are not text. */
  datatype RuleShape = RuleShape(conditions: seq<CondShape>, version: int, shadow: bool, retain: bool)

  function CondShapes(cs: seq<Condition>): (r: seq<CondShape>)
    ensures |r| == |cs|
  {
    if cs == [] then [] else [ShapeOf(cs[0])] + CondShapes(cs[1..])
  }

  function RuleShapeOf(r: Rule): RuleShape {
    RuleShape(CondShapes(r.conditions), r.version, r.shadow, r.retainPayload)
  }

  function ShapesOf(rules: seq<Rule>): (r: seq<RuleShape>)
    ensures |r| == |rules|
  {
    if rules == [] then [] else [RuleShapeOf(rules[0])] + ShapesOf(rules[1..])
  }

  predicate AllFormed(ss: seq<CondShape>) { forall i :: 0 <= i < |ss| ==> Formed(ss[i]) }

  predicate RuleFormed(s: RuleShape) { s.conditions != [] && AllFormed(s.conditions) && Limits.IntFits(s.version) }

  predicate RulesFormed(ss: seq<RuleShape>) { forall i :: 0 <= i < |ss| ==> RuleFormed(ss[i]) }

  function PredicateShape(ss: seq<CondShape>): Expr
    requires ss != []
  {
    if |ss| == 1 then TestShape(ss[0]) else Bin(And, TestShape(ss[0]), PredicateShape(ss[1..]))
  }

  lemma {:induction false} PredicateIs(cs: seq<Condition>)
    requires CompilePredicate(cs).Ok?
    ensures cs != [] && AllFormed(CondShapes(cs))
    ensures BlankExpr(CompilePredicate(cs).value) == PredicateShape(CondShapes(cs))
  {
    ConditionShape(cs[0]);
    ShapeFormed(cs[0]);
    if |cs| > 1 {
      PredicateIs(cs[1..]);
      assert CondShapes(cs)[1..] == CondShapes(cs[1..]);
      BlankAnd(CompileCondition(cs[0]).value, CompilePredicate(cs[1..]).value);
    }
  }

  lemma {:induction false} BlankAnd(a: Expr, b: Expr)
    ensures BlankExpr(Bin(And, a, b)) == Bin(And, BlankExpr(a), BlankExpr(b))
  {
  }

  lemma {:induction false} PredicateTold(a: seq<CondShape>, b: seq<CondShape>)
    requires a != [] && b != [] && AllFormed(a) && AllFormed(b) && PredicateShape(a) == PredicateShape(b)
    ensures a == b
  {
    KindTold(a[0]);
    KindTold(b[0]);
    ShapeTold(a[0], b[0]);
    if |a| > 1 { PredicateTold(a[1..], b[1..]); }
    assert a == [a[0]] + a[1..] && b == [b[0]] + b[1..];
  }

  /** The block of a rule, its text blanked. */
  function BodyShape(s: RuleShape): seq<Stmt> {
    [Assign(MatchedId, LitStr("")),
     Assign(MatchedVersion, LitNum(Lexeme(Decimals.EncodeInt(s.version)))),
     Assign(MatchedAction, LitStr("")),
     Assign(MatchedShadow, LitBool(s.shadow)),
     Assign(MatchedRetain, LitBool(s.retain))]
  }

  function TailShape(ss: seq<RuleShape>): Tail
    requires RulesFormed(ss)
  {
    if ss == [] then Done
    else Elif(PredicateShape(ss[0].conditions), BodyShape(ss[0]), TailShape(ss[1..]))
  }

  lemma {:induction false} LexemeTold(v: int, w: int)
    requires Limits.IntFits(v) && Limits.IntFits(w)
    requires Lexeme(Decimals.EncodeInt(v)) == Lexeme(Decimals.EncodeInt(w))
    ensures v == w
  {
    Decimals.IntLiteral(v);
    Decimals.IntLiteral(w);
  }

  lemma {:induction false} BodyTold(a: RuleShape, b: RuleShape)
    requires Limits.IntFits(a.version) && Limits.IntFits(b.version) && BodyShape(a) == BodyShape(b)
    ensures a.version == b.version && a.shadow == b.shadow && a.retain == b.retain
  {
    var x, y := BodyShape(a), BodyShape(b);
    assert x[1] == y[1] && x[3] == y[3] && x[4] == y[4];
    LexemeTold(a.version, b.version);
  }

  lemma {:induction false} RuleTold(x: RuleShape, y: RuleShape)
    requires RuleFormed(x) && RuleFormed(y)
    requires PredicateShape(x.conditions) == PredicateShape(y.conditions) && BodyShape(x) == BodyShape(y)
    ensures x == y
  {
    PredicateTold(x.conditions, y.conditions);
    BodyTold(x, y);
  }

  lemma {:induction false} TailTold(a: seq<RuleShape>, b: seq<RuleShape>)
    requires RulesFormed(a) && RulesFormed(b) && TailShape(a) == TailShape(b)
    ensures a == b
  {
    if a != [] && b != [] {
      RuleTold(a[0], b[0]);
      TailTold(a[1..], b[1..]);
      assert a == [a[0]] + a[1..] && b == [b[0]] + b[1..];
    }
  }

  // ---------------------------------------------------------------- the code of a program, blanked

  /** The statements of a block that run, their text blanked. */
  function Bare(body: seq<Stmt>): seq<Stmt> { Code(BlankBlock(body)) }

  lemma {:induction false} BareConcat(a: seq<Stmt>, b: seq<Stmt>)
    ensures Bare(a + b) == Bare(a) + Bare(b)
  {
    if a == [] {
      assert a + b == b;
    } else {
      assert a == [a[0]] + a[1..] && a + b == [a[0]] + (a[1..] + b);
      BareCons(a[0], a[1..]);
      BareCons(a[0], a[1..] + b);
      BareConcat(a[1..], b);
    }
  }

  lemma {:induction false} BareCons(s: Stmt, rest: seq<Stmt>)
    ensures Bare([s] + rest) == (if s.Note? || s.Blank? then [] else [CodeStmt(BlankStmt(s))]) + Bare(rest)
  {
    assert ([s] + rest)[1..] == rest;
    assert ([BlankStmt(s)] + BlankBlock(rest))[1..] == BlankBlock(rest);
  }

  lemma {:induction false} BareSingle(s: Stmt)
    ensures Bare([s]) == if s.Note? || s.Blank? then [] else [CodeStmt(BlankStmt(s))]
  {
    assert [s][1..] == [];
    assert BlankBlock([s]) == [BlankStmt(s)] + BlankBlock([]);
    assert BlankBlock([s])[1..] == [];
    assert Code([]) == [];
  }

  lemma {:induction false} BareTwo(s: Stmt, t: Stmt)
    ensures Bare([s, t]) == Bare([s]) + Bare([t])
  {
    assert [s, t] == [s] + [t];
    BareConcat([s], [t]);
  }

  lemma {:induction false} RuleBodyBare(r: Rule)
    requires CompileRule(r).Ok?
    ensures Bare(CompileRule(r).value.body) == BodyShape(RuleShapeOf(r))
  {
    var body, shape := CompileRule(r).value.body, BodyShape(RuleShapeOf(r));
    BareAssigns(body);
    forall i | 0 <= i < 5 ensures shape[i] == Assign(body[i].n, BlankExpr(body[i].e)) {}
  }

  lemma {:induction false} BareAssigns(body: seq<Stmt>)
    requires forall i :: 0 <= i < |body| ==> body[i].Assign?
    ensures |Bare(body)| == |body|
    ensures forall i :: 0 <= i < |body| ==> Bare(body)[i] == Assign(body[i].n, BlankExpr(body[i].e))
  {
    if body != [] {
      BareAssigns(body[1..]);
      assert body == [body[0]] + body[1..];
      BareConcat([body[0]], body[1..]);
      BareSingle(body[0]);
    }
  }

  lemma {:induction false} ArmBodyBare(rules: seq<Rule>, bs: seq<Branch>)
    requires rules != [] && CompileRules(rules) == Ok(bs)
    ensures Bare(ArmBody(bs)) == BodyShape(RuleShapeOf(rules[0]))
  {
    var notes := if |bs| > 1 then [Note(0, bs[1].note)] else [];
    assert bs[0] == CompileRule(rules[0]).value;
    RuleBodyBare(rules[0]);
    BareConcat(bs[0].body, notes);
    if |bs| > 1 { BareSingle(Note(0, bs[1].note)); }
  }

  lemma {:induction false} ShapeFits(r: Rule)
    requires CompileRule(r).Ok?
    ensures RuleFormed(RuleShapeOf(r))
    ensures BlankExpr(CompileRule(r).value.predicate_) == PredicateShape(RuleShapeOf(r).conditions)
  {
    PredicateIs(r.conditions);
    Decimals.IntLiteral(r.version);
  }

  lemma {:induction false} ArmsBare(rules: seq<Rule>, bs: seq<Branch>)
    requires CompileRules(rules) == Ok(bs)
    ensures RulesFormed(ShapesOf(rules)) && CodeTail(BlankTail(Arms(bs))) == TailShape(ShapesOf(rules))
  {
    if rules != [] {
      assert bs[0] == CompileRule(rules[0]).value && bs[1..] == CompileRules(rules[1..]).value;
      assert ShapesOf(rules)[1..] == ShapesOf(rules[1..]);
      ShapeFits(rules[0]);
      ArmBodyBare(rules, bs);
      ArmsBare(rules[1..], bs[1..]);
      assert RulesFormed(ShapesOf(rules)) by {
        forall i | 0 <= i < |rules| ensures RuleFormed(ShapesOf(rules)[i]) {
          if i > 0 { assert ShapesOf(rules)[i] == ShapesOf(rules[1..])[i - 1]; }
        }
      }
    }
  }

  /** The matching section. */
  function MatchingBare(ss: seq<RuleShape>): seq<Stmt>
    requires RulesFormed(ss)
  {
    if ss == [] then []
    else [If(false, PredicateShape(ss[0].conditions), BodyShape(ss[0]), TailShape(ss[1..]))]
  }

  lemma {:induction false} BareNoted(text: string, e: Expr, body: seq<Stmt>, tail: Tail)
    ensures Bare([Note(0, text), If(false, e, body, tail)]) ==
            [If(false, BlankExpr(e), Bare(body), CodeTail(BlankTail(tail)))]
  {
    BareTwo(Note(0, text), If(false, e, body, tail));
    BareSingle(Note(0, text));
    BareSingle(If(false, e, body, tail));
  }

  lemma {:induction false} MatchingFirst(rules: seq<Rule>, bs: seq<Branch>)
    requires rules != [] && CompileRules(rules) == Ok(bs) && RulesFormed(ShapesOf(rules))
    ensures Bare(Matching(bs)) == MatchingBare(ShapesOf(rules))
  {
    assert bs[0] == CompileRule(rules[0]).value && bs[1..] == CompileRules(rules[1..]).value;
    assert ShapesOf(rules)[1..] == ShapesOf(rules[1..]);
    ShapeFits(rules[0]);
    ArmBodyBare(rules, bs);
    ArmsBare(rules[1..], bs[1..]);
    BareNoted(bs[0].note, bs[0].predicate_, ArmBody(bs), Arms(bs[1..]));
  }

  lemma {:induction false} MatchingIs(rules: seq<Rule>, bs: seq<Branch>)
    requires CompileRules(rules) == Ok(bs)
    ensures RulesFormed(ShapesOf(rules)) && Bare(Matching(bs)) == MatchingBare(ShapesOf(rules))
  {
    ArmsBare(rules, bs);
    if rules != [] { MatchingFirst(rules, bs); }
  }

  lemma {:induction false} MatchingTold(a: seq<RuleShape>, b: seq<RuleShape>)
    requires RulesFormed(a) && RulesFormed(b) && MatchingBare(a) == MatchingBare(b)
    ensures a == b
  {
    if a != [] && b != [] {
      assert MatchingBare(a)[0] == MatchingBare(b)[0];
      TailTold(a, b);
    }
  }

  // ---------------------------------------------------------------- whole programs

  lemma {:induction false} DecideBlank(a: Action, b: Action)
    ensures BlankStmt(DecideStep(a)) == BlankStmt(DecideStep(b))
  {
    DecidedBlank(LitStr(ActionText(a)), LitStr(ActionText(b)), "default");
  }

  lemma {:induction false} DecidedBlank(d: Expr, e: Expr, reason: string)
    requires BlankExpr(d) == BlankExpr(e)
    ensures BlankBlock(Decided(d, reason)) == BlankBlock(Decided(e, reason))
  {
    var x, y := Decided(d, reason), Decided(e, reason);
    assert x[1..] == y[1..];
  }

  /** The enforcement section tells the chain's shadow mode and nothing else. */
  lemma {:induction false} EnforcementTold(a: Action, m: bool, b: Action, n: bool)
    ensures Bare(Enforcement(a, m)) == Bare(Enforcement(b, n)) <==> m == n
    ensures |Bare(Enforcement(a, m))| == 2
  {
    EnforcementIs(a, m);
    EnforcementIs(b, n);
    DecideBlank(a, b);
    var x, y := Bare(Enforcement(a, m)), Bare(Enforcement(b, n));
    assert x[0] == Assign(ShadowChain, LitBool(m)) && y[0] == Assign(ShadowChain, LitBool(n));
  }

  lemma {:induction false} EnforcementIs(a: Action, m: bool)
    ensures Bare(Enforcement(a, m)) == [Assign(ShadowChain, LitBool(m)), CodeStmt(BlankStmt(DecideStep(a)))]
  {
    var s, d := Assign(ShadowChain, LitBool(m)), DecideStep(a);
    assert Enforcement(a, m) == [s] + ([Blank] + [d]);
    BareConcat([s], [Blank] + [d]);
    BareConcat([Blank], [d]);
    BareSingle(s);
    BareSingle(Blank);
    BareSingle(d);
  }

  /** The assignment of the record tells the chain's version and nothing else. */
  lemma {:induction false} RecordTold(v: int, w: int)
    requires Limits.IntFits(v) && Limits.IntFits(w)
    ensures var r := (x: int) => [AssignDot(Ss, Object(RecordEntries(LitNum(Lexeme(Decimals.EncodeInt(x))))))];
            (Bare(r(v)) == Bare(r(w)) <==> v == w) && |Bare(r(v))| == 1
  {
    var p := AssignDot(Ss, Object(RecordEntries(LitNum(Lexeme(Decimals.EncodeInt(v))))));
    var q := AssignDot(Ss, Object(RecordEntries(LitNum(Lexeme(Decimals.EncodeInt(w))))));
    BareSingle(p);
    BareSingle(q);
    if Bare([p]) == Bare([q]) {
      assert Bare([p])[0] == BlankStmt(p) && Bare([q])[0] == BlankStmt(q);
      BlankEntryAt(RecordEntries(LitNum(Lexeme(Decimals.EncodeInt(v)))), 0);
      BlankEntryAt(RecordEntries(LitNum(Lexeme(Decimals.EncodeInt(w)))), 0);
      LexemeTold(v, w);
    }
  }

  lemma {:induction false} BareParts(p: seq<Stmt>, m: seq<Stmt>, e: seq<Stmt>, s: seq<Stmt>, r: seq<Stmt>)
    ensures Bare(p + [Blank] + m + [Blank] + e + [Blank] + s + [Blank] + r) == Bare(p) + Bare(m) + Bare(e) + Bare(s) + Bare(r)
  {
    BareBetween(p, m);
    BareBetween(p + [Blank] + m, e);
    BareBetween(p + [Blank] + m + [Blank] + e, s);
    BareBetween(p + [Blank] + m + [Blank] + e + [Blank] + s, r);
  }

  lemma {:induction false} BareBetween(a: seq<Stmt>, b: seq<Stmt>)
    ensures Bare(a + [Blank] + b) == Bare(a) + Bare(b)
  {
    BareConcat(a + [Blank], b);
    BareConcat(a, [Blank]);
    BareSingle(Blank);
  }

  lemma {:induction false} PartsTold(p: seq<Stmt>, s: seq<Stmt>, m: seq<Stmt>, e: seq<Stmt>, r: seq<Stmt>,
                                     m': seq<Stmt>, e': seq<Stmt>, r': seq<Stmt>)
    requires |e| == |e'| && |r| == |r'| && p + m + e + s + r == p + m' + e' + s + r'
    ensures m == m' && e == e' && r == r'
  {
    var x, y := p + m + e + s + r, p + m' + e' + s + r';
    assert |m| == |m'|;
    var i, j, k := |p|, |p| + |m|, |p| + |m| + |e|;
    assert x[i..j] == m && y[i..j] == m';
    assert x[j..k] == e && y[j..k] == e';
    assert x[k + |s|..] == r && y[k + |s|..] == r';
  }

  function RecordStep(version: int): seq<Stmt> {
    [AssignDot(Ss, Object(RecordEntries(LitNum(Lexeme(Decimals.EncodeInt(version))))))]
  }

  lemma {:induction false} ProgramBare(chain: Chain, version: int)
    requires CompileChain(chain, version).Ok?
    ensures RulesFormed(ShapesOf(Active(chain))) && Limits.IntFits(version)
    ensures Bare(CompileChain(chain, version).value) ==
            Bare(Prelude(true)) + MatchingBare(ShapesOf(Active(chain)))
            + Bare(Enforcement(chain.defaultAction, chain.shadowMode)) + Bare(Summaries()) + Bare(RecordStep(version))
  {
    var bs := CompileRules(Active(chain)).value;
    Decimals.IntLiteral(version);
    MatchingIs(Active(chain), bs);
    BareParts(Prelude(true), Matching(bs), Enforcement(chain.defaultAction, chain.shadowMode), Summaries(),
              RecordStep(version));
  }

  /** What a skeleton tells of a chain and its version. */
  predicate SameShape(a: Chain, v: int, b: Chain, w: int) {
    v == w && a.shadowMode == b.shadowMode && ShapesOf(Active(a)) == ShapesOf(Active(b))
  }

  lemma {:induction false} BareIsShape(a: Chain, v: int, b: Chain, w: int)
    requires CompileChain(a, v).Ok? && CompileChain(b, w).Ok?
    ensures Bare(CompileChain(a, v).value) == Bare(CompileChain(b, w).value) <==> SameShape(a, v, b, w)
  {
    var x, y := ShapesOf(Active(a)), ShapesOf(Active(b));
    var d, e := Bare(Enforcement(a.defaultAction, a.shadowMode)), Bare(Enforcement(b.defaultAction, b.shadowMode));
    ProgramBare(a, v);
    ProgramBare(b, w);
    EnforcementTold(a.defaultAction, a.shadowMode, b.defaultAction, b.shadowMode);
    EnforcementTold(b.defaultAction, b.shadowMode, a.defaultAction, a.shadowMode);
    RecordTold(v, w);
    RecordTold(w, v);
    if Bare(CompileChain(a, v).value) == Bare(CompileChain(b, w).value) {
      PartsTold(Bare(Prelude(true)), Bare(Summaries()), MatchingBare(x), d, Bare(RecordStep(v)), MatchingBare(y), e,
                Bare(RecordStep(w)));
      MatchingTold(x, y);
    }
  }

  /** The tokens of an emitted text with the contents of its literals removed. */
  function SkeletonOf(chain: Chain, version: int): Option<seq<Tok>>
    requires CompileText(chain, version).Ok?
  {
    var ts := Lex(CompileText(chain, version).value);
    if ts.Some? then Some(BlankToks(ts.value)) else None
  }

  /** Two emitted programs have the same skeleton exactly when they were compiled for the same version and
      shadow mode from rules of the same shapes, in the order they are tried. */
  lemma {:induction false} SkeletonExact(a: Chain, v: int, b: Chain, w: int)
    requires CompileText(a, v).Ok? && CompileText(b, w).Ok?
    ensures SkeletonOf(a, v).Some? && SkeletonOf(b, w).Some?
    ensures SkeletonOf(a, v) == SkeletonOf(b, w) <==> SameShape(a, v, b, w)
  {
    Emission.ChainTextRead(a, v);
    Emission.ChainTextRead(b, w);
    Emission.ChainWritten(a, v);
    Emission.ChainWritten(b, w);
    SkeletonIsCode(CompileChain(a, v).value, CompileChain(b, w).value);
    BareIsShape(a, v, b, w);
  }

  // ---------------------------------------------------------------- chains that differ only in text

  predicate AlikeScalar(a: Scalar, b: Scalar) { (a.SStr? && b.SStr?) || a == b }

  predicate AlikeScalars(a: seq<Scalar>, b: seq<Scalar>) {
    |a| == |b| && forall i :: 0 <= i < |a| ==> AlikeScalar(a[i], b[i])
  }

  predicate AlikeValue(a: CondValue, b: CondValue) {
    match a
    case NoValue => b.NoValue?
    case One(v) => b.One? && AlikeScalar(v, b.v)
    case Many(vs) => b.Many? && AlikeScalars(vs, b.vs)
  }

  predicate AlikeCondition(a: Condition, b: Condition) {
    a.field == b.field && a.operator == b.operator && a.caseSensitive == b.caseSensitive && AlikeValue(a.value, b.value)
  }

  predicate AlikeConditions(a: seq<Condition>, b: seq<Condition>) {
    |a| == |b| && forall i :: 0 <= i < |a| ==> AlikeCondition(a[i], b[i])
  }

  /** The same rule but for its id, name, description and the text of its operands. */
  predicate AlikeRule(a: Rule, b: Rule) {
    && a.enabled == b.enabled && a.order == b.order && a.action == b.action && a.version == b.version
    && a.shadow == b.shadow && a.retainPayload == b.retainPayload
    && AlikeConditions(a.conditions, b.conditions)
  }

  predicate AlikeRules(a: seq<Rule>, b: seq<Rule>) {
    |a| == |b| && forall i :: 0 <= i < |a| ==> AlikeRule(a[i], b[i])
  }

  lemma {:induction false} AlikeLits(a: seq<Scalar>, b: seq<Scalar>)
    requires AlikeScalars(a, b)
    ensures LitsOf(a) == LitsOf(b) && (AllStrings(a) <==> AllStrings(b))
  {
    if a != [] {
      assert AlikeScalar(a[0], b[0]);
      assert AlikeScalars(a[1..], b[1..]);
      AlikeLits(a[1..], b[1..]);
    }
    forall i | 0 <= i < |a| ensures a[i].SStr? <==> b[i].SStr? { assert AlikeScalar(a[i], b[i]); }
  }

  /** Text has no part in a condition's shape. */
  lemma {:induction false} AlikeShape(a: Condition, b: Condition)
    requires AlikeCondition(a, b)
    ensures ShapeOf(a) == ShapeOf(b)
  {
    if a.value.Many? { AlikeLits(a.value.vs, b.value.vs); }
  }

  lemma {:induction false} AlikeCondShapes(a: seq<Condition>, b: seq<Condition>)
    requires AlikeConditions(a, b)
    ensures CondShapes(a) == CondShapes(b)
  {
    if a != [] {
      AlikeShape(a[0], b[0]);
      AlikeCondShapes(a[1..], b[1..]);
    }
  }

  lemma {:induction false} AlikeShapes(a: seq<Rule>, b: seq<Rule>)
    requires AlikeRules(a, b)
    ensures ShapesOf(a) == ShapesOf(b) && ShapesOf(Enabled(a)) == ShapesOf(Enabled(b))
  {
    if a != [] {
      assert AlikeRule(a[0], b[0]);
      AlikeCondShapes(a[0].conditions, b[0].conditions);
      AlikeShapes(a[1..], b[1..]);
      ShapesConcat(if a[0].enabled then [a[0]] else [], Enabled(a[1..]));
      ShapesConcat(if b[0].enabled then [b[0]] else [], Enabled(b[1..]));
    }
  }

  lemma {:induction false} ShapesConcat(a: seq<Rule>, b: seq<Rule>)
    ensures ShapesOf(a + b) == ShapesOf(a) + ShapesOf(b)
  {
    if a == [] {
      assert a + b == b;
    } else {
      assert (a + b)[0] == a[0] && (a + b)[1..] == a[1..] + b;
      ShapesConcat(a[1..], b);
    }
  }

  lemma {:induction false} InsertShapes(r: Rule, rules: seq<Rule>)
    ensures multiset(ShapesOf(Insert(r, rules))) == multiset(ShapesOf(rules)) + multiset{RuleShapeOf(r)}
  {
    if rules != [] && !Before(r, rules[0]) {
      InsertShapes(r, rules[1..]);
      assert Insert(r, rules)[1..] == Insert(r, rules[1..]);
    } else {
      assert ([r] + rules)[1..] == rules;
    }
  }

  lemma {:induction false} SortShapes(rules: seq<Rule>)
    ensures multiset(ShapesOf(Sort(rules))) == multiset(ShapesOf(rules))
  {
    if rules != [] {
      SortShapes(rules[1..]);
      InsertShapes(rules[0], Sort(rules[1..]));
    }
  }

  /** Text can move code but not create any: chains that differ only in ids, names, descriptions and
      operand text have active rules of the same shapes, counted with their multiplicity. */
  lemma {:induction false} TextOnlyMoves(a: Chain, b: Chain)
    requires AlikeRules(a.rules, b.rules)
    ensures multiset(ShapesOf(Active(a))) == multiset(ShapesOf(Active(b)))
  {
    AlikeShapes(a.rules, b.rules);
    SortShapes(Enabled(a.rules));
    SortShapes(Enabled(b.rules));
  }

  /** Skeleton invariance, exactly: such chains, when both compile, have the same skeleton if and only if
      the shapes of their active rules come in the same order. */
  lemma {:induction false} SkeletonInvariant(a: Chain, b: Chain, version: int)
    requires AlikeRules(a.rules, b.rules) && a.shadowMode == b.shadowMode
    requires CompileText(a, version).Ok? && CompileText(b, version).Ok?
    ensures SkeletonOf(a, version) == SkeletonOf(b, version) <==> ShapesOf(Active(a)) == ShapesOf(Active(b))
    ensures multiset(ShapesOf(Active(a))) == multiset(ShapesOf(Active(b)))
  {
    SkeletonExact(a, version, b, version);
    TextOnlyMoves(a, b);
  }

  // ---------------------------------------------------------------- ids and the order of rules

  function Firsts(ps: seq<(Rule, Rule)>): (r: seq<Rule>)
    ensures |r| == |ps|
  {
    if ps == [] then [] else [ps[0].0] + Firsts(ps[1..])
  }

  function Seconds(ps: seq<(Rule, Rule)>): (r: seq<Rule>)
    ensures |r| == |ps|
  {
    if ps == [] then [] else [ps[0].1] + Seconds(ps[1..])
  }

  function Zip(a: seq<Rule>, b: seq<Rule>): (r: seq<(Rule, Rule)>)
    requires |a| == |b|
    ensures |r| == |a|
  {
    seq(|a|, i requires 0 <= i < |a| => (a[i], b[i]))
  }

  lemma {:induction false} ZipSides(a: seq<Rule>, b: seq<Rule>)
    requires |a| == |b|
    ensures Firsts(Zip(a, b)) == a && Seconds(Zip(a, b)) == b
  {
    if a != [] {
      ZipSides(a[1..], b[1..]);
      assert Zip(a, b)[1..] == Zip(a[1..], b[1..]);
      assert a == [a[0]] + a[1..] && b == [b[0]] + b[1..];
    }
  }

  /** Both sides of the pairs are tried in the same order. */
  ghost predicate SameOrder(ps: seq<(Rule, Rule)>) {
    forall p, q :: p in ps && q in ps ==> (Before(p.0, q.0) <==> Before(p.1, q.1))
  }

  ghost predicate AllAlike(ps: seq<(Rule, Rule)>) { forall p :: p in ps ==> AlikeRule(p.0, p.1) }

  function EnabledPairs(ps: seq<(Rule, Rule)>): seq<(Rule, Rule)> {
    if ps == [] then []
    else (if ps[0].0.enabled then [ps[0]] else []) + EnabledPairs(ps[1..])
  }

  function InsertPair(p: (Rule, Rule), ps: seq<(Rule, Rule)>): seq<(Rule, Rule)> {
    if ps == [] || Before(p.0, ps[0].0) then [p] + ps else [ps[0]] + InsertPair(p, ps[1..])
  }

  function SortPairs(ps: seq<(Rule, Rule)>): seq<(Rule, Rule)> {
    if ps == [] then [] else InsertPair(ps[0], SortPairs(ps[1..]))
  }

  lemma {:induction false} EnabledByPairs(ps: seq<(Rule, Rule)>)
    requires AllAlike(ps)
    ensures Firsts(EnabledPairs(ps)) == Enabled(Firsts(ps)) && Seconds(EnabledPairs(ps)) == Enabled(Seconds(ps))
    ensures forall p :: p in EnabledPairs(ps) ==> p in ps
  {
    if ps != [] {
      var rest := EnabledPairs(ps[1..]);
      assert AlikeRule(ps[0].0, ps[0].1) by { assert ps[0] in ps; }
      EnabledByPairs(ps[1..]);
      assert Firsts(ps)[1..] == Firsts(ps[1..]) && Seconds(ps)[1..] == Seconds(ps[1..]);
      if ps[0].0.enabled {
        assert EnabledPairs(ps) == [ps[0]] + rest && ([ps[0]] + rest)[1..] == rest;
      } else {
        assert EnabledPairs(ps) == rest;
      }
    }
  }

  lemma {:induction false} InsertByPairs(p: (Rule, Rule), ps: seq<(Rule, Rule)>)
    requires SameOrder([p] + ps)
    ensures Firsts(InsertPair(p, ps)) == Insert(p.0, Firsts(ps)) && Seconds(InsertPair(p, ps)) == Insert(p.1, Seconds(ps))
    ensures forall q :: q in InsertPair(p, ps) ==> q == p || q in ps
  {
    if ps != [] {
      var all := [p] + ps;
      assert p in all && ps[0] in all && forall q :: q in ps[1..] ==> q in all;
      InsertByPairs(p, ps[1..]);
      assert Firsts(ps)[1..] == Firsts(ps[1..]) && Seconds(ps)[1..] == Seconds(ps[1..]);
      assert all[1..] == ps;
    }
  }

  lemma {:induction false} SortByPairs(ps: seq<(Rule, Rule)>)
    requires SameOrder(ps)
    ensures Firsts(SortPairs(ps)) == Sort(Firsts(ps)) && Seconds(SortPairs(ps)) == Sort(Seconds(ps))
    ensures forall q :: q in SortPairs(ps) ==> q in ps
  {
    if ps != [] {
      var rest := SortPairs(ps[1..]);
      SortByPairs(ps[1..]);
      assert forall q :: q in [ps[0]] + rest ==> q in ps;
      InsertByPairs(ps[0], rest);
      assert Firsts(ps)[1..] == Firsts(ps[1..]) && Seconds(ps)[1..] == Seconds(ps[1..]);
    }
  }

  lemma {:induction false} PairsAlike(ps: seq<(Rule, Rule)>)
    requires AllAlike(ps)
    ensures AlikeRules(Firsts(ps), Seconds(ps))
  {
    if ps != [] {
      assert ps[0] in ps;
      PairsAlike(ps[1..]);
      var a, b := Firsts(ps), Seconds(ps);
      forall i | 0 <= i < |a| ensures AlikeRule(a[i], b[i]) {
        if i > 0 { assert a[i] == Firsts(ps[1..])[i - 1] && b[i] == Seconds(ps[1..])[i - 1]; }
      }
    }
  }

  /** In particular the shapes keep their order when the new ids keep the rules of equal `order` in the
      same relative order. */
  lemma {:induction false} AlikeActive(a: Chain, b: Chain)
    requires AlikeRules(a.rules, b.rules)
    requires forall i, j :: 0 <= i < |a.rules| && 0 <= j < |a.rules| ==>
               (Before(a.rules[i], a.rules[j]) <==> Before(b.rules[i], b.rules[j]))
    ensures AlikeRules(Active(a), Active(b)) && ShapesOf(Active(a)) == ShapesOf(Active(b))
  {
    var ps := Zip(a.rules, b.rules);
    ZipSides(a.rules, b.rules);
    EnabledByPairs(ps);
    SortByPairs(EnabledPairs(ps));
    PairsAlike(SortPairs(EnabledPairs(ps)));
    AlikeShapes(Active(a), Active(b));
  }

  lemma {:induction false} ActiveTwo(r: Rule, q: Rule, swaps: bool)
    requires r.enabled && q.enabled && swaps == !Before(r, q)
    ensures Active(Chain([r, q], FORWARD, false)) == if swaps then [q, r] else [r, q]
  {
    assert [r, q][1..] == [q] && [q][1..] == [];
    assert Enabled([q]) == [q] + Enabled([]);
    assert Enabled([r, q]) == [r] + [q];
    assert Sort([q]) == Insert(q, Sort([])) == [q];
    assert Sort([r, q]) == Insert(r, [q]);
    if swaps { assert Insert(r, [q]) == [q] + Insert(r, []); }
  }

  /** A rule of one test for the presence or absence of field `a`. */
  function Probe(id: string, op: Operator): Rule {
    Rule(id, "probe", "", true, 0, FORWARD, [Condition("a", op, NoValue, false)], "default", false, false, 1)
  }

  function Probes(first: string, second: string): Chain {
    Chain([Probe(first, EXISTS), Probe(second, NOT_EXISTS)], FORWARD, false)
  }

  lemma {:induction false} ProbeOk(id: string, op: Operator)
    requires op in {EXISTS, NOT_EXISTS} && |id| <= Encoder.MAX_STRING_LEN
    ensures ConditionsOk(Probe(id, op).conditions, _ => true) && Limits.RuleFits(Probe(id, op))
  {
    Operators.SplitA();
    assert Trim("a") == "a" && Lower("a") == "a" by { assert "a"[1..] == ""; LowerAt("a"); }
    assert ["a"][1..] == [];
    assert NormalizeSegments(["a"]) == ["a"] + NormalizeSegments([]);
    assert NormalizeField("a") == Ok("a");
  }

  lemma {:induction false} ProbesCompile(first: string, second: string, version: int)
    requires Limits.IntFits(version) && |first| <= 63 && |second| <= 63
    ensures CompileText(Probes(first, second), version).Ok?
  {
    ProbeOk(first, EXISTS);
    ProbeOk(second, NOT_EXISTS);
    Limits.ChainFits(Probes(first, second), version, _ => true);
  }

  lemma {:induction false} ProbeShapes(r: Rule, q: Rule)
    requires |r.conditions| == 1 && |q.conditions| == 1 && r.conditions[0].operator != q.conditions[0].operator
    ensures ShapesOf([r, q]) != ShapesOf([q, r])
  {
    assert ShapesOf([r, q])[0] == RuleShapeOf(r) && ShapesOf([q, r])[0] == RuleShapeOf(q);
    assert RuleShapeOf(r).conditions[0] == ShapeOf(r.conditions[0]);
    assert RuleShapeOf(q).conditions[0] == ShapeOf(q.conditions[0]);
  }

  /** User text alone can change the skeleton: two rules of equal order, tried as `a` then `b`, swap
      places when their ids are exchanged. Both chains compile, for every version. */
  lemma {:induction false} TiedIdsChangeSkeleton(version: int)
    requires Limits.IntFits(version)
    ensures AlikeRules(Probes("a", "b").rules, Probes("b", "a").rules)
    ensures CompileText(Probes("a", "b"), version).Ok? && CompileText(Probes("b", "a"), version).Ok?
    ensures SkeletonOf(Probes("a", "b"), version) != SkeletonOf(Probes("b", "a"), version)
  {
    AlikeProbes("a", "b", "b", "a");
    ProbesCompile("a", "b", version);
    ProbesCompile("b", "a", version);
    ProbesSwap();
    SkeletonsApart(Probes("a", "b"), Probes("b", "a"), version);
  }

  lemma {:induction false} AlikeProbes(first: string, second: string, third: string, fourth: string)
    ensures AlikeRules(Probes(first, second).rules, Probes(third, fourth).rules)
  {
    var r, q := Probe(first, EXISTS), Probe(second, NOT_EXISTS);
    var r', q' := Probe(third, EXISTS), Probe(fourth, NOT_EXISTS);
    assert AlikeRule(r, r') && AlikeRule(q, q');
  }

  lemma {:induction false} SkeletonsApart(a: Chain, b: Chain, version: int)
    requires CompileText(a, version).Ok? && CompileText(b, version).Ok?
    requires ShapesOf(Active(a)) != ShapesOf(Active(b))
    ensures SkeletonOf(a, version) != SkeletonOf(b, version)
  {
    SkeletonExact(a, version, b, version);
  }

  lemma {:induction false} ProbesSwap()
    ensures ShapesOf(Active(Probes("a", "b"))) != ShapesOf(Active(Probes("b", "a")))
  {
    var r, q := Probe("a", EXISTS), Probe("b", NOT_EXISTS);
    var r', q' := Probe("b", EXISTS), Probe("a", NOT_EXISTS);
    ActiveTwo(r, q, false);
    ActiveTwo(r', q', true);
    ProbeShapes(r, q);
    SwappedShapes(r', q', r, q);
  }

  lemma {:induction false} SwappedShapes(r: Rule, q: Rule, r': Rule, q': Rule)
    requires RuleShapeOf(r) == RuleShapeOf(r') && RuleShapeOf(q) == RuleShapeOf(q')
    ensures ShapesOf([q, r]) == ShapesOf([q', r'])
  {
    assert [q, r][1..] == [r] && [q', r'][1..] == [r'] && [r][1..] == [] && [r'][1..] == [];
    assert ShapesOf([r]) == [RuleShapeOf(r)] + ShapesOf([]);
    assert ShapesOf([r']) == [RuleShapeOf(r')] + ShapesOf([]);
  }
}
