/**
 What of a condition its skeleton tells. A condition's shape is everything about it but its text: how
 many segments the field has, the operator, the case flag where text is compared, and the operand with
 every string blanked. The compiled test, blanked, shows the shape and nothing else.
 */
module Shapes {
  import opened Common
  import opened Vrl
  import opened Rules
  import opened Compiler
  import opened Skeleton
  import Decimals
  import Encoder
  import Globs

  // ---------------------------------------------------------------- shapes

  datatype Lit = AText | ABool(b: bool) | ANumber(lexeme: string)

  datatype Operand = Nothing | Item(l: Lit) | List(ls: seq<Lit>)

  /** `folds` is the case flag of a test that compares text, and none for other tests. */
  datatype CondShape = CondShape(segments: nat, operator: Operator, folds: Option<bool>, operand: Operand)

  /** A number as it is written; empty when it cannot be. */
  function Lexeme(r: Result<string>): string { if r.Ok? then r.value else "" }

  function LitOf(v: Scalar): Lit {
    match v
    case SStr(_) => AText
    case SBool(b) => ABool(b)
    case SInt(i) => ANumber(Lexeme(Decimals.EncodeInt(i)))
    case SFloat(f) => ANumber(Lexeme(Decimals.EncodeFloat(f)))
  }

  function LitsOf(vs: seq<Scalar>): (r: seq<Lit>)
    ensures |r| == |vs|
  {
    if vs == [] then [] else [LitOf(vs[0])] + LitsOf(vs[1..])
  }

  function OperandOf(v: CondValue): Operand {
    match v
    case NoValue => Nothing
    case One(s) => Item(LitOf(s))
    case Many(vs) => List(LitsOf(vs))
  }

  function ThresholdLit(v: CondValue): Lit {
    var f := Threshold(v);
    ANumber(if f.Ok? then Lexeme(Decimals.EncodeFloat(f.value)) else "")
  }

  /** Whether the condition compares text, folded or not. */
  predicate ComparesText(c: Condition) {
    match c.operator
    case EQ | NE => c.value.One? && c.value.v.SStr?
    case IN | NOT_IN => c.value.Many? && AllStrings(c.value.vs)
    case CONTAINS | STARTS_WITH | ENDS_WITH => true
    case _ => false
  }

  function ShapeOf(c: Condition): CondShape {
    CondShape(|Encoder.Split(c.field)|, c.operator, if ComparesText(c) then Some(c.caseSensitive) else None,
              if IsNumericOp(c.operator) then Item(ThresholdLit(c.value))
              else if c.operator in {EXISTS, NOT_EXISTS} then Nothing
              else OperandOf(c.value))
  }

  // ---------------------------------------------------------------- the test a shape is written as

  function LitExpr(l: Lit): Expr {
    match l case AText => LitStr("") case ABool(b) => LitBool(b) case ANumber(t) => LitNum(t)
  }

  function LitExprs(ls: seq<Lit>): (r: seq<Expr>)
    ensures |r| == |ls|
  {
    seq(|ls|, i requires 0 <= i < |ls| => LitExpr(ls[i]))
  }

  function OperandExpr(o: Operand): Expr {
    match o case Nothing => LitNull case Item(l) => LitExpr(l) case List(ls) => Array(LitExprs(ls))
  }

  function PathShape(n: nat): Expr { Array(seq(n, _ => LitStr(""))) }

  function LeftShape(s: CondShape): Expr {
    if s.folds.Some? then StringOperand(PathShape(s.segments), s.folds.value) else ValueExpr(PathShape(s.segments))
  }

  function TestShape(s: CondShape): Expr {
    var path := PathShape(s.segments);
    match s.operator
    case EXISTS => Paren(Bin(NotEq, ValueExpr(path), LitNull))
    case NOT_EXISTS => Paren(Bin(EqEq, ValueExpr(path), LitNull))
    case EQ => Paren(Bin(EqEq, LeftShape(s), OperandExpr(s.operand)))
    case NE => Paren(Bin(NotEq, LeftShape(s), OperandExpr(s.operand)))
    case IN => Paren(Call2(Includes, OperandExpr(s.operand), LeftShape(s)))
    case NOT_IN => Paren(Not(Call2(Includes, OperandExpr(s.operand), LeftShape(s))))
    case GLOB => Paren(Call2(Match, TextExpr(path), LitRegex("")))
    case CIDR => OrElse(Call2(IpCidrContains, LitStr(""), TextExpr(path)), LitBool(false))
    case CONTAINS | STARTS_WITH | ENDS_WITH =>
      Paren(Call(StringFunc(s.operator), [TextExpr(path), LitStr("")], s.folds))
    case LT | LTE | GT | GTE =>
      OrElse(Paren(Bin(CompareOp(s.operator), NumberExpr(path), OperandExpr(s.operand))), LitBool(false))
  }

  /** Shapes that conditions can have. */
  predicate Formed(s: CondShape) {
    match s.operator
    case EXISTS | NOT_EXISTS => s.folds.None? && s.operand.Nothing?
    case EQ | NE => !s.operand.Nothing?
    case IN | NOT_IN => s.operand.List?
    case GLOB | CIDR => s.folds.None? && s.operand == Item(AText)
    case CONTAINS | STARTS_WITH | ENDS_WITH => s.folds.Some? && s.operand == Item(AText)
    case LT | LTE | GT | GTE => s.folds.None? && s.operand.Item? && s.operand.l.ANumber?
  }

  lemma {:induction false} ShapeFormed(c: Condition)
    requires CompileCondition(c).Ok?
    ensures Formed(ShapeOf(c))
  {
  }

  // ---------------------------------------------------------------- a compiled condition, blanked, is its shape

  lemma {:induction false} BlankOne(f: Func, a: Expr)
    ensures BlankExpr(Call1(f, a)) == Call1(f, BlankExpr(a))
  {
    assert [a][1..] == [];
    assert BlankExprs([a]) == [BlankExpr(a)] + BlankExprs([]);
  }

  lemma {:induction false} BlankTwo(f: Func, a: Expr, b: Expr, cs: Option<bool>)
    ensures BlankExpr(Call(f, [a, b], cs)) == Call(f, [BlankExpr(a), BlankExpr(b)], cs)
  {
    assert [a, b][1..] == [b] && [b][1..] == [];
    assert BlankExprs([b]) == [BlankExpr(b)] + BlankExprs([]);
    assert BlankExprs([a, b]) == [BlankExpr(a)] + BlankExprs([b]);
  }

  lemma {:induction false} BlankOrElse(a: Expr, b: Expr)
    ensures BlankExpr(OrElse(a, b)) == OrElse(BlankExpr(a), BlankExpr(b))
  {
    assert BlankExpr(Bin(Coalesce, a, b)) == Bin(Coalesce, BlankExpr(a), BlankExpr(b));
  }

  lemma {:induction false} BlankTest(op: Op, a: Expr, b: Expr)
    ensures BlankExpr(Paren(Bin(op, a, b))) == Paren(Bin(op, BlankExpr(a), BlankExpr(b)))
  {
    assert BlankExpr(Bin(op, a, b)) == Bin(op, BlankExpr(a), BlankExpr(b));
  }

  lemma {:induction false} BlankParen(a: Expr)
    ensures BlankExpr(Paren(a)) == Paren(BlankExpr(a)) && BlankExpr(Paren(Not(a))) == Paren(Not(BlankExpr(a)))
  {
    assert BlankExpr(Not(a)) == Not(BlankExpr(a));
  }

  lemma {:induction false} BlankLiterals(segments: seq<string>)
    ensures BlankExprs(Literals(segments)) == seq(|segments|, _ => LitStr(""))
  {
    if segments != [] {
      BlankLiterals(segments[1..]);
      assert Literals(segments)[1..] == Literals(segments[1..]);
    }
  }

  lemma {:induction false} BlankPath(field: string)
    requires EncodePath(field).Ok?
    ensures BlankExpr(EncodePath(field).value) == PathShape(|Encoder.Split(field)|)
  {
    BlankLiterals(Encoder.Split(field));
  }

  /** Blanking reaches only the path in the expressions that read a field. */
  lemma {:induction false} BlankReads(path: Expr)
    ensures BlankExpr(ValueExpr(path)) == ValueExpr(BlankExpr(path))
    ensures BlankExpr(TextExpr(path)) == TextExpr(BlankExpr(path))
    ensures BlankExpr(NumberExpr(path)) == NumberExpr(BlankExpr(path))
  {
    BlankTwo(Get, Var(Ev), path, None);
    BlankOrElse(Call2(Get, Var(Ev), path), LitNull);
    BlankOne(ToString, ValueExpr(path));
    BlankOrElse(Call1(ToString, ValueExpr(path)), LitStr(""));
    BlankOne(ToFloat, ValueExpr(path));
    BlankOrElse(Call1(ToFloat, ValueExpr(path)), LitNull);
  }

  lemma {:induction false} BlankLeft(path: Expr, cs: bool)
    ensures BlankExpr(StringOperand(path, cs)) == StringOperand(BlankExpr(path), cs)
  {
    BlankReads(path);
    BlankOne(Downcase, TextExpr(path));
  }

  lemma {:induction false} BlankScalars(vs: seq<Scalar>)
    requires EncodeScalars(vs).Ok?
    ensures BlankExprs(EncodeScalars(vs).value) == LitExprs(LitsOf(vs))
  {
    if vs != [] {
      BlankScalars(vs[1..]);
      assert EncodeScalars(vs).value[1..] == EncodeScalars(vs[1..]).value;
      assert LitsOf(vs)[1..] == LitsOf(vs[1..]);
      assert LitExprs(LitsOf(vs)) == [LitExpr(LitOf(vs[0]))] + LitExprs(LitsOf(vs[1..]));
    }
  }

  lemma {:induction false} BlankValue(v: CondValue)
    requires EncodeValue(v).Ok?
    ensures BlankExpr(EncodeValue(v).value) == OperandExpr(OperandOf(v))
  {
    if v.Many? { BlankScalars(v.vs); }
  }

  lemma {:induction false} FoldedLits(vs: seq<Scalar>, cs: bool)
    requires AllStrings(vs)
    ensures LitsOf(FoldedTexts(vs, cs)) == LitsOf(vs)
  {
    if vs != [] {
      FoldedLits(vs[1..], cs);
      assert FoldedTexts(vs, cs)[1..] == FoldedTexts(vs[1..], cs);
    }
  }

  lemma {:induction false} EqualityShape(c: Condition, op: Op)
    requires op in {EqEq, NotEq} && c.operator in {EQ, NE} && CompileEquality(c, op).Ok?
    ensures BlankExpr(CompileEquality(c, op).value) ==
            Paren(Bin(op, LeftShape(ShapeOf(c)), OperandExpr(ShapeOf(c).operand)))
  {
    var path := EncodePath(c.field).value;
    BlankPath(c.field);
    if c.value.One? && c.value.v.SStr? {
      BlankLeft(path, c.caseSensitive);
      BlankTest(op, StringOperand(path, c.caseSensitive), LitStr(FoldedText(c.value.v.s, c.caseSensitive)));
    } else {
      BlankValue(c.value);
      BlankRawTest(op, path, EncodeValue(c.value).value);
    }
  }

  lemma {:induction false} MembershipShape(c: Condition)
    requires c.operator in {IN, NOT_IN} && CompileMembership(c).Ok?
    ensures BlankExpr(CompileMembership(c).value) ==
            Call2(Includes, OperandExpr(ShapeOf(c).operand), LeftShape(ShapeOf(c)))
  {
    if AllStrings(c.value.vs) {
      TextMembershipShape(c);
    } else {
      var path := EncodePath(c.field).value;
      BlankPath(c.field);
      BlankValue(c.value);
      BlankRawIncludes(EncodeValue(c.value).value, path);
    }
  }

  lemma {:induction false} BlankRawTest(op: Op, path: Expr, b: Expr)
    ensures BlankExpr(Paren(Bin(op, ValueExpr(path), b))) == Paren(Bin(op, ValueExpr(BlankExpr(path)), BlankExpr(b)))
  {
    BlankReads(path);
    BlankTest(op, ValueExpr(path), b);
  }

  lemma {:induction false} BlankRawIncludes(items: Expr, path: Expr)
    ensures BlankExpr(Call2(Includes, items, ValueExpr(path))) ==
            Call2(Includes, BlankExpr(items), ValueExpr(BlankExpr(path)))
  {
    BlankReads(path);
    BlankTwo(Includes, items, ValueExpr(path), None);
  }

  lemma {:induction false} TextMembershipShape(c: Condition)
    requires c.operator in {IN, NOT_IN} && c.value.Many? && AllStrings(c.value.vs) && CompileMembership(c).Ok?
    ensures BlankExpr(CompileMembership(c).value) ==
            Call2(Includes, OperandExpr(ShapeOf(c).operand), LeftShape(ShapeOf(c)))
  {
    var cs, vs := c.caseSensitive, c.value.vs;
    BlankPath(c.field);
    BlankScalars(FoldedTexts(vs, cs));
    FoldedLits(vs, cs);
    TextMembershipParts(c);
    BlankIncludes(EncodeScalars(FoldedTexts(vs, cs)).value, EncodePath(c.field).value, cs);
  }

  lemma {:induction false} TextMembershipParts(c: Condition)
    requires c.operator in {IN, NOT_IN} && c.value.Many? && AllStrings(c.value.vs) && CompileMembership(c).Ok?
    ensures LeftShape(ShapeOf(c)) == StringOperand(PathShape(|Encoder.Split(c.field)|), c.caseSensitive)
    ensures OperandExpr(ShapeOf(c).operand) == Array(LitExprs(LitsOf(c.value.vs)))
    ensures var items := EncodeScalars(FoldedTexts(c.value.vs, c.caseSensitive)).value;
            CompileMembership(c).value ==
            Call2(Includes, Array(items), StringOperand(EncodePath(c.field).value, c.caseSensitive))
  {
  }

  lemma {:induction false} BlankIncludes(items: seq<Expr>, path: Expr, cs: bool)
    ensures BlankExpr(Call2(Includes, Array(items), StringOperand(path, cs))) ==
            Call2(Includes, Array(BlankExprs(items)), StringOperand(BlankExpr(path), cs))
  {
    BlankLeft(path, cs);
    BlankTwo(Includes, Array(items), StringOperand(path, cs), None);
  }

  lemma {:induction false} ThresholdShape(c: Condition)
    requires IsNumericOp(c.operator) && CompileThreshold(c).Ok?
    ensures BlankExpr(CompileThreshold(c).value) == TestShape(ShapeOf(c))
  {
    BlankPath(c.field);
    ThresholdTest(c);
    BlankThreshold(EncodePath(c.field).value, CompareOp(c.operator),
                   Decimals.EncodeFloat(Threshold(c.value).value).value);
  }

  lemma {:induction false} ThresholdTest(c: Condition)
    requires IsNumericOp(c.operator) && CompileThreshold(c).Ok?
    ensures var lexeme := Decimals.EncodeFloat(Threshold(c.value).value).value;
            TestShape(ShapeOf(c)) ==
            OrElse(Paren(Bin(CompareOp(c.operator), NumberExpr(PathShape(|Encoder.Split(c.field)|)), LitNum(lexeme))),
                   LitBool(false))
  {
    var s := ShapeOf(c);
    ThresholdOperand(c);
    NumericTest(s);
  }

  lemma {:induction false} ThresholdOperand(c: Condition)
    requires IsNumericOp(c.operator) && CompileThreshold(c).Ok?
    ensures OperandExpr(ShapeOf(c).operand) == LitNum(Decimals.EncodeFloat(Threshold(c.value).value).value)
  {
  }

  lemma {:induction false} NumericTest(s: CondShape)
    requires IsNumericOp(s.operator)
    ensures TestShape(s) ==
            OrElse(Paren(Bin(CompareOp(s.operator), NumberExpr(PathShape(s.segments)), OperandExpr(s.operand))),
                   LitBool(false))
  {
  }

  lemma {:induction false} BlankThreshold(path: Expr, op: Op, lexeme: string)
    ensures BlankExpr(OrElse(Paren(Bin(op, NumberExpr(path), LitNum(lexeme))), LitBool(false))) ==
            OrElse(Paren(Bin(op, NumberExpr(BlankExpr(path)), LitNum(lexeme))), LitBool(false))
  {
    BlankReads(path);
    BlankTest(op, NumberExpr(path), LitNum(lexeme));
    BlankOrElse(Paren(Bin(op, NumberExpr(path), LitNum(lexeme))), LitBool(false));
  }

  lemma {:induction false} PatternShape(c: Condition)
    requires c.operator in {GLOB, CIDR} && CompileCondition(c).Ok?
    ensures BlankExpr(CompileCondition(c).value) == TestShape(ShapeOf(c))
  {
    BlankPath(c.field);
    if c.operator == GLOB {
      BlankMatch(EncodePath(c.field).value, Globs.GlobToRegex(c.value.v.s, !c.caseSensitive).value);
    } else {
      BlankCidr(EncodePath(c.field).value, c.value.v.s);
    }
  }

  lemma {:induction false} BlankMatch(path: Expr, regex: string)
    ensures BlankExpr(Paren(Call2(Match, TextExpr(path), LitRegex(regex)))) ==
            Paren(Call2(Match, TextExpr(BlankExpr(path)), LitRegex("")))
  {
    BlankReads(path);
    BlankTwo(Match, TextExpr(path), LitRegex(regex), None);
    BlankParen(Call2(Match, TextExpr(path), LitRegex(regex)));
  }

  lemma {:induction false} BlankCidr(path: Expr, cidr: string)
    ensures BlankExpr(OrElse(Call2(IpCidrContains, LitStr(cidr), TextExpr(path)), LitBool(false))) ==
            OrElse(Call2(IpCidrContains, LitStr(""), TextExpr(BlankExpr(path))), LitBool(false))
  {
    BlankReads(path);
    BlankTwo(IpCidrContains, LitStr(cidr), TextExpr(path), None);
    BlankOrElse(Call2(IpCidrContains, LitStr(cidr), TextExpr(path)), LitBool(false));
  }

  lemma {:induction false} StringTestShape(c: Condition)
    requires c.operator in {CONTAINS, STARTS_WITH, ENDS_WITH} && CompileStringTest(c).Ok?
    ensures BlankExpr(CompileStringTest(c).value) == TestShape(ShapeOf(c))
  {
    BlankPath(c.field);
    BlankFind(EncodePath(c.field).value, StringFunc(c.operator), c.value.v.s, c.caseSensitive);
  }

  lemma {:induction false} BlankFind(path: Expr, f: Func, needle: string, caseSensitive: bool)
    ensures BlankExpr(Paren(Call(f, [TextExpr(path), LitStr(needle)], Some(caseSensitive)))) ==
            Paren(Call(f, [TextExpr(BlankExpr(path)), LitStr("")], Some(caseSensitive)))
  {
    BlankReads(path);
    BlankTwo(f, TextExpr(path), LitStr(needle), Some(caseSensitive));
    BlankParen(Call(f, [TextExpr(path), LitStr(needle)], Some(caseSensitive)));
  }

  lemma {:induction false} ExistsShape(c: Condition)
    requires c.operator in {EXISTS, NOT_EXISTS} && CompileCondition(c).Ok?
    ensures BlankExpr(CompileCondition(c).value) == TestShape(ShapeOf(c))
  {
    BlankPath(c.field);
    BlankRawTest(if c.operator == EXISTS then NotEq else EqEq, EncodePath(c.field).value, LitNull);
  }

  /** The compiled test, its literals blanked, is the test of the condition's shape. */
  lemma {:induction false} ConditionShape(c: Condition)
    requires CompileCondition(c).Ok?
    ensures BlankExpr(CompileCondition(c).value) == TestShape(ShapeOf(c))
  {
    match c.operator
    case EXISTS | NOT_EXISTS => ExistsShape(c);
    case EQ => EqualityShape(c, EqEq);
    case NE => EqualityShape(c, NotEq);
    case IN | NOT_IN =>
      MembershipShape(c);
      BlankParen(CompileMembership(c).value);
    case GLOB | CIDR => PatternShape(c);
    case CONTAINS | STARTS_WITH | ENDS_WITH => StringTestShape(c);
    case LT | LTE | GT | GTE => ThresholdShape(c);
  }

  // ---------------------------------------------------------------- a test tells its shape

  /** The operator that a test was written for. */
  function Kind(e: Expr): Operator {
    if !e.Paren? then EXISTS
    else
      var t := e.e;
      match t
      case Not(_) => NOT_IN
      case Call(f, _, _) =>
        (match f
         case Includes => IN
         case Match => GLOB
         case Contains_ => CONTAINS
         case StartsWith_ => STARTS_WITH
         case _ => ENDS_WITH)
      case Bin(op, l, r) =>
        if op == Coalesce then
          if l.Paren? && l.e.Bin? then
            match l.e.op case Lt => LT case Le => LTE case Gt => GT case _ => GTE
          else CIDR
        else if op == EqEq then (if r == LitNull then NOT_EXISTS else EQ)
        else if r == LitNull then EXISTS
        else NE
      case _ => EXISTS
  }

  lemma {:induction false} KindTold(s: CondShape)
    requires Formed(s)
    ensures Kind(TestShape(s)) == s.operator && TestShape(s).Paren?
  {
  }

  lemma {:induction false} PathTold(m: nat, n: nat)
    requires PathShape(m) == PathShape(n)
    ensures m == n
  {
    assert |PathShape(m).items| == m && |PathShape(n).items| == n;
  }

  lemma {:induction false} PairTold(f: Func, a: Expr, b: Expr, c: Expr, d: Expr, p: Option<bool>, q: Option<bool>)
    requires Call(f, [a, b], p) == Call(f, [c, d], q)
    ensures a == c && b == d && p == q
  {
    assert [a, b][0] == a && [a, b][1] == b && [c, d][0] == c && [c, d][1] == d;
  }

  lemma {:induction false} OneTold(f: Func, a: Expr, b: Expr)
    requires Call1(f, a) == Call1(f, b)
    ensures a == b
  {
    assert [a][0] == a && [b][0] == b;
  }

  lemma {:induction false} ReadsTold(m: nat, n: nat)
    ensures ValueExpr(PathShape(m)) == ValueExpr(PathShape(n)) ==> m == n
    ensures TextExpr(PathShape(m)) == TextExpr(PathShape(n)) ==> m == n
    ensures NumberExpr(PathShape(m)) == NumberExpr(PathShape(n)) ==> m == n
  {
    var p, q := PathShape(m), PathShape(n);
    if ValueExpr(p) == ValueExpr(q) {
      PairTold(Get, Var(Ev), p, Var(Ev), q, None, None);
      PathTold(m, n);
    }
    if TextExpr(p) == TextExpr(q) { OneTold(ToString, ValueExpr(p), ValueExpr(q)); }
    if NumberExpr(p) == NumberExpr(q) { OneTold(ToFloat, ValueExpr(p), ValueExpr(q)); }
  }

  lemma {:induction false} LeftTold(s: CondShape, t: CondShape)
    requires LeftShape(s) == LeftShape(t)
    ensures s.segments == t.segments && s.folds == t.folds
  {
    ReadsTold(s.segments, t.segments);
    if s.folds == Some(false) && t.folds == Some(false) {
      OneTold(Downcase, TextExpr(PathShape(s.segments)), TextExpr(PathShape(t.segments)));
    }
  }

  lemma {:induction false} LitsTold(a: seq<Lit>, b: seq<Lit>)
    requires LitExprs(a) == LitExprs(b)
    ensures a == b
  {
    assert |LitExprs(a)| == |a| && |LitExprs(b)| == |b|;
    forall i | 0 <= i < |a| ensures a[i] == b[i] {
      assert LitExprs(a)[i] == LitExpr(a[i]) && LitExprs(b)[i] == LitExpr(b[i]);
    }
  }

  lemma {:induction false} OperandTold(a: Operand, b: Operand)
    requires OperandExpr(a) == OperandExpr(b)
    ensures a == b
  {
    if a.List? && b.List? { LitsTold(a.ls, b.ls); }
  }

  lemma {:induction false} CallTold(s: CondShape, t: CondShape)
    requires Formed(s) && Formed(t) && s.operator == t.operator && TestShape(s) == TestShape(t)
    requires s.operator in {IN, NOT_IN, CONTAINS, STARTS_WITH, ENDS_WITH, GLOB, CIDR}
    ensures s == t
  {
    var p, q := PathShape(s.segments), PathShape(t.segments);
    ReadsTold(s.segments, t.segments);
    if s.operator in {IN, NOT_IN} {
      PairTold(Includes, OperandExpr(s.operand), LeftShape(s), OperandExpr(t.operand), LeftShape(t), None, None);
      LeftTold(s, t);
      OperandTold(s.operand, t.operand);
    } else if s.operator == GLOB {
      PairTold(Match, TextExpr(p), LitRegex(""), TextExpr(q), LitRegex(""), None, None);
    } else if s.operator == CIDR {
      PairTold(IpCidrContains, LitStr(""), TextExpr(p), LitStr(""), TextExpr(q), None, None);
    } else {
      PairTold(StringFunc(s.operator), TextExpr(p), LitStr(""), TextExpr(q), LitStr(""), s.folds, t.folds);
    }
  }

  lemma {:induction false} CompareTold(s: CondShape, t: CondShape)
    requires Formed(s) && Formed(t) && s.operator == t.operator && TestShape(s) == TestShape(t)
    requires s.operator !in {IN, NOT_IN, CONTAINS, STARTS_WITH, ENDS_WITH, GLOB, CIDR}
    ensures s == t
  {
    ReadsTold(s.segments, t.segments);
    if s.operator in {EQ, NE} {
      LeftTold(s, t);
      OperandTold(s.operand, t.operand);
    } else if IsNumericOp(s.operator) {
      OperandTold(s.operand, t.operand);
    }
  }

  /** Different shapes are written as different tests. */
  lemma {:induction false} ShapeTold(s: CondShape, t: CondShape)
    requires Formed(s) && Formed(t) && TestShape(s) == TestShape(t)
    ensures s == t
  {
    KindTold(s);
    KindTold(t);
    if s.operator in {IN, NOT_IN, CONTAINS, STARTS_WITH, ENDS_WITH, GLOB, CIDR} {
      CallTold(s, t);
    } else {
      CompareTold(s, t);
    }
  }
}
