/** Every compiled operand and condition evaluates to what it means. */
module Correctness {
  import opened Common
  import opened Vrl
  import opened Rules
  import opened Compiler
  import opened Meaning
  import Decimals
  import Encoder
  import Globs

  // ---------------------------------------------------------------- operands

  function Strs(segments: seq<string>): (r: seq<Val>)
    ensures |r| == |segments|
  {
    if segments == [] then [] else [Str(segments[0])] + Strs(segments[1..])
  }

  lemma {:induction false} SegmentsOfStrs(segments: seq<string>)
    ensures Segments(Strs(segments)) == Some(segments)
  {
    if segments != [] {
      SegmentsOfStrs(segments[1..]);
      assert Strs(segments)[1..] == Strs(segments[1..]);
      assert Strs(segments)[0] == Str(segments[0]);
      assert segments == [segments[0]] + segments[1..];
    }
  }

  lemma {:induction false} EvalLiterals(lib: Library, st: State, segments: seq<string>)
    ensures EvalAll(lib, st, Literals(segments)) == GotAll(Strs(segments))
  {
    if segments != [] {
      EvalLiterals(lib, st, segments[1..]);
      assert Literals(segments)[1..] == Literals(segments[1..]);
    }
  }

  lemma {:induction false} EvalOne(lib: Library, st: State, a: Expr)
    ensures EvalAll(lib, st, [a]) ==
            match Eval(lib, st, a)
            case Got(v) => GotAll([v])
            case Failed => FailedOne
            case Aborted => AbortedOne
  {
    assert [a][1..] == [];
    assert EvalAll(lib, st, []) == GotAll([]);
  }

  lemma {:induction false} EvalTwo(lib: Library, st: State, a: Expr, b: Expr)
    requires Eval(lib, st, a).Got?
    ensures EvalAll(lib, st, [a, b]) ==
            match Eval(lib, st, b)
            case Got(v) => GotAll([Eval(lib, st, a).v, v])
            case Failed => FailedOne
            case Aborted => AbortedOne
  {
    assert [a, b][1..] == [b];
    EvalOne(lib, st, b);
  }

  lemma {:induction false} EvalOrElse(lib: Library, st: State, a: Expr, b: Expr)
    ensures Eval(lib, st, OrElse(a, b)) == if Eval(lib, st, a).Failed? then Eval(lib, st, b) else Eval(lib, st, a)
  {
    assert Eval(lib, st, OrElse(a, b)) == Eval(lib, st, Bin(Coalesce, a, b));
  }

  lemma {:induction false} EvalCompare(lib: Library, st: State, op: Op, a: Expr, b: Expr)
    requires op in {EqEq, NotEq, Lt, Le, Gt, Ge}
    requires Eval(lib, st, a).Got? && Eval(lib, st, b).Got?
    ensures Eval(lib, st, Paren(Bin(op, a, b))) == Strict(lib, op, Eval(lib, st, a).v, Eval(lib, st, b).v)
  {
    assert Eval(lib, st, Paren(Bin(op, a, b))) == Eval(lib, st, Bin(op, a, b));
  }

  /** `get(v, path)` on an object, with any fallback. */
  lemma {:induction false} EvalGet(lib: Library, st: State, from: Name, m: map<string, Val>, path: seq<string>)
    requires from in st.env && st.env[from] == Obj(m)
    ensures Eval(lib, st, Call2(Get, Var(from), Array(Literals(path)))) == Got(Walk(Obj(m), path))
  {
    EvalLiterals(lib, st, path);
    SegmentsOfStrs(path);
    EvalTwo(lib, st, Var(from), Array(Literals(path)));
  }

  lemma {:induction false} EvalToText(lib: Library, st: State, a: Expr, v: Val)
    requires Eval(lib, st, a) == Got(v)
    ensures Eval(lib, st, Call1(ToString, a)) == if lib.toText(v).Some? then Got(Str(lib.toText(v).value)) else Failed
  {
    EvalOne(lib, st, a);
  }

  lemma {:induction false} EvalValue(lib: Library, st: State, ev: map<string, Val>, field: string)
    requires Ev in st.env && st.env[Ev] == Obj(ev) && EncodePath(field).Ok?
    ensures Eval(lib, st, ValueExpr(EncodePath(field).value)) == Got(FieldOf(ev, field))
  {
    EvalGet(lib, st, Ev, ev, Encoder.Split(field));
    EvalOrElse(lib, st, Call2(Get, Var(Ev), EncodePath(field).value), LitNull);
  }

  lemma {:induction false} EvalText(lib: Library, st: State, ev: map<string, Val>, field: string)
    requires Ev in st.env && st.env[Ev] == Obj(ev) && EncodePath(field).Ok?
    ensures Eval(lib, st, TextExpr(EncodePath(field).value)) == Got(Str(Textual(lib, FieldOf(ev, field))))
  {
    var value := ValueExpr(EncodePath(field).value);
    EvalValue(lib, st, ev, field);
    EvalToText(lib, st, value, FieldOf(ev, field));
    EvalOrElse(lib, st, Call1(ToString, value), LitStr(""));
  }

  lemma {:induction false} EvalStringOperand(lib: Library, st: State, ev: map<string, Val>, field: string, cs: bool)
    requires Ev in st.env && st.env[Ev] == Obj(ev) && EncodePath(field).Ok?
    ensures Eval(lib, st, StringOperand(EncodePath(field).value, cs)) ==
            Got(Str(Folded(Textual(lib, FieldOf(ev, field)), cs)))
  {
    EvalText(lib, st, ev, field);
    EvalOne(lib, st, TextExpr(EncodePath(field).value));
  }

  lemma {:induction false} EvalNumber(lib: Library, st: State, ev: map<string, Val>, field: string)
    requires Ev in st.env && st.env[Ev] == Obj(ev) && EncodePath(field).Ok?
    ensures var x := lib.toFloat(FieldOf(ev, field));
            Eval(lib, st, NumberExpr(EncodePath(field).value)) == Got(if x.Some? then Float(x.value) else Null)
  {
    var value := ValueExpr(EncodePath(field).value);
    EvalValue(lib, st, ev, field);
    EvalOne(lib, st, value);
    EvalOrElse(lib, st, Call1(ToFloat, value), LitNull);
  }

  lemma {:induction false} EvalScalar(lib: Library, st: State, v: Scalar)
    requires EncodeScalar(v).Ok?
    ensures Eval(lib, st, EncodeScalar(v).value) == Got(ScalarVal(v))
  {
    match v
    case SInt(i) => Decimals.IntLiteral(i);
    case SFloat(f) => FloatHasPoint(f);
    case _ =>
  }

  lemma {:induction false} FloatHasPoint(f: Decimals.Float)
    requires Decimals.EncodeFloat(f).Ok?
    ensures NumVal(Decimals.EncodeFloat(f).value) == Float(Decimals.RealOf(f))
  {
    Decimals.FloatLiteral(f);
  }

  lemma {:induction false} EvalScalars(lib: Library, st: State, vs: seq<Scalar>)
    requires EncodeScalars(vs).Ok?
    ensures EvalAll(lib, st, EncodeScalars(vs).value) == GotAll(ScalarVals(vs))
  {
    if vs != [] {
      EvalScalar(lib, st, vs[0]);
      EvalScalars(lib, st, vs[1..]);
      var es := EncodeScalars(vs).value;
      assert es[1..] == EncodeScalars(vs[1..]).value;
      assert ScalarVals(vs) == [ScalarVal(vs[0])] + ScalarVals(vs[1..]);
    }
  }

  lemma {:induction false} EvalEncoded(lib: Library, st: State, v: CondValue)
    requires EncodeValue(v).Ok?
    ensures Eval(lib, st, EncodeValue(v).value) == Got(CondVal(v))
  {
    match v
    case One(s) => EvalScalar(lib, st, s);
    case Many(vs) => EvalScalars(lib, st, vs);
  }

  // ---------------------------------------------------------------- conditions

  /** The state in which rules are evaluated: `ev` holds the event's fields. */
  ghost predicate Sees(st: State, ev: map<string, Val>) {
    Ev in st.env && st.env[Ev] == Obj(ev)
  }

  lemma {:induction false} EqualityMeans(lib: Library, st: State, ev: map<string, Val>, c: Condition, op: Op)
    requires Sees(st, ev) && op in {EqEq, NotEq} && CompileEquality(c, op).Ok?
    ensures var same := Equals(lib, FieldOf(ev, c.field), c.value, c.caseSensitive);
            Eval(lib, st, CompileEquality(c, op).value) == Got(Bool(same == op.EqEq?))
  {
    var path := EncodePath(c.field).value;
    if c.value.One? && c.value.v.SStr? {
      EvalStringOperand(lib, st, ev, c.field, c.caseSensitive);
      EvalCompare(lib, st, op, StringOperand(path, c.caseSensitive), LitStr(FoldedText(c.value.v.s, c.caseSensitive)));
    } else {
      EvalValue(lib, st, ev, c.field);
      EvalEncoded(lib, st, c.value);
      EvalCompare(lib, st, op, ValueExpr(path), EncodeValue(c.value).value);
    }
  }

  lemma {:induction false} FoldedVals(vs: seq<Scalar>, cs: bool)
    requires AllStrings(vs)
    ensures AllStrings(FoldedTexts(vs, cs))
    ensures forall i :: 0 <= i < |vs| ==> FoldedTexts(vs, cs)[i] == SStr(Folded(vs[i].s, cs))
  {
    if vs != [] { FoldedVals(vs[1..], cs); }
  }

  lemma {:induction false} EvalIncludes(lib: Library, st: State, items: seq<Scalar>, operand: Expr, v: Val)
    requires EncodeScalars(items).Ok? && Eval(lib, st, operand) == Got(v)
    ensures Eval(lib, st, Call2(Includes, Array(EncodeScalars(items).value), operand)) ==
            Got(Bool(HasItem(lib, ScalarVals(items), v)))
  {
    EvalScalars(lib, st, items);
    EvalTwo(lib, st, Array(EncodeScalars(items).value), operand);
  }

  lemma {:induction false} MembershipMeans(lib: Library, st: State, ev: map<string, Val>, c: Condition)
    requires Sees(st, ev) && CompileMembership(c).Ok?
    ensures c.value.Many?
    ensures Eval(lib, st, CompileMembership(c).value) ==
            Got(Bool(IsMember(lib, FieldOf(ev, c.field), c.value.vs, c.caseSensitive)))
  {
    var path, cs, v := EncodePath(c.field).value, c.caseSensitive, FieldOf(ev, c.field);
    if AllStrings(c.value.vs) {
      var items := FoldedTexts(c.value.vs, cs);
      EvalStringOperand(lib, st, ev, c.field, cs);
      FoldedVals(c.value.vs, cs);
      EvalIncludes(lib, st, items, StringOperand(path, cs), Str(Folded(Textual(lib, v), cs)));
      StringItems(lib, c.value.vs, cs, Folded(Textual(lib, v), cs));
    } else {
      EvalValue(lib, st, ev, c.field);
      EvalIncludes(lib, st, c.value.vs, ValueExpr(path), v);
      RawItems(lib, c.value.vs, v);
    }
  }

  lemma {:induction false} StringItems(lib: Library, vs: seq<Scalar>, cs: bool, text: string)
    requires AllStrings(vs)
    ensures HasItem(lib, ScalarVals(FoldedTexts(vs, cs)), Str(text)) <==>
            exists i :: 0 <= i < |vs| && Folded(vs[i].s, cs) == text
  {
    var items := ScalarVals(FoldedTexts(vs, cs));
    FoldedVals(vs, cs);
    assert forall i :: 0 <= i < |vs| ==> items[i] == Str(Folded(vs[i].s, cs));
    assert forall i :: 0 <= i < |vs| ==> (SameItem(lib, items[i], Str(text)) <==> Folded(vs[i].s, cs) == text);
  }

  lemma {:induction false} RawItems(lib: Library, vs: seq<Scalar>, v: Val)
    ensures HasItem(lib, ScalarVals(vs), v) <==>
            exists i :: 0 <= i < |vs| && SameItem(lib, ScalarVal(vs[i]), v)
  {
    assert forall i :: 0 <= i < |vs| ==> ScalarVals(vs)[i] == ScalarVal(vs[i]);
  }

  lemma {:induction false} StringTestMeans(lib: Library, st: State, ev: map<string, Val>, c: Condition)
    requires Sees(st, ev) && c.operator in {CONTAINS, STARTS_WITH, ENDS_WITH} && CompileStringTest(c).Ok?
    ensures Eval(lib, st, CompileStringTest(c).value) == Got(Bool(Holds(lib, ev, c)))
  {
    var text, cs := Textual(lib, FieldOf(ev, c.field)), c.caseSensitive;
    EvalText(lib, st, ev, c.field);
    EvalTextTest(lib, st, StringFunc(c.operator), TextExpr(EncodePath(c.field).value), text, c.value.v.s, cs);
    StringTestHolds(lib, ev, c, Folded(text, cs), Folded(c.value.v.s, cs));
  }

  lemma {:induction false} StringTestHolds(lib: Library, ev: map<string, Val>, c: Condition, text: string, needle: string)
    requires c.operator in {CONTAINS, STARTS_WITH, ENDS_WITH} && c.value.One? && c.value.v.SStr?
    requires text == Folded(Textual(lib, FieldOf(ev, c.field)), c.caseSensitive)
    requires needle == Folded(c.value.v.s, c.caseSensitive)
    ensures Holds(lib, ev, c) == TextTest(StringFunc(c.operator), text, needle)
  {
  }

  lemma {:induction false} EvalTextTest(lib: Library, st: State, f: Func, operand: Expr, text: string, needle: string,
                                        cs: bool)
    requires f in {Contains_, StartsWith_, EndsWith_} && Eval(lib, st, operand) == Got(Str(text))
    ensures Eval(lib, st, Paren(Call(f, [operand, LitStr(needle)], Some(cs)))) ==
            Got(Bool(TextTest(f, Folded(text, cs), Folded(needle, cs))))
  {
    EvalTwo(lib, st, operand, LitStr(needle));
    EvalParen(lib, st, Call(f, [operand, LitStr(needle)], Some(cs)));
  }

  lemma {:induction false} EvalParen(lib: Library, st: State, e: Expr)
    ensures Eval(lib, st, Paren(e)) == Eval(lib, st, e)
  {
  }

  lemma {:induction false} EvalMatch(lib: Library, st: State, operand: Expr, text: string, pattern: string, ci: bool)
    requires Eval(lib, st, operand) == Got(Str(text)) && |pattern| <= Globs.MAX_GLOB_LEN
    ensures Eval(lib, st, Paren(Call2(Match, operand, LitRegex(Globs.GlobToRegex(pattern, ci).value)))) ==
            Got(Bool(Globs.GlobMatches(pattern, text, ci)))
  {
    Globs.GlobPreserved(pattern, text, ci);
    EvalMatchCall(lib, st, operand, text, Globs.GlobToRegex(pattern, ci).value);
  }

  lemma {:induction false} EvalMatchCall(lib: Library, st: State, operand: Expr, text: string, regex: string)
    requires Eval(lib, st, operand) == Got(Str(text)) && Globs.RegexMatches(regex, text).Some?
    ensures Eval(lib, st, Paren(Call2(Match, operand, LitRegex(regex)))) ==
            Got(Bool(Globs.RegexMatches(regex, text).value))
  {
    EvalTwo(lib, st, operand, LitRegex(regex));
    EvalParen(lib, st, Call2(Match, operand, LitRegex(regex)));
  }

  lemma {:induction false} GlobMeans(lib: Library, st: State, ev: map<string, Val>, c: Condition)
    requires Sees(st, ev) && c.operator == GLOB && CompileCondition(c).Ok?
    ensures Eval(lib, st, CompileCondition(c).value) == Got(Bool(Holds(lib, ev, c)))
  {
    var path := EncodePath(c.field).value;
    EvalText(lib, st, ev, c.field);
    EvalMatch(lib, st, TextExpr(path), Textual(lib, FieldOf(ev, c.field)), c.value.v.s, !c.caseSensitive);
  }

  lemma {:induction false} CidrMeans(lib: Library, st: State, ev: map<string, Val>, c: Condition)
    requires Sees(st, ev) && c.operator == CIDR && CompileCondition(c).Ok?
    ensures Eval(lib, st, CompileCondition(c).value) == Got(Bool(Holds(lib, ev, c)))
  {
    var literal, text := LitStr(c.value.v.s), TextExpr(EncodePath(c.field).value);
    EvalText(lib, st, ev, c.field);
    EvalTwo(lib, st, literal, text);
    EvalOrElse(lib, st, Call2(IpCidrContains, literal, text), LitBool(false));
  }

  lemma {:induction false} ThresholdReads(v: CondValue)
    requires Threshold(v).Ok? && Decimals.EncodeFloat(Threshold(v).value).Ok?
    ensures v.One? && ThresholdVal(v.v) == Some(Decimals.RealOf(Threshold(v).value))
  {
    Decimals.FloatLiteral(Threshold(v).value);
  }

  /** A comparison that fails is no match. */
  lemma {:induction false} EvalThreshold(lib: Library, st: State, op: Op, left: Expr, x: Option<real>, right: Expr, y: real)
    requires op in {Lt, Le, Gt, Ge}
    requires Eval(lib, st, left) == Got(if x.Some? then Float(x.value) else Null)
    requires Eval(lib, st, right) == Got(Float(y))
    ensures Eval(lib, st, OrElse(Paren(Bin(op, left, right)), LitBool(false))) ==
            Got(Bool(x.Some? && Compare(op, x.value, y)))
  {
    EvalCompare(lib, st, op, left, right);
    EvalOrElse(lib, st, Paren(Bin(op, left, right)), LitBool(false));
  }

  lemma {:induction false} ThresholdMeans(lib: Library, st: State, ev: map<string, Val>, c: Condition)
    requires Sees(st, ev) && IsNumericOp(c.operator) && CompileThreshold(c).Ok?
    ensures Eval(lib, st, CompileThreshold(c).value) == Got(Bool(Holds(lib, ev, c)))
  {
    ThresholdReads(c.value);
    var y := ThresholdVal(c.value.v).value;
    ThresholdEval(lib, st, ev, c, y);
    ThresholdHolds(lib, ev, c, y);
  }

  lemma {:induction false} ThresholdEval(lib: Library, st: State, ev: map<string, Val>, c: Condition, y: real)
    requires Sees(st, ev) && IsNumericOp(c.operator) && CompileThreshold(c).Ok?
    requires y == Decimals.RealOf(Threshold(c.value).value)
    ensures var x := lib.toFloat(FieldOf(ev, c.field));
            Eval(lib, st, CompileThreshold(c).value) ==
            Got(Bool(x.Some? && Compare(CompareOp(c.operator), x.value, y)))
  {
    var f := Threshold(c.value).value;
    var right := LitNum(Decimals.EncodeFloat(f).value);
    EvalNumber(lib, st, ev, c.field);
    FloatHasPoint(f);
    EvalThreshold(lib, st, CompareOp(c.operator), NumberExpr(EncodePath(c.field).value),
                  lib.toFloat(FieldOf(ev, c.field)), right, y);
  }

  lemma {:induction false} ThresholdHolds(lib: Library, ev: map<string, Val>, c: Condition, y: real)
    requires IsNumericOp(c.operator) && c.value.One? && ThresholdVal(c.value.v) == Some(y)
    ensures var x := lib.toFloat(FieldOf(ev, c.field));
            Holds(lib, ev, c) <==> x.Some? && Compare(CompareOp(c.operator), x.value, y)
  {
    var x := lib.toFloat(FieldOf(ev, c.field));
    if x.Some? { CompareAgrees(c.operator, x.value, y); }
  }

  lemma {:induction false} CompareAgrees(op: Operator, x: real, y: real)
    requires IsNumericOp(op)
    ensures Compare(CompareOp(op), x, y) == Beyond(op, x, y)
  {
  }

  lemma {:induction false} ExistsMeans(lib: Library, st: State, ev: map<string, Val>, c: Condition)
    requires Sees(st, ev) && c.operator in {EXISTS, NOT_EXISTS} && CompileCondition(c).Ok?
    ensures Eval(lib, st, CompileCondition(c).value) == Got(Bool(Holds(lib, ev, c)))
  {
    var op := if c.operator == EXISTS then NotEq else EqEq;
    EvalValue(lib, st, ev, c.field);
    EvalCompare(lib, st, op, ValueExpr(EncodePath(c.field).value), LitNull);
  }

  lemma {:induction false} NotMeans(lib: Library, st: State, e: Expr, b: bool)
    requires Eval(lib, st, e) == Got(Bool(b))
    ensures Eval(lib, st, Paren(e)) == Got(Bool(b)) && Eval(lib, st, Paren(Not(e))) == Got(Bool(!b))
  {
    EvalParen(lib, st, Not(e));
  }

  /** Every compiled condition evaluates, without error, to whether the condition holds. */
  lemma {:induction false} ConditionMeans(lib: Library, st: State, ev: map<string, Val>, c: Condition)
    requires Sees(st, ev) && CompileCondition(c).Ok?
    ensures Eval(lib, st, CompileCondition(c).value) == Got(Bool(Holds(lib, ev, c)))
  {
    match c.operator
    case EXISTS | NOT_EXISTS => ExistsMeans(lib, st, ev, c);
    case EQ => EqualityMeans(lib, st, ev, c, EqEq);
    case NE => EqualityMeans(lib, st, ev, c, NotEq);
    case IN | NOT_IN =>
      MembershipMeans(lib, st, ev, c);
      NotMeans(lib, st, CompileMembership(c).value, IsMember(lib, FieldOf(ev, c.field), c.value.vs, c.caseSensitive));
    case GLOB => GlobMeans(lib, st, ev, c);
    case CIDR => CidrMeans(lib, st, ev, c);
    case CONTAINS | STARTS_WITH | ENDS_WITH => StringTestMeans(lib, st, ev, c);
    case LT | LTE | GT | GTE => ThresholdMeans(lib, st, ev, c);
  }
}
