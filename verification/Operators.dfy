/** Laws of the fifteen operators, on compiled conditions: complements, `in` against `eq`, thresholds and
    case folding. */
module Operators {
  import opened Common
  import opened Vrl
  import opened Rules
  import opened Compiler
  import opened Meaning
  import opened Correctness
  import Decimals
  import Encoder

  /** The condition's compiled test evaluates to true. */
  ghost predicate Passes(lib: Library, st: State, c: Condition)
    requires CompileCondition(c).Ok?
  {
    Eval(lib, st, CompileCondition(c).value) == Got(Bool(true))
  }

  lemma {:induction false} PassesMeans(lib: Library, st: State, ev: map<string, Val>, c: Condition)
    requires Sees(st, ev) && CompileCondition(c).Ok?
    ensures Passes(lib, st, c) <==> Holds(lib, ev, c)
    ensures !Passes(lib, st, c) <==> Eval(lib, st, CompileCondition(c).value) == Got(Bool(false))
  {
    ConditionMeans(lib, st, ev, c);
  }

  function Opposite(op: Operator): Operator
    requires op in {EQ, IN, EXISTS}
  {
    if op == EQ then NE else if op == IN then NOT_IN else NOT_EXISTS
  }

  /** `ne`, `not_in` and `not_exists` are the exact complements of `eq`, `in` and `exists`, on every
      event: one compiles when the other does, and exactly one of the two tests is true. */
  lemma {:induction false} ExactComplements(lib: Library, st: State, ev: map<string, Val>, c: Condition)
    requires Sees(st, ev) && c.operator in {EQ, IN, EXISTS} && CompileCondition(c).Ok?
    ensures var n := c.(operator := Opposite(c.operator));
            CompileCondition(n).Ok? && (Passes(lib, st, n) <==> !Passes(lib, st, c))
  {
    var n := c.(operator := Opposite(c.operator));
    EqualityTwins(c);
    PassesMeans(lib, st, ev, c);
    PassesMeans(lib, st, ev, n);
  }

  lemma {:induction false} EqualityTwins(c: Condition)
    ensures CompileEquality(c, EqEq).Ok? <==> CompileEquality(c.(operator := NE), NotEq).Ok?
    ensures CompileMembership(c) == CompileMembership(c.(operator := NOT_IN))
  {
  }

  function Converse(op: Operator): Operator
    requires op in {LT, LTE}
  {
    if op == LT then GTE else GT
  }

  /** A value with a float reading passes exactly one of `lt` and `gte`, and of `lte` and `gt`; a value
      without one passes none of the four. */
  lemma {:induction false} ThresholdComplements(lib: Library, st: State, ev: map<string, Val>, c: Condition)
    requires Sees(st, ev) && c.operator in {LT, LTE} && CompileCondition(c).Ok?
    ensures var n := c.(operator := Converse(c.operator));
            && CompileCondition(n).Ok?
            && (if lib.toFloat(FieldOf(ev, c.field)).Some? then Passes(lib, st, n) <==> !Passes(lib, st, c)
                else !Passes(lib, st, n) && !Passes(lib, st, c))
  {
    var n := c.(operator := Converse(c.operator));
    ThresholdTwins(c);
    ThresholdForm(c);
    ConversePasses(lib, st, ev, c, n);
  }

  lemma {:induction false} ConversePasses(lib: Library, st: State, ev: map<string, Val>, c: Condition, n: Condition)
    requires Sees(st, ev) && CompileCondition(c).Ok? && CompileCondition(n).Ok?
    requires c.operator in {LT, LTE} && n == c.(operator := Converse(c.operator))
    requires c.value.One? && ThresholdVal(c.value.v).Some?
    ensures if lib.toFloat(FieldOf(ev, c.field)).Some? then Passes(lib, st, n) <==> !Passes(lib, st, c)
            else !Passes(lib, st, n) && !Passes(lib, st, c)
  {
    PassesMeans(lib, st, ev, c);
    PassesMeans(lib, st, ev, n);
    ConverseHolds(lib, ev, c, n, ThresholdVal(c.value.v).value);
  }

  lemma {:induction false} ConverseHolds(lib: Library, ev: map<string, Val>, c: Condition, n: Condition, y: real)
    requires c.operator in {LT, LTE} && n == c.(operator := Converse(c.operator))
    requires c.value.One? && ThresholdVal(c.value.v) == Some(y)
    ensures if lib.toFloat(FieldOf(ev, c.field)).Some? then Holds(lib, ev, n) <==> !Holds(lib, ev, c)
            else !Holds(lib, ev, n) && !Holds(lib, ev, c)
  {
    ThresholdHolds(lib, ev, c, y);
    ThresholdHolds(lib, ev, n, y);
  }

  lemma {:induction false} ThresholdForm(c: Condition)
    requires c.operator in {LT, LTE} && CompileCondition(c).Ok?
    ensures c.value.One? && ThresholdVal(c.value.v).Some?
  {
    ThresholdReads(c.value);
  }

  lemma {:induction false} ThresholdTwins(c: Condition)
    requires c.operator in {LT, LTE} && CompileCondition(c).Ok?
    ensures CompileCondition(c.(operator := Converse(c.operator))).Ok?
  {
    var n := c.(operator := Converse(c.operator));
    CompilesThreshold(c);
    CompilesThreshold(n);
    SameParts(c, n);
  }

  lemma {:induction false} CompilesThreshold(c: Condition)
    requires IsNumericOp(c.operator)
    ensures CompileCondition(c) == CompileThreshold(c)
  {
    match c.operator
    case LT => assert CompileCondition(c) == CompileThreshold(c);
    case LTE => assert CompileCondition(c) == CompileThreshold(c);
    case GT => assert CompileCondition(c) == CompileThreshold(c);
    case GTE => assert CompileCondition(c) == CompileThreshold(c);
  }

  lemma {:induction false} SameParts(c: Condition, n: Condition)
    requires IsNumericOp(c.operator) && IsNumericOp(n.operator) && c.field == n.field && c.value == n.value
    ensures CompileThreshold(c).Ok? <==> CompileThreshold(n).Ok?
  {
  }

  // ---------------------------------------------------------------- `in` against `eq`

  lemma {:induction false} ScalarsEncode(vs: seq<Scalar>)
    ensures EncodeScalars(vs).Ok? <==> forall i :: 0 <= i < |vs| ==> EncodeScalar(vs[i]).Ok?
  {
    if vs != [] {
      ScalarsEncode(vs[1..]);
      assert forall i :: 0 < i < |vs| ==> vs[i] == vs[1..][i - 1];
    }
  }

  /** The `eq` condition on one item of the list. */
  function ItemEq(c: Condition, i: nat): Condition
    requires c.value.Many? && i < |c.value.vs|
  {
    Condition(c.field, EQ, One(c.value.vs[i]), c.caseSensitive)
  }

  lemma {:induction false} ItemEqCompiles(c: Condition, i: nat)
    requires c.operator == IN && CompileCondition(c).Ok? && c.value.Many? && i < |c.value.vs|
    ensures CompileCondition(ItemEq(c, i)).Ok?
  {
    if AllStrings(c.value.vs) {
      var items := FoldedTexts(c.value.vs, c.caseSensitive);
      FoldedVals(c.value.vs, c.caseSensitive);
      ScalarsEncode(items);
      assert EncodeScalar(items[i]).Ok?;
    } else {
      ScalarsEncode(c.value.vs);
      assert EncodeScalar(c.value.vs[i]).Ok?;
      if c.value.vs[i].SStr? { LowerAt(c.value.vs[i].s); }
    }
  }

  /** The `in` test and the `eq` tests on its items, as what they mean. */
  lemma {:induction false} InAndItems(lib: Library, st: State, ev: map<string, Val>, c: Condition)
    requires Sees(st, ev) && c.operator == IN && CompileCondition(c).Ok? && c.value.Many?
    ensures Passes(lib, st, c) <==> Holds(lib, ev, c)
    ensures forall i :: 0 <= i < |c.value.vs| ==>
              CompileCondition(ItemEq(c, i)).Ok? && (Passes(lib, st, ItemEq(c, i)) <==> Holds(lib, ev, ItemEq(c, i)))
  {
    PassesMeans(lib, st, ev, c);
    forall i | 0 <= i < |c.value.vs|
      ensures CompileCondition(ItemEq(c, i)).Ok? && (Passes(lib, st, ItemEq(c, i)) <==> Holds(lib, ev, ItemEq(c, i)))
    {
      ItemEqCompiles(c, i);
      PassesMeans(lib, st, ev, ItemEq(c, i));
    }
  }

  /** `in` over a list of strings is the disjunction of `eq` over its items. */
  lemma {:induction false} InIsSomeEq(lib: Library, st: State, ev: map<string, Val>, c: Condition)
    requires Sees(st, ev) && c.operator == IN && CompileCondition(c).Ok? && AllStrings(c.value.vs)
    ensures forall i :: 0 <= i < |c.value.vs| ==> CompileCondition(ItemEq(c, i)).Ok?
    ensures Passes(lib, st, c) <==> exists i :: 0 <= i < |c.value.vs| && Passes(lib, st, ItemEq(c, i))
  {
    InAndItems(lib, st, ev, c);
    HoldsSome(lib, ev, c);
  }

  lemma {:induction false} HoldsSome(lib: Library, ev: map<string, Val>, c: Condition)
    requires c.operator == IN && c.value.Many? && AllStrings(c.value.vs)
    ensures Holds(lib, ev, c) <==> exists i :: 0 <= i < |c.value.vs| && Holds(lib, ev, ItemEq(c, i))
  {
    var v, cs, vs := FieldOf(ev, c.field), c.caseSensitive, c.value.vs;
    assert forall i :: 0 <= i < |vs| ==>
      (Holds(lib, ev, ItemEq(c, i)) <==> Folded(vs[i].s, cs) == Folded(Textual(lib, v), cs));
  }

  /** `includes` and `==` agree on what is equal, and text equals only text. */
  ghost predicate OneEquality(lib: Library) {
    && (forall x, y :: lib.member(x, y) <==> SameValue(lib, y, x))
    && (forall x: Val, y: Val :: x.Str? != y.Str? ==> !lib.same(x, y))
  }

  /** The value is the item as written. */
  predicate IsItem(lib: Library, v: Val, item: Scalar) {
    if item.SStr? then v == Str(item.s) else SameValue(lib, v, ScalarVal(item))
  }

  /** The value's text is the item's, case folded. */
  predicate ReadsAs(lib: Library, v: Val, item: Scalar, cs: bool) {
    item.SStr? && Folded(Textual(lib, v), cs) == Folded(item.s, cs)
  }

  lemma {:induction false} ItemMeans(lib: Library, ev: map<string, Val>, c: Condition, i: nat)
    requires Sound(lib) && OneEquality(lib) && c.operator == IN && c.value.Many? && i < |c.value.vs|
    ensures var v, item := FieldOf(ev, c.field), c.value.vs[i];
            && (SameItem(lib, ScalarVal(item), v) <==> IsItem(lib, v, item))
            && (Holds(lib, ev, ItemEq(c, i)) <==>
                if item.SStr? then ReadsAs(lib, v, item, c.caseSensitive) else IsItem(lib, v, item))
            && (item.SStr? && IsItem(lib, v, item) ==> ReadsAs(lib, v, item, c.caseSensitive))
  {
    var v, item := FieldOf(ev, c.field), c.value.vs[i];
    assert lib.member(ScalarVal(item), v) <==> SameValue(lib, v, ScalarVal(item));
    if item.SStr? && !v.Str? { assert !lib.same(v, Str(item.s)); }
  }

  /** Over a mixed list `in` is not the disjunction of `eq`. On any event the two agree exactly when the
      field's value is one of the items as written, or its text is none of the string items folded. */
  lemma {:induction false} MixedInAgrees(lib: Library, st: State, ev: map<string, Val>, c: Condition)
    requires Sound(lib) && OneEquality(lib) && Sees(st, ev)
    requires c.operator == IN && CompileCondition(c).Ok? && c.value.Many? && !AllStrings(c.value.vs)
    ensures forall i :: 0 <= i < |c.value.vs| ==> CompileCondition(ItemEq(c, i)).Ok?
    ensures var v, vs := FieldOf(ev, c.field), c.value.vs;
            (Passes(lib, st, c) <==> exists i :: 0 <= i < |vs| && Passes(lib, st, ItemEq(c, i))) <==>
            (exists i :: 0 <= i < |vs| && IsItem(lib, v, vs[i]))
            || forall i :: 0 <= i < |vs| ==> !ReadsAs(lib, v, vs[i], c.caseSensitive)
  {
    var v, vs, cs := FieldOf(ev, c.field), c.value.vs, c.caseSensitive;
    InAndItems(lib, st, ev, c);
    forall i | 0 <= i < |vs|
      ensures SameItem(lib, ScalarVal(vs[i]), v) <==> IsItem(lib, v, vs[i])
      ensures Holds(lib, ev, ItemEq(c, i)) <==> if vs[i].SStr? then ReadsAs(lib, v, vs[i], cs) else IsItem(lib, v, vs[i])
      ensures vs[i].SStr? && IsItem(lib, v, vs[i]) ==> ReadsAs(lib, v, vs[i], cs)
    {
      ItemMeans(lib, ev, c, i);
    }
    MixedHolds(lib, ev, c);
  }

  lemma {:induction false} MixedHolds(lib: Library, ev: map<string, Val>, c: Condition)
    requires c.operator == IN && c.value.Many? && !AllStrings(c.value.vs)
    ensures Holds(lib, ev, c) <==>
              exists i :: 0 <= i < |c.value.vs| && SameItem(lib, ScalarVal(c.value.vs[i]), FieldOf(ev, c.field))
  {
  }

  /** A list of one string and one number, on one field, any case. */
  function PairIn(text: string, n: int): Condition {
    Condition("a", IN, Many([SStr(text), SInt(n)]), false)
  }

  /** On this event the `in` test over the pair fails and the `eq` test on its string passes. */
  ghost predicate Parts(lib: Library, ev: map<string, Val>, c: Condition)
    requires c.value.Many? && |c.value.vs| == 2
  {
    CompileCondition(c).Ok? && CompileCondition(ItemEq(c, 0)).Ok?
    && forall st :: Sees(st, ev) ==> !Passes(lib, st, c) && Passes(lib, st, ItemEq(c, 0))
  }

  lemma {:induction false} PairCompiles(text: string, n: int)
    requires |text| <= Encoder.MAX_STRING_LEN && 0 <= n < 0x8000_0000_0000_0000
    ensures CompileCondition(PairIn(text, n)).Ok?
  {
    SplitA();
    PairEncodes(SStr(text), SInt(n));
    Decimals.IntLiteral(n);
    RawMembership(PairIn(text, n));
  }

  lemma {:induction false} PairEncodes(x: Scalar, y: Scalar)
    ensures EncodeScalars([x, y]).Ok? <==> EncodeScalar(x).Ok? && EncodeScalar(y).Ok?
    ensures !y.SStr? ==> !AllStrings([x, y])
  {
    ScalarsEncode([x, y]);
    assert [x, y][0] == x && [x, y][1] == y;
  }

  lemma {:induction false} RawMembership(c: Condition)
    requires c.operator == IN && c.value.Many? && !AllStrings(c.value.vs)
    requires EncodePath(c.field).Ok? && EncodeValue(c.value).Ok?
    ensures CompileCondition(c).Ok?
  {
  }

  lemma {:induction false} PairParts(lib: Library, ev: map<string, Val>, text: string, n: int)
    requires Sound(lib) && OneEquality(lib) && |text| <= Encoder.MAX_STRING_LEN && 0 <= n < 0x8000_0000_0000_0000
    requires var v := FieldOf(ev, "a");
             v != Str(text) && !SameValue(lib, v, Int(n)) && ReadsAs(lib, v, SStr(text), false)
    ensures Parts(lib, ev, PairIn(text, n))
  {
    var c := PairIn(text, n);
    PairCompiles(text, n);
    ItemEqCompiles(c, 0);
    ItemMeans(lib, ev, c, 0);
    ItemMeans(lib, ev, c, 1);
    assert !c.value.vs[1].SStr?;
    MixedHolds(lib, ev, c);
    forall st | Sees(st, ev) ensures !Passes(lib, st, c) && Passes(lib, st, ItemEq(c, 0)) {
      InAndItems(lib, st, ev, c);
    }
  }

  /** The three ways to disagree: `in ["X", 1]` rejects the text `x`, `in ["", 1]` rejects an absent
      field, and `in ["2", 1]` rejects the number 2 when it converts to the text `2`; `eq` with the
      string accepts each. */
  lemma {:induction false} MixedInDiffers(lib: Library)
    requires Sound(lib) && OneEquality(lib)
    ensures Parts(lib, map["a" := Str("x")], PairIn("X", 1))
    ensures Parts(lib, map[], PairIn("", 1))
    ensures lib.toText(Int(2)) == Some("2") && !lib.same(Int(2), Int(1)) ==>
              Parts(lib, map["a" := Int(2)], PairIn("2", 1))
  {
    FieldA(map["a" := Str("x")], Str("x"));
    FieldA(map["a" := Int(2)], Int(2));
    SplitA();
    assert FieldOf(map[], "a") == Null;
    assert Lower("X") == "x" && Lower("x") == "x" by { LowerAt("X"); LowerAt("x"); }
    assert "X"[0] != "x"[0];
    PairParts(lib, map["a" := Str("x")], "X", 1);
    PairParts(lib, map[], "", 1);
    if lib.toText(Int(2)) == Some("2") && !lib.same(Int(2), Int(1)) {
      PairParts(lib, map["a" := Int(2)], "2", 1);
    }
  }

  /** A library whose equality is equality and whose numbers are printed in decimal. */
  function PlainLibrary(): Library {
    Library(_ => None, _ => None, (_, _) => None, _ => None, v => Some(PlainText(v)), (_, _) => None,
            (x, y) => x == y, (x, y) => x == y, Str(""), "")
  }

  function PlainText(v: Val): string {
    if v.Str? then v.s
    else if !v.Int? then ""
    else if v.i < 0 then "-" + Decimals.Digits(-v.i)
    else Decimals.Digits(v.i)
  }

  /** The assumptions can be met, and then all three happen. */
  lemma {:induction false} AllThreeDiffer()
    ensures var lib := PlainLibrary();
            && Sound(lib) && OneEquality(lib)
            && Parts(lib, map["a" := Str("x")], PairIn("X", 1)) && Parts(lib, map[], PairIn("", 1))
            && Parts(lib, map["a" := Int(2)], PairIn("2", 1))
  {
    var lib := PlainLibrary();
    assert Decimals.Digits(2) == "2";
    assert lib.toText(Int(2)) == Some("2");
    MixedInDiffers(lib);
  }

  lemma {:induction false} SplitA()
    ensures Encoder.Split("a") == ["a"] && EncodePath("a").Ok?
  {
    assert Encoder.Split("") == [""] && "a"[1..] == "";
    assert Encoder.Split("a") == [['a'] + ""] + [""][1..];
    assert [""][1..] == [] && ['a'] + "" == "a";
  }

  lemma {:induction false} FieldA(ev: map<string, Val>, v: Val)
    requires ev == map["a" := v]
    ensures FieldOf(ev, "a") == v
  {
    SplitA();
    assert ["a"][1..] == [];
    assert Walk(v, []) == v;
  }

  /** `eq` with a number does not coerce the field: a text that reads as the number passes `lte` and
      `gte` but not `eq`. */
  lemma {:induction false} NumericEqDoesNotCoerce(lib: Library, n: int, text: string)
    requires Sound(lib) && OneEquality(lib) && lib.toFloat(Str(text)) == Some(n as real)
    ensures var ev := map["a" := Str(text)];
            && !Holds(lib, ev, Condition("a", EQ, One(SInt(n)), false))
            && Holds(lib, ev, Condition("a", LTE, One(SInt(n)), false))
            && Holds(lib, ev, Condition("a", GTE, One(SInt(n)), false))
  {
    FieldA(map["a" := Str(text)], Str(text));
  }

  // ---------------------------------------------------------------- case folding

  /** Folding the literal when the rule is compiled is the same as lower-casing it when it runs. */
  lemma {:induction false} FoldWhenCompiled(lib: Library, st: State, ev: map<string, Val>, c: Condition)
    requires Sees(st, ev) && c.operator == EQ && !c.caseSensitive && c.value.One? && c.value.v.SStr?
    requires CompileCondition(c).Ok?
    ensures var folding := Paren(Bin(EqEq, Call1(Downcase, TextExpr(EncodePath(c.field).value)),
                                     Call1(Downcase, LitStr(c.value.v.s))));
            Eval(lib, st, CompileCondition(c).value) == Eval(lib, st, folding)
  {
    var left := Call1(Downcase, TextExpr(EncodePath(c.field).value));
    EvalStringOperand(lib, st, ev, c.field, false);
    EvalOne(lib, st, LitStr(c.value.v.s));
    EvalCompare(lib, st, EqEq, left, LitStr(Lower(c.value.v.s)));
    EvalCompare(lib, st, EqEq, left, Call1(Downcase, LitStr(c.value.v.s)));
  }
}
