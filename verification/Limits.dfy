/** When a stored rule compiles: the limits of the encoder, spelled out, and nothing else. */
module Limits {
  import opened Common
  import opened Vrl
  import opened Rules
  import opened Compiler
  import opened Correctness
  import opened Operators
  import Decimals
  import Encoder
  import Globs

  predicate TextFits(s: string) { |s| <= 4096 }

  predicate IntFits(i: int) { -0x8000_0000_0000_0000 <= i < 0x8000_0000_0000_0000 }

  /** Finite, and at most 128 characters in plain decimal. */
  predicate FloatFits(f: Decimals.Float) { f.Finite? && |Decimals.PlainText(f)| <= 128 }

  predicate ScalarFits(v: Scalar) {
    match v
    case SStr(s) => TextFits(s)
    case SBool(_) => true
    case SInt(i) => IntFits(i)
    case SFloat(f) => FloatFits(f)
  }

  /** A threshold is written as a float, whatever it was given as; a bool is none. */
  predicate ThresholdFits(v: Scalar) {
    match v
    case SInt(i) => FloatFits(Decimals.Finite(i < 0, if i < 0 then -i else i, 0))
    case SFloat(f) => FloatFits(f)
    case _ => false
  }

  /** The operand is within the limits. A list of strings has none on its length, a mixed list 1024. */
  predicate OperandFits(c: Condition) {
    match c.value
    case NoValue => true
    case One(v) =>
      if IsNumericOp(c.operator) then ThresholdFits(v)
      else c.operator == GLOB || ScalarFits(v)
    case Many(vs) =>
      (forall i :: 0 <= i < |vs| ==> ScalarFits(vs[i])) && (AllStrings(vs) || |vs| <= 1024)
  }

  lemma {:induction false} ScalarFitsExactly(v: Scalar)
    ensures EncodeScalar(v).Ok? <==> ScalarFits(v)
  {
    match v
    case SStr(_) =>
    case SBool(_) =>
    case SInt(i) => Decimals.IntLiteral(i);
    case SFloat(f) => Decimals.FloatLiteral(f);
  }

  lemma {:induction false} FoldedFits(s: string, cs: bool)
    ensures EncodeText(FoldedText(s, cs)).Ok? <==> TextFits(s)
  {
    LowerAt(s);
  }

  lemma {:induction false} ScalarsFit(vs: seq<Scalar>)
    ensures EncodeScalars(vs).Ok? <==> forall i :: 0 <= i < |vs| ==> ScalarFits(vs[i])
  {
    ScalarsEncode(vs);
    forall i | 0 <= i < |vs| ensures EncodeScalar(vs[i]).Ok? <==> ScalarFits(vs[i]) { ScalarFitsExactly(vs[i]); }
  }

  lemma {:induction false} FoldedTextsFit(vs: seq<Scalar>, cs: bool)
    requires AllStrings(vs)
    ensures EncodeScalars(FoldedTexts(vs, cs)).Ok? <==> forall i :: 0 <= i < |vs| ==> ScalarFits(vs[i])
  {
    FoldedVals(vs, cs);
    ScalarsEncode(FoldedTexts(vs, cs));
    forall i | 0 <= i < |vs|
      ensures EncodeScalar(FoldedTexts(vs, cs)[i]).Ok? <==> ScalarFits(vs[i])
    {
      FoldedFits(vs[i].s, cs);
    }
  }

  lemma {:induction false} MembershipFits(c: Condition)
    requires c.operator in {IN, NOT_IN} && c.value.Many? && EncodePath(c.field).Ok?
    ensures CompileMembership(c).Ok? <==> OperandFits(c)
  {
    if AllStrings(c.value.vs) {
      FoldedTextsFit(c.value.vs, c.caseSensitive);
    } else {
      ScalarsFit(c.value.vs);
    }
  }

  lemma {:induction false} EqualityFits(c: Condition, op: Op)
    requires op in {EqEq, NotEq} && c.operator in {EQ, NE} && c.value.One? && EncodePath(c.field).Ok?
    ensures CompileEquality(c, op).Ok? <==> OperandFits(c)
  {
    if c.value.v.SStr? {
      FoldedFits(c.value.v.s, c.caseSensitive);
    } else {
      ScalarFitsExactly(c.value.v);
    }
  }

  lemma {:induction false} ThresholdFitsExactly(c: Condition)
    requires IsNumericOp(c.operator) && c.value.One? && EncodePath(c.field).Ok?
    ensures CompileThreshold(c).Ok? <==> OperandFits(c)
  {
    if Threshold(c.value).Ok? { Decimals.FloatLiteral(Threshold(c.value).value); }
  }

  lemma {:induction false} FieldEncodes(field: string)
    requires 1 <= |field| <= Encoder.MAX_FIELD_LEN && NormalizeField(field) == Ok(field)
    ensures EncodePath(field).Ok?
  {
    NormalizedFieldEncodes(field);
  }

  /** A path has at most 256 characters and no empty segment, a glob at most 512 characters. */
  lemma {:induction false} PathAndGlobFit(field: string, glob: string, ci: bool)
    ensures EncodePath(field).Ok? <==> 1 <= |field| <= 256 && "" !in Encoder.Split(field)
    ensures Globs.GlobToRegex(glob, ci).Ok? <==> |glob| <= 512
  {
  }

  /** A condition that the schema accepts compiles exactly when its operand is within the limits. A bool
      threshold passes the schema and never compiles. */
  lemma {:induction false} SchemaGap(c: Condition, validCidr: string -> bool)
    requires ConditionOk(c, validCidr)
    ensures CompileCondition(c).Ok? <==> OperandFits(c)
    ensures IsNumericOp(c.operator) && c.value.v.SBool? ==> CompileCondition(c) == Refused(WrongValueShape)
  {
    FieldEncodes(c.field);
    if c.operator in {IN, NOT_IN} {
      MembershipFits(c);
    } else if c.operator in {EQ, NE} {
      EqualityFits(c, if c.operator == EQ then EqEq else NotEq);
    } else if IsNumericOp(c.operator) {
      ThresholdFitsExactly(c);
    } else if c.operator == GLOB {
      Globs.GlobLiteralCloses(c.value.v.s, !c.caseSensitive);
    }
  }

  // ---------------------------------------------------------------- rules and chains

  predicate RuleFits(r: Rule) {
    TextFits(r.id) && IntFits(r.version) && forall i :: 0 <= i < |r.conditions| ==> OperandFits(r.conditions[i])
  }

  lemma {:induction false} PredicateFits(cs: seq<Condition>, validCidr: string -> bool)
    requires cs != [] && forall i :: 0 <= i < |cs| ==> ConditionOk(cs[i], validCidr)
    ensures CompilePredicate(cs).Ok? <==> forall i :: 0 <= i < |cs| ==> OperandFits(cs[i])
  {
    SchemaGap(cs[0], validCidr);
    if |cs| > 1 {
      PredicateFits(cs[1..], validCidr);
      assert forall i :: 0 < i < |cs| ==> cs[i] == cs[1..][i - 1];
    }
  }

  lemma {:induction false} RuleFitsExactly(r: Rule, validCidr: string -> bool)
    requires ConditionsOk(r.conditions, validCidr)
    ensures CompileRule(r).Ok? <==> RuleFits(r)
  {
    PredicateFits(r.conditions, validCidr);
    Decimals.IntLiteral(r.version);
  }

  lemma {:induction false} RulesFit(rules: seq<Rule>, validCidr: string -> bool)
    requires forall i :: 0 <= i < |rules| ==> ConditionsOk(rules[i].conditions, validCidr)
    ensures CompileRules(rules).Ok? <==> forall i :: 0 <= i < |rules| ==> RuleFits(rules[i])
  {
    if rules != [] {
      RuleFitsExactly(rules[0], validCidr);
      RulesFit(rules[1..], validCidr);
      assert forall i :: 0 < i < |rules| ==> rules[i] == rules[1..][i - 1];
    }
  }

  /** A chain of schema-valid rules compiles exactly when its version and every enabled rule's id,
      version and operands are within the limits. */
  lemma {:induction false} ChainFits(chain: Chain, version: int, validCidr: string -> bool)
    requires forall r :: r in chain.rules && r.enabled ==> ConditionsOk(r.conditions, validCidr)
    ensures CompileText(chain, version).Ok? <==>
              IntFits(version) && forall r :: r in chain.rules && r.enabled ==> RuleFits(r)
  {
    var rules := Active(chain);
    ActiveMembers(chain);
    assert forall i :: 0 <= i < |rules| ==> rules[i] in rules;
    RulesFit(rules, validCidr);
    Decimals.IntLiteral(version);
  }

  lemma {:induction false} ActiveMembers(chain: Chain)
    ensures forall r :: r in Active(chain) <==> r in chain.rules && r.enabled
  {
    EnabledMembers(chain.rules);
    SortSorts(Enabled(chain.rules));
    assert forall r :: r in Active(chain) <==> r in multiset(Active(chain));
    assert forall r :: r in Enabled(chain.rules) <==> r in multiset(Enabled(chain.rules));
  }
}
