/** Running the matching section: the first rule whose conditions hold is noted, and it is the one that decides. */
module Runs {
  import opened Common
  import opened Vrl
  import opened Rules
  import opened Compiler
  import opened Meaning
  import opened Correctness
  import Decimals

  // ---------------------------------------------------------------- matching

  lemma {:induction false} EvalAnd(lib: Library, st: State, a: Expr, x: bool, b: Expr, y: bool)
    requires Eval(lib, st, a) == Got(Bool(x)) && Eval(lib, st, b) == Got(Bool(y))
    ensures Eval(lib, st, Bin(And, a, b)) == Got(Bool(x && y))
  {
  }

  /** A compiled predicate evaluates to whether all the conditions hold. */
  lemma {:induction false} PredicateMeans(lib: Library, st: State, ev: map<string, Val>, cs: seq<Condition>)
    requires Sees(st, ev) && CompilePredicate(cs).Ok?
    ensures Eval(lib, st, CompilePredicate(cs).value) ==
            Got(Bool(AllHold(lib, ev, cs)))
  {
    ConditionMeans(lib, st, ev, cs[0]);
    if |cs| > 1 {
      PredicateMeans(lib, st, ev, cs[1..]);
      EvalAnd(lib, st, CompileCondition(cs[0]).value, Holds(lib, ev, cs[0]),
              CompilePredicate(cs[1..]).value, AllHold(lib, ev, cs[1..]));
      AllOfCons(lib, ev, cs);
    }
  }

  lemma {:induction false} AllOfCons(lib: Library, ev: map<string, Val>, cs: seq<Condition>)
    requires cs != []
    ensures AllHold(lib, ev, cs) <==> Holds(lib, ev, cs[0]) && AllHold(lib, ev, cs[1..])
  {
    if Holds(lib, ev, cs[0]) && AllHold(lib, ev, cs[1..]) {
      forall i | 0 <= i < |cs| ensures Holds(lib, ev, cs[i]) {
        if i > 0 { assert cs[i] == cs[1..][i - 1]; }
      }
    }
  }

  /** The first matching rule of a list. */
  ghost function FirstMatch(lib: Library, ev: map<string, Val>, rules: seq<Rule>): Option<Rule> {
    if rules == [] then None
    else if Matches(lib, ev, rules[0]) then Some(rules[0])
    else FirstMatch(lib, ev, rules[1..])
  }

  /** The state after a match has been noted. */
  function Mark(st: State, d: Option<Rule>): State {
    if d.None? then st
    else
      st.(env := st.env[MatchedId := Str(d.value.id)][MatchedVersion := Int(d.value.version)]
                       [MatchedAction := Str(ActionText(d.value.action))][MatchedShadow := Bool(d.value.shadow)]
                       [MatchedRetain := Bool(d.value.retainPayload)])
  }

  ghost predicate Unmarked(st: State) {
    MatchedId in st.env && MatchedVersion in st.env && MatchedAction in st.env
    && MatchedShadow in st.env && MatchedRetain in st.env
  }

  /** One statement of a list. */
  lemma {:induction false} Step(lib: Library, st: State, ss: seq<Stmt>, i: nat)
    requires i < |ss|
    ensures ExecAll(lib, st, ss[i..]) ==
            match Exec(lib, st, ss[i])
            case Halted => Halted
            case Running(st') => ExecAll(lib, st', ss[i + 1..])
  {
    assert ss[i..][0] == ss[i] && ss[i..][1..] == ss[i + 1..];
  }

  /** Assigns a literal. */
  predicate SetsLiteral(s: Stmt, n: Name, v: Val) {
    s.Assign? && s.n == n &&
    match s.e
    case LitNull => v == Null
    case LitBool(b) => v == Bool(b)
    case LitStr(t) => v == Str(t)
    case LitNum(t) => v == NumVal(t)
    case _ => false
  }

  function DefineAll(st: State, ns: seq<Name>, vs: seq<Val>): State
    requires |ns| == |vs|
    decreases ns
  {
    if ns == [] then st else DefineAll(Define(st, ns[0], vs[0]), ns[1..], vs[1..])
  }

  lemma {:induction false} LiteralsRun(lib: Library, st: State, ss: seq<Stmt>, ns: seq<Name>, vs: seq<Val>)
    requires |ss| == |ns| == |vs| && forall i :: 0 <= i < |ss| ==> SetsLiteral(ss[i], ns[i], vs[i])
    ensures ExecAll(lib, st, ss) == Running(DefineAll(st, ns, vs))
    decreases |ss|
  {
    if ss != [] {
      assert SetsLiteral(ss[0], ns[0], vs[0]);
      LiteralsRun(lib, Define(st, ns[0], vs[0]), ss[1..], ns[1..], vs[1..]);
    }
  }

  const MATCH_NAMES := [MatchedId, MatchedVersion, MatchedAction, MatchedShadow, MatchedRetain]

  function MarkVals(r: Rule): seq<Val> {
    [Str(r.id), Int(r.version), Str(ActionText(r.action)), Bool(r.shadow), Bool(r.retainPayload)]
  }

  lemma {:induction false} DefineFive(st: State, ns: seq<Name>, vs: seq<Val>)
    requires |ns| == |vs| == 5
    ensures DefineAll(st, ns, vs) ==
            st.(env := st.env[ns[0] := vs[0]][ns[1] := vs[1]][ns[2] := vs[2]][ns[3] := vs[3]][ns[4] := vs[4]])
  {
    var s1 := Define(st, ns[0], vs[0]);
    var s2 := Define(s1, ns[1], vs[1]);
    var s3 := Define(s2, ns[2], vs[2]);
    var s4 := Define(s3, ns[3], vs[3]);
    assert DefineAll(st, ns, vs) == DefineAll(s1, ns[1..], vs[1..]);
    assert DefineAll(s1, ns[1..], vs[1..]) == DefineAll(s2, ns[2..], vs[2..]);
    assert DefineAll(s2, ns[2..], vs[2..]) == DefineAll(s3, ns[3..], vs[3..]);
    assert DefineAll(s3, ns[3..], vs[3..]) == DefineAll(s4, ns[4..], vs[4..]);
  }

  lemma {:induction false} MarkedByFive(st: State, r: Rule)
    ensures DefineAll(st, MATCH_NAMES, MarkVals(r)) == Mark(st, Some(r))
  {
    DefineFive(st, MATCH_NAMES, MarkVals(r));
  }

  lemma {:induction false} RuleLiterals(r: Rule, lexeme: string, i: nat)
    requires NumVal(lexeme) == Int(r.version) && i < 5
    ensures SetsLiteral(RuleBody(r, LitNum(lexeme))[i], MATCH_NAMES[i], MarkVals(r)[i])
  {
  }

  lemma {:induction false} MarkingRuns(lib: Library, st: State, r: Rule, lexeme: string)
    requires NumVal(lexeme) == Int(r.version)
    ensures ExecAll(lib, st, RuleBody(r, LitNum(lexeme))) == Running(Mark(st, Some(r)))
  {
    var body := RuleBody(r, LitNum(lexeme));
    forall i | 0 <= i < 5 ensures SetsLiteral(body[i], MATCH_NAMES[i], MarkVals(r)[i]) {
      RuleLiterals(r, lexeme, i);
    }
    LiteralsRun(lib, st, body, MATCH_NAMES, MarkVals(r));
    MarkedByFive(st, r);
  }

  lemma {:induction false} RuleBodyRuns(lib: Library, st: State, r: Rule)
    requires CompileRule(r).Ok?
    ensures ExecAll(lib, st, CompileRule(r).value.body) == Running(Mark(st, Some(r)))
  {
    var lexeme := Decimals.EncodeInt(r.version).value;
    Decimals.IntLiteral(r.version);
    MarkingRuns(lib, st, r, lexeme);
    assert CompileRule(r).value.body == RuleBody(r, LitNum(lexeme));
  }

  lemma {:induction false} NotesRun(lib: Library, st: State, text: string)
    ensures ExecAll(lib, st, [Note(0, text)]) == Running(st)
    ensures ExecAll(lib, st, []) == Running(st)
  {
    assert [Note(0, text)][1..] == [];
  }

  lemma {:induction false} MarkStays(st: State, r: Rule)
    requires Unmarked(st)
    ensures Leave(st, Running(Mark(st, Some(r)))) == Running(Mark(st, Some(r)))
  {
    var marked := Mark(st, Some(r));
    assert (map n | n in marked.env && n in st.env :: marked.env[n]) == marked.env;
  }

  lemma {:induction false} ArmBodyRuns(lib: Library, st: State, rules: seq<Rule>, branches: seq<Branch>)
    requires rules != [] && CompileRules(rules) == Ok(branches) && Unmarked(st)
    ensures Leave(st, ExecAll(lib, st, ArmBody(branches))) == Running(Mark(st, Some(rules[0])))
  {
    var notes := if |branches| > 1 then [Note(0, branches[1].note)] else [];
    var marked := Mark(st, Some(rules[0]));
    assert branches[0] == CompileRule(rules[0]).value;
    RuleBodyRuns(lib, st, rules[0]);
    ExecAppend(lib, st, branches[0].body, notes);
    NotesRun(lib, marked, if |branches| > 1 then branches[1].note else "");
    MarkStays(st, rules[0]);
  }

  lemma {:induction false} ArmStep(lib: Library, st: State, branches: seq<Branch>, b: bool)
    requires branches != [] && Eval(lib, st, branches[0].predicate_) == Got(Bool(b))
    ensures ExecTail(lib, st, Arms(branches)) ==
            if b then Leave(st, ExecAll(lib, st, ArmBody(branches))) else ExecTail(lib, st, Arms(branches[1..]))
  {
  }

  /** The chain of arms marks exactly the first matching rule, or nothing. */
  lemma {:induction false} ArmsRun(lib: Library, st: State, ev: map<string, Val>, rules: seq<Rule>,
                                   branches: seq<Branch>)
    requires CompileRules(rules) == Ok(branches) && Sees(st, ev) && Unmarked(st)
    ensures ExecTail(lib, st, Arms(branches)) == Running(Mark(st, FirstMatch(lib, ev, rules)))
  {
    if rules != [] {
      assert branches[0] == CompileRule(rules[0]).value && branches[1..] == CompileRules(rules[1..]).value;
      PredicateMeans(lib, st, ev, rules[0].conditions);
      ArmStep(lib, st, branches, Matches(lib, ev, rules[0]));
      if Matches(lib, ev, rules[0]) {
        ArmBodyRuns(lib, st, rules, branches);
      } else {
        ArmsRun(lib, st, ev, rules[1..], branches[1..]);
      }
    }
  }

  lemma {:induction false} MatchingRuns(lib: Library, st: State, ev: map<string, Val>, rules: seq<Rule>, branches: seq<Branch>)
    requires CompileRules(rules) == Ok(branches) && Sees(st, ev) && Unmarked(st)
    ensures ExecAll(lib, st, Matching(branches)) == Running(Mark(st, FirstMatch(lib, ev, rules)))
  {
    if rules != [] {
      var m := Matching(branches);
      ArmsRun(lib, st, ev, rules, branches);
      assert Exec(lib, st, m[1]) == ExecTail(lib, st, Arms(branches));
      assert m[0..] == m && m[2..] == [];
      Step(lib, st, m, 0);
      Step(lib, st, m, 1);
    }
  }

  lemma {:induction false} FirstMatchIsLeast(lib: Library, ev: map<string, Val>, rules: seq<Rule>)
    requires Sorted(rules)
    ensures var d := FirstMatch(lib, ev, rules);
            && (d.None? ==> forall r :: r in rules ==> !Matches(lib, ev, r))
            && (d.Some? ==> d.value in rules && Matches(lib, ev, d.value)
                            && forall r :: r in rules && Matches(lib, ev, r) ==> Before(d.value, r))
  {
    if rules != [] {
      FirstMatchIsLeast(lib, ev, rules[1..]);
      assert rules == [rules[0]] + rules[1..];
      forall r | r in rules ensures Before(rules[0], r) {
        StringLeTotal(rules[0].id, rules[0].id);
        var i :| 0 <= i < |rules| && rules[i] == r;
      }
    }
  }

  /** The first match of the sorted active rules is the enabled matching rule with the smallest
      (order, id); when there is none, no enabled rule matches. */
  lemma {:induction false} FirstMatchDecides(lib: Library, ev: map<string, Val>, chain: Chain)
    requires UniqueIds(chain.rules)
    ensures FirstMatch(lib, ev, Active(chain)) == Decider(lib, ev, chain)
    ensures Decider(lib, ev, chain).None? <==> forall r :: !Candidate(lib, ev, chain, r)
  {
    var d := FirstMatch(lib, ev, Active(chain));
    ActiveUnique(chain);
    FirstMatchIsLeast(lib, ev, Active(chain));
    if d.Some? {
      assert Decides(lib, ev, chain, d.value);
      DeciderUnique(lib, ev, chain, d.value, Decider(lib, ev, chain).value);
    }
  }
}
