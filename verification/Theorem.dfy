/**
 Compiler correctness: the text that is emitted for a chain, read back and run on any event, never
 halts, leaves the message alone and records exactly what the chain means.
 */
module Theorem {
  import opened Common
  import opened Vrl
  import opened Rules
  import opened Compiler
  import opened Meaning
  import opened Correctness
  import opened Runs
  import opened Steps
  import Decimals
  import Emission
  import Programs

  // ---------------------------------------------------------------- the noted match

  function IdVal(d: Option<Rule>): Val { if d.Some? then Str(d.value.id) else Null }

  function VersionVal(d: Option<Rule>): Val { if d.Some? then Int(d.value.version) else Null }

  function ActionVal(d: Option<Rule>): Val { if d.Some? then Str(ActionText(d.value.action)) else Null }

  predicate Noted(st: State, d: Option<Rule>) {
    && Has(st, MatchedId, IdVal(d)) && Has(st, MatchedVersion, VersionVal(d))
    && Has(st, MatchedAction, ActionVal(d)) && Has(st, MatchedShadow, Bool(d.Some? && d.value.shadow))
    && Has(st, MatchedRetain, Bool(d.Some? && d.value.retainPayload))
  }

  lemma {:induction false} MarkNotes(event: map<string, Val>, view: View, st: State, d: Option<Rule>)
    requires AfterFields(event, view, st) && NothingMatched(st)
    ensures AfterFields(event, view, Mark(st, d)) && Noted(Mark(st, d), d)
  {
  }

  lemma {:induction false} MatchRuns(lib: Library, event: map<string, Val>, view: View, st: State, rules: seq<Rule>,
                                     branches: seq<Branch>) returns (r: State)
    requires AfterFields(event, view, st) && NothingMatched(st) && CompileRules(rules) == Ok(branches)
    ensures ExecAll(lib, st, Matching(branches)) == Running(r)
    ensures AfterFields(event, view, r) && Noted(r, FirstMatch(lib, view.ev, rules))
  {
    MatchingRuns(lib, st, view.ev, rules, branches);
    r := Mark(st, FirstMatch(lib, view.ev, rules));
    MarkNotes(event, view, st, FirstMatch(lib, view.ev, rules));
  }

  // ---------------------------------------------------------------- enforcement

  lemma {:induction false} DecidedRuns(lib: Library, st: State, e: Expr, decision: string, reason: string)
    returns (r: State)
    requires Eval(lib, st, e) == Got(Str(decision)) && Decision in st.env && Reason in st.env
    ensures Leave(st, ExecAll(lib, st, Decided(e, reason))) == Running(r)
    ensures Has(r, Decision, Str(decision)) && Has(r, Reason, Str(reason))
    ensures Kept(st, r, {Decision, Reason}) && r.event == st.event
  {
    var s1 := Define(st, Decision, Str(decision));
    var inner := Define(s1, Reason, Str(reason));
    TwoRun(lib, st, Decided(e, reason), s1);
    r := Left(st, inner);
  }

  /** One arm of an `if` chain, taken or not. */
  lemma {:induction false} ArmRuns(lib: Library, st: State, c: Expr, b: bool, body: seq<Stmt>, tail: Tail)
    requires Eval(lib, st, c) == Got(Bool(b))
    ensures Exec(lib, st, If(false, c, body, tail)) ==
            if b then Leave(st, ExecAll(lib, st, body)) else ExecTail(lib, st, tail)
    ensures ExecTail(lib, st, Elif(c, body, tail)) ==
            if b then Leave(st, ExecAll(lib, st, body)) else ExecTail(lib, st, tail)
  {
  }

  lemma {:induction false} EvalNotVar(lib: Library, st: State, n: Name, b: bool)
    requires Has(st, n, Bool(b))
    ensures Eval(lib, st, Not(Var(n))) == Got(Bool(!b))
  {
  }

  lemma {:induction false} EvalOrVars(lib: Library, st: State, m: Name, a: bool, n: Name, b: bool)
    requires Has(st, m, Bool(a)) && Has(st, n, Bool(b))
    ensures Eval(lib, st, Bin(Op.Or, Var(m), Var(n))) == Got(Bool(a || b))
  {
  }

  /** What each arm decides with. */
  function DecisionExpr(defaultAction: Action, outcome: (string, string)): Expr {
    if outcome.1 == "rule" then Var(MatchedAction) else LitStr(outcome.0)
  }

  /** The chain of arms ends in the block of the expected outcome. */
  lemma {:induction false} DecideArm(lib: Library, st: State, chain: Chain, parsed: bool, d: Option<Rule>)
    requires Has(st, ParseOk, Bool(parsed)) && Noted(st, d) && Has(st, ShadowChain, Bool(chain.shadowMode))
    ensures var outcome := Enforce(chain, parsed, d);
            Exec(lib, st, DecideStep(chain.defaultAction)) ==
            Leave(st, ExecAll(lib, st, Decided(DecisionExpr(chain.defaultAction, outcome), outcome.1)))
  {
    var If(_, c1, body1, t1) := DecideStep(chain.defaultAction);
    var Elif(c2, body2, t2) := t1;
    var Elif(c3, body3, t3) := t2;
    EvalNotVar(lib, st, ParseOk, parsed);
    EvalIsNull(lib, st, MatchedId, IdVal(d));
    EvalOrVars(lib, st, MatchedShadow, d.Some? && d.value.shadow, ShadowChain, chain.shadowMode);
    ArmRuns(lib, st, c1, !parsed, body1, t1);
    ArmRuns(lib, st, c2, d.None?, body2, t2);
    ArmRuns(lib, st, c3, (d.Some? && d.value.shadow) || chain.shadowMode, body3, t3);
    ElseRuns(lib, st, Decided(Var(MatchedAction), "rule"));
  }

  lemma {:induction false} ElseRuns(lib: Library, st: State, body: seq<Stmt>)
    ensures ExecTail(lib, st, Else(body)) == Leave(st, ExecAll(lib, st, body))
  {
  }

  predicate AfterDecision(event: map<string, Val>, view: View, d: Option<Rule>, outcome: (string, string), st: State) {
    && st.event == event
    && Has(st, Ev, Obj(view.ev)) && Has(st, ParseOk, Bool(view.syslogOk || view.cefOk))
    && Has(st, SyslogOk, Bool(view.syslogOk)) && Has(st, CefOk, Bool(view.cefOk))
    && Has(st, MatchedId, IdVal(d)) && Has(st, MatchedVersion, VersionVal(d))
    && Has(st, MatchedRetain, Bool(d.Some? && d.value.retainPayload))
    && Has(st, Decision, Str(outcome.0)) && Has(st, Reason, Str(outcome.1))
  }

  lemma {:induction false} DecisionSettles(event: map<string, Val>, view: View, d: Option<Rule>,
                                           outcome: (string, string), v: Val, st: State, r: State)
    requires AfterFields(event, view, st) && Noted(st, d)
    requires Kept(Define(st, ShadowChain, v), r, {Decision, Reason}) && r.event == st.event
    requires Has(r, Decision, Str(outcome.0)) && Has(r, Reason, Str(outcome.1))
    ensures AfterDecision(event, view, d, outcome, r)
  {
  }

  lemma {:induction false} EvalDecision(lib: Library, st: State, chain: Chain, parsed: bool, d: Option<Rule>)
    requires Noted(st, d)
    ensures var outcome := Enforce(chain, parsed, d);
            Eval(lib, st, DecisionExpr(chain.defaultAction, outcome)) == Got(Str(outcome.0))
  {
  }

  lemma {:induction false} EnforcementSteps(lib: Library, st: State, chain: Chain)
    ensures ExecAll(lib, st, Enforcement(chain.defaultAction, chain.shadowMode)) ==
            Exec(lib, Define(st, ShadowChain, Bool(chain.shadowMode)), DecideStep(chain.defaultAction))
  {
    var s1 := Define(st, ShadowChain, Bool(chain.shadowMode));
    ThreeRun(lib, st, Enforcement(chain.defaultAction, chain.shadowMode), s1, s1);
  }

  lemma {:induction false} EnforcementRuns(lib: Library, event: map<string, Val>, view: View, chain: Chain,
                                           d: Option<Rule>, st: State) returns (r: State)
    requires AfterFields(event, view, st) && Noted(st, d)
    ensures var outcome := Enforce(chain, view.syslogOk || view.cefOk, d);
            && ExecAll(lib, st, Enforcement(chain.defaultAction, chain.shadowMode)) == Running(r)
            && AfterDecision(event, view, d, outcome, r)
  {
    var parsed := view.syslogOk || view.cefOk;
    var outcome := Enforce(chain, parsed, d);
    var s1 := Define(st, ShadowChain, Bool(chain.shadowMode));
    DecideArm(lib, s1, chain, parsed, d);
    EvalDecision(lib, s1, chain, parsed, d);
    r := DecidedRuns(lib, s1, DecisionExpr(chain.defaultAction, outcome), outcome.0, outcome.1);
    EnforcementSteps(lib, st, chain);
    DecisionSettles(event, view, d, outcome, Bool(chain.shadowMode), st, r);
  }

  // ---------------------------------------------------------------- summary fields

  lemma {:induction false} EvalSummary(lib: Library, st: State, ev: map<string, Val>, path: seq<string>)
    requires Sees(st, ev)
    ensures Eval(lib, st, SummaryExpr(path)) == Got(Str(Textual(lib, Walk(Obj(ev), path))))
  {
    EvalGetOr(lib, st, Ev, ev, path, LitStr(""));
    EvalTextOr(lib, st, GetOr(Ev, path, LitStr("")), Walk(Obj(ev), path), LitStr(""), "");
  }

  lemma {:induction false} RedefineStays(st: State, n: Name, v: Val)
    requires n in st.env
    ensures Leave(st, Running(Define(st, n, v))) == Running(Define(st, n, v))
  {
    var inner := Define(st, n, v);
    assert (map k | k in inner.env && k in st.env :: inner.env[k]) == inner.env;
  }

  /** `if n == "" { n = e }` */
  lemma {:induction false} IfEmptyRuns(lib: Library, st: State, s: Stmt, n: Name, text: string, e: Expr, other: string)
    requires s == If(true, Bin(EqEq, Var(n), LitStr("")), [Assign(n, e)], Done)
    requires Has(st, n, Str(text)) && Eval(lib, st, e) == Got(Str(other))
    ensures Exec(lib, st, s) == Running(if text == "" then Define(st, n, Str(other)) else st)
  {
    assert Eval(lib, st, s.c) == Got(Bool(text == ""));
    if text == "" {
      OneRuns(lib, st, s.body);
      RedefineStays(st, n, Str(other));
    }
  }

  lemma {:induction false} SummaryRuns(lib: Library, st: State, ev: map<string, Val>, n: Name, cef: string, syslog: string)
    requires Sees(st, ev) && n != Ev
    ensures ExecAll(lib, st, Summary(n, cef, syslog)) == Running(Define(st, n, Str(SummaryOf(lib, ev, cef, syslog))))
  {
    var ss := Summary(n, cef, syslog);
    var first := Textual(lib, Walk(Obj(ev), [cef]));
    var s1 := Define(st, n, Str(first));
    EvalSummary(lib, st, ev, [cef]);
    EvalSummary(lib, s1, ev, ["syslog", syslog]);
    IfEmptyRuns(lib, s1, ss[1], n, first, SummaryExpr(["syslog", syslog]),
                Textual(lib, Walk(Obj(ev), ["syslog", syslog])));
    TwoRun(lib, st, ss, s1);
  }

  predicate Summarised(lib: Library, ev: map<string, Val>, st: State) {
    && Has(st, SsEventId, Str(SummaryOf(lib, ev, "eventid", "msgid")))
    && Has(st, SsSeverity, Str(SummaryOf(lib, ev, "severity", "severity")))
    && Has(st, SsHost, Str(SummaryOf(lib, ev, "filterhostname", "hostname")))
    && Has(st, SsName, Str(SummaryOf(lib, ev, "name", "appname")))
  }

  lemma {:induction false} FourAppends(lib: Library, st: State, a: seq<Stmt>, b: seq<Stmt>, c: seq<Stmt>, d: seq<Stmt>)
    ensures ExecAll(lib, st, a + b + c + d) ==
            AndThen(lib, AndThen(lib, AndThen(lib, ExecAll(lib, st, a), b), c), d)
  {
    ExecAppend(lib, st, a, b);
    ExecAppend(lib, st, a + b, c);
    ExecAppend(lib, st, a + b + c, d);
  }

  lemma {:induction false} FourDefined(st: State, a: Val, b: Val, c: Val, d: Val) returns (r: State)
    ensures r == Define(Define(Define(Define(st, SsEventId, a), SsSeverity, b), SsHost, c), SsName, d)
    ensures Has(r, SsEventId, a) && Has(r, SsSeverity, b) && Has(r, SsHost, c) && Has(r, SsName, d)
    ensures r.event == st.event && Kept(st, r, {SsEventId, SsSeverity, SsHost, SsName})
  {
    r := Define(Define(Define(Define(st, SsEventId, a), SsSeverity, b), SsHost, c), SsName, d);
  }

  datatype SummaryField = SummaryField(n: Name, cef: string, syslog: string)

  function FieldSteps(f: SummaryField): seq<Stmt> { Summary(f.n, f.cef, f.syslog) }

  function FieldVal(lib: Library, ev: map<string, Val>, f: SummaryField): Val {
    Str(SummaryOf(lib, ev, f.cef, f.syslog))
  }

  lemma {:induction false} FourSummaries(lib: Library, ev: map<string, Val>, st: State, a: SummaryField,
                                         b: SummaryField, c: SummaryField, d: SummaryField)
    requires Sees(st, ev) && a.n != Ev && b.n != Ev && c.n != Ev && d.n != Ev
    ensures ExecAll(lib, st, FieldSteps(a) + FieldSteps(b) + FieldSteps(c) + FieldSteps(d)) ==
            Running(Define(Define(Define(Define(st, a.n, FieldVal(lib, ev, a)), b.n, FieldVal(lib, ev, b)),
                                  c.n, FieldVal(lib, ev, c)), d.n, FieldVal(lib, ev, d)))
  {
    var s1 := Define(st, a.n, FieldVal(lib, ev, a));
    var s2 := Define(s1, b.n, FieldVal(lib, ev, b));
    var s3 := Define(s2, c.n, FieldVal(lib, ev, c));
    SummaryRuns(lib, st, ev, a.n, a.cef, a.syslog);
    SummaryRuns(lib, s1, ev, b.n, b.cef, b.syslog);
    SummaryRuns(lib, s2, ev, c.n, c.cef, c.syslog);
    SummaryRuns(lib, s3, ev, d.n, d.cef, d.syslog);
    FourAppends(lib, st, FieldSteps(a), FieldSteps(b), FieldSteps(c), FieldSteps(d));
  }

  lemma {:induction false} SummariesRun(lib: Library, ev: map<string, Val>, st: State) returns (r: State)
    requires Sees(st, ev)
    ensures ExecAll(lib, st, Summaries()) == Running(r)
    ensures r.event == st.event && Kept(st, r, {SsEventId, SsSeverity, SsHost, SsName}) && Summarised(lib, ev, r)
  {
    var a, b := SummaryField(SsEventId, "eventid", "msgid"), SummaryField(SsSeverity, "severity", "severity");
    var c, d := SummaryField(SsHost, "filterhostname", "hostname"), SummaryField(SsName, "name", "appname");
    r := FourDefined(st, FieldVal(lib, ev, a), FieldVal(lib, ev, b), FieldVal(lib, ev, c), FieldVal(lib, ev, d));
    FourSummaries(lib, ev, st, a, b, c, d);
  }

  // ---------------------------------------------------------------- the record

  lemma {:induction false} EntriesAppend(lib: Library, st: State, a: seq<Entry>, b: seq<Entry>,
                                         ma: map<string, Val>, mb: map<string, Val>)
    requires EvalEntries(lib, st, a) == Got(Obj(ma)) && EvalEntries(lib, st, b) == Got(Obj(mb))
    ensures EvalEntries(lib, st, a + b) == Got(Obj(ma + mb))
  {
    if a == [] {
      assert a + b == b && ma + mb == mb;
    } else {
      assert (a + b)[0] == a[0] && (a + b)[1..] == a[1..] + b;
      var v, rest := Eval(lib, st, a[0].value).v, EvalEntries(lib, st, a[1..]).v.fields;
      EntriesAppend(lib, st, a[1..], b, rest, mb);
      MapAssociative(map[a[0].key := v], rest, mb);
    }
  }

  lemma {:induction false} MapAssociative(a: map<string, Val>, b: map<string, Val>, c: map<string, Val>)
    ensures a + (b + c) == (a + b) + c
  {
  }

  lemma {:induction false} MapSnoc(m: map<string, Val>, k: string, v: Val)
    ensures m + (map[k := v] + map[]) == m[k := v]
  {
  }

  /** One more entry of a literal object. */
  lemma {:induction false} EntrySnoc(lib: Library, st: State, es: seq<Entry>, i: nat, m: map<string, Val>, v: Val)
    requires i < |es| && EvalEntries(lib, st, es[..i]) == Got(Obj(m)) && Eval(lib, st, es[i].value) == Got(v)
    ensures EvalEntries(lib, st, es[..i + 1]) == Got(Obj(m[es[i].key := v]))
  {
    var last := [es[i]];
    assert last[1..] == [] && EvalEntries(lib, st, last[1..]) == Got(Obj(map[]));
    EntriesAppend(lib, st, es[..i], last, m, map[es[i].key := v] + map[]);
    assert es[..i] + last == es[..i + 1];
    MapSnoc(m, es[i].key, v);
  }

  lemma {:induction false} FourEntries(lib: Library, st: State, es: seq<Entry>, vs: seq<Val>)
    requires |es| == |vs| == 4 && forall i :: 0 <= i < 4 ==> Eval(lib, st, es[i].value) == Got(vs[i])
    ensures EvalEntries(lib, st, es) ==
            Got(Obj(map[es[0].key := vs[0], es[1].key := vs[1], es[2].key := vs[2], es[3].key := vs[3]]))
  {
    assert es[..0] == [] && es[..4] == es;
    EntrySnoc(lib, st, es, 0, map[], vs[0]);
    EntrySnoc(lib, st, es, 1, map[es[0].key := vs[0]], vs[1]);
    EntrySnoc(lib, st, es, 2, map[es[0].key := vs[0], es[1].key := vs[1]], vs[2]);
    EntrySnoc(lib, st, es, 3, map[es[0].key := vs[0], es[1].key := vs[1], es[2].key := vs[2]], vs[3]);
  }

  lemma {:induction false} SixEntries(lib: Library, st: State, es: seq<Entry>, vs: seq<Val>)
    requires |es| == |vs| == 6 && forall i :: 0 <= i < 6 ==> Eval(lib, st, es[i].value) == Got(vs[i])
    ensures EvalEntries(lib, st, es) ==
            Got(Obj(map[es[0].key := vs[0], es[1].key := vs[1], es[2].key := vs[2], es[3].key := vs[3],
                        es[4].key := vs[4], es[5].key := vs[5]]))
  {
    var four := map[es[0].key := vs[0], es[1].key := vs[1], es[2].key := vs[2], es[3].key := vs[3]];
    FourEntries(lib, st, es[..4], vs[..4]);
    EntrySnoc(lib, st, es, 4, four, vs[4]);
    EntrySnoc(lib, st, es, 5, four[es[4].key := vs[4]], vs[5]);
    assert es[..6] == es;
  }

  function VerdictOf(d: Option<Rule>, outcome: (string, string)): Verdict {
    Verdict(outcome.0, outcome.1, IdVal(d), VersionVal(d), d.Some? && d.value.retainPayload)
  }

  function VerdictVals(v: Verdict, version: int): seq<Val> {
    [Int(version), Str(v.decision), Str(v.reason), v.ruleId, v.ruleVersion, Bool(v.retain)]
  }

  lemma {:induction false} VerdictEntry(lib: Library, event: map<string, Val>, view: View, d: Option<Rule>,
                                        outcome: (string, string), st: State, lexeme: string, version: int, i: nat)
    requires AfterDecision(event, view, d, outcome, st) && NumVal(lexeme) == Int(version) && i < 6
    ensures Eval(lib, st, VerdictEntries(LitNum(lexeme))[i].value) == Got(VerdictVals(VerdictOf(d, outcome), version)[i])
  {
  }

  lemma {:induction false} VerdictEval(lib: Library, event: map<string, Val>, view: View, d: Option<Rule>,
                                       outcome: (string, string), st: State, lexeme: string, version: int)
    requires AfterDecision(event, view, d, outcome, st) && NumVal(lexeme) == Int(version)
    ensures EvalEntries(lib, st, VerdictEntries(LitNum(lexeme))) ==
            Got(Obj(VerdictFields(VerdictOf(d, outcome), version)))
  {
    var es, vs := VerdictEntries(LitNum(lexeme)), VerdictVals(VerdictOf(d, outcome), version);
    forall i | 0 <= i < 6 ensures Eval(lib, st, es[i].value) == Got(vs[i]) {
      VerdictEntry(lib, event, view, d, outcome, st, lexeme, version, i);
    }
    SixEntries(lib, st, es, vs);
  }

  lemma {:induction false} EvalClock(lib: Library, st: State)
    requires Sound(lib)
    ensures Eval(lib, st, ParserEntries()[3].value) == Got(Str(Textual(lib, lib.now)))
  {
    assert EvalAll(lib, st, []) == GotAll([]);
    assert Eval(lib, st, Call(Now, [], None)) == Got(lib.now);
    EvalToText(lib, st, Call(Now, [], None), lib.now);
  }

  lemma {:induction false} ParserEval(lib: Library, view: View, st: State)
    requires Sound(lib) && Has(st, ParseOk, Bool(view.syslogOk || view.cefOk))
    requires Has(st, SyslogOk, Bool(view.syslogOk)) && Has(st, CefOk, Bool(view.cefOk))
    ensures EvalEntries(lib, st, ParserEntries()) == Got(Obj(ParserFields(lib, view)))
  {
    var vs := [Bool(view.syslogOk || view.cefOk), Bool(view.cefOk), Bool(view.syslogOk), Str(Textual(lib, lib.now))];
    EvalClock(lib, st);
    FourEntries(lib, st, ParserEntries(), vs);
  }

  lemma {:induction false} SummaryEval(lib: Library, ev: map<string, Val>, st: State)
    requires Summarised(lib, ev, st)
    ensures EvalEntries(lib, st, SummaryEntries()) == Got(Obj(SummaryFields(lib, ev)))
  {
    var vs := [Str(SummaryOf(lib, ev, "eventid", "msgid")), Str(SummaryOf(lib, ev, "severity", "severity")),
               Str(SummaryOf(lib, ev, "filterhostname", "hostname")), Str(SummaryOf(lib, ev, "name", "appname"))];
    FourEntries(lib, st, SummaryEntries(), vs);
  }

  lemma {:induction false} ObjectRuns(lib: Library, st: State, a: seq<Entry>, b: seq<Entry>, c: seq<Entry>,
                                      ma: map<string, Val>, mb: map<string, Val>, mc: map<string, Val>)
    requires EvalEntries(lib, st, a) == Got(Obj(ma)) && EvalEntries(lib, st, b) == Got(Obj(mb))
    requires EvalEntries(lib, st, c) == Got(Obj(mc))
    ensures ExecAll(lib, st, [AssignDot(Ss, Object(a + b + c))]) ==
            Running(State(st.env, st.event["ss" := Obj(ma + mb + mc)]))
  {
    EntriesAppend(lib, st, a, b, ma, mb);
    EntriesAppend(lib, st, a + b, c, ma + mb, mc);
    OneRuns(lib, st, [AssignDot(Ss, Object(a + b + c))]);
  }

  lemma {:induction false} RecordRuns(lib: Library, event: map<string, Val>, view: View, d: Option<Rule>,
                                      outcome: (string, string), st: State, lexeme: string, version: int)
    requires Sound(lib) && NumVal(lexeme) == Int(version)
    requires AfterDecision(event, view, d, outcome, st) && Summarised(lib, view.ev, st)
    ensures ExecAll(lib, st, [AssignDot(Ss, Object(RecordEntries(LitNum(lexeme))))]) ==
            Running(State(st.env, event["ss" := Obj(VerdictFields(VerdictOf(d, outcome), version)
                                                    + ParserFields(lib, view) + SummaryFields(lib, view.ev))]))
  {
    var version_ := LitNum(lexeme);
    VerdictEval(lib, event, view, d, outcome, st, lexeme, version);
    ParserEval(lib, view, st);
    SummaryEval(lib, view.ev, st);
    ObjectRuns(lib, st, VerdictEntries(version_), ParserEntries(), SummaryEntries(),
               VerdictFields(VerdictOf(d, outcome), version), ParserFields(lib, view), SummaryFields(lib, view.ev));
  }

  // ---------------------------------------------------------------- the whole program

  lemma {:induction false} BlankBetween(lib: Library, st: State, a: seq<Stmt>, b: seq<Stmt>)
    ensures ExecAll(lib, st, a + [Blank] + b) == AndThen(lib, ExecAll(lib, st, a), b)
  {
    ExecAppend(lib, st, a, [Blank]);
    ExecAppend(lib, st, a + [Blank], b);
    if ExecAll(lib, st, a).Running? {
      OneRuns(lib, ExecAll(lib, st, a).st, [Blank]);
    }
  }

  lemma {:induction false} PartsRun(lib: Library, st: State, p: seq<Stmt>, m: seq<Stmt>, e: seq<Stmt>, s: seq<Stmt>,
                                    r: seq<Stmt>)
    ensures ExecAll(lib, st, p + [Blank] + m + [Blank] + e + [Blank] + s + [Blank] + r) ==
            AndThen(lib, AndThen(lib, AndThen(lib, AndThen(lib, ExecAll(lib, st, p), m), e), s), r)
  {
    BlankBetween(lib, st, p, m);
    BlankBetween(lib, st, p + [Blank] + m, e);
    BlankBetween(lib, st, p + [Blank] + m + [Blank] + e, s);
    BlankBetween(lib, st, p + [Blank] + m + [Blank] + e + [Blank] + s, r);
  }

  lemma {:induction false} SummaryKeeps(event: map<string, Val>, view: View, d: Option<Rule>,
                                        outcome: (string, string), st: State, r: State)
    requires AfterDecision(event, view, d, outcome, st) && r.event == st.event
    requires Kept(st, r, {SsEventId, SsSeverity, SsHost, SsName})
    ensures AfterDecision(event, view, d, outcome, r)
  {
  }

  /** Everything after the prelude: match, decide, summarise, record. */
  lemma {:induction false} VerdictRuns(lib: Library, event: map<string, Val>, view: View, chain: Chain,
                                       branches: seq<Branch>, lexeme: string, version: int, st: State)
    returns (r: State)
    requires Sound(lib) && UniqueIds(chain.rules) && CompileRules(Active(chain)) == Ok(branches)
    requires NumVal(lexeme) == Int(version) && AfterFields(event, view, st) && NothingMatched(st)
    ensures AndThen(lib, AndThen(lib, AndThen(lib, ExecAll(lib, st, Matching(branches)),
                                              Enforcement(chain.defaultAction, chain.shadowMode)), Summaries()),
                    [AssignDot(Ss, Object(RecordEntries(LitNum(lexeme))))]) == Running(r)
    ensures r.event == event["ss" := Obj(VerdictFields(Judge(lib, view, chain), version)
                                         + ParserFields(lib, view) + SummaryFields(lib, view.ev))]
  {
    var d := Decider(lib, view.ev, chain);
    var outcome := Enforce(chain, view.syslogOk || view.cefOk, d);
    FirstMatchDecides(lib, view.ev, chain);
    var s1 := MatchRuns(lib, event, view, st, Active(chain), branches);
    var s2 := EnforcementRuns(lib, event, view, chain, d, s1);
    var s3 := SummariesRun(lib, view.ev, s2);
    SummaryKeeps(event, view, d, outcome, s2, s3);
    RecordRuns(lib, event, view, d, outcome, s3, lexeme, version);
    r := State(s3.env, event["ss" := Obj(VerdictFields(Judge(lib, view, chain), version)
                                         + ParserFields(lib, view) + SummaryFields(lib, view.ev))]);
  }

  /** The program with or without the marker guard. Guarded it never halts; unguarded it halts on
      exactly the events whose fallback finds no marker; otherwise it records the chain's meaning. */
  lemma {:induction false} ProgramRuns(lib: Library, event: map<string, Val>, guarded: bool, chain: Chain,
                                       branches: seq<Branch>, lexeme: string, version: int) returns (st: State)
    requires Sound(lib) && UniqueIds(chain.rules) && CompileRules(Active(chain)) == Ok(branches)
    requires NumVal(lexeme) == Int(version)
    ensures var run := RunProgram(lib, event, Program(guarded, branches, chain, LitNum(lexeme)));
            if !guarded && NoMarker(lib, event) then run == Halted
            else run == Running(st) && st.event == event["ss" := Obj(RecordOf(lib, event, chain, version))]
  {
    var s0 := State(map[], event);
    PartsRun(lib, s0, Prelude(guarded), Matching(branches), Enforcement(chain.defaultAction, chain.shadowMode),
             Summaries(), [AssignDot(Ss, Object(RecordEntries(LitNum(lexeme))))]);
    st := PreludeRuns(lib, event, guarded);
    if guarded || !NoMarker(lib, event) {
      st := VerdictRuns(lib, event, ViewOf(lib, event), chain, branches, lexeme, version, st);
    }
  }

  /** Compiler correctness, from the emitted text: reading it gives a program that, on every event and
      for every sound library, runs to the end and changes nothing but `.ss`, which then holds the
      record the chain's meaning prescribes. */
  lemma {:induction false} CompilerCorrect(lib: Library, event: map<string, Val>, chain: Chain, version: int)
    returns (program: seq<Stmt>, st: State)
    requires Sound(lib) && UniqueIds(chain.rules) && CompileText(chain, version).Ok?
    ensures Programs.ReadProgram(CompileText(chain, version).value) == Some(program)
    ensures RunProgram(lib, event, program) == Running(st)
    ensures st.event == event["ss" := Obj(RecordOf(lib, event, chain, version))]
  {
    var lexeme := Decimals.EncodeInt(version).value;
    var emitted := CompileChain(chain, version).value;
    Emission.ChainTextRead(chain, version);
    program := Programs.Code(emitted);
    Programs.CodeRuns(lib, State(map[], event), emitted);
    Decimals.IntLiteral(version);
    st := ProgramRuns(lib, event, true, chain, CompileRules(Active(chain)).value, lexeme, version);
  }
}
