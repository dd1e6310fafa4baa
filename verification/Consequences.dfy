/** What compiler correctness buys: total decisions, the guard, shadow modes, canonical output and
    the separation of the two namespaces. */
module Consequences {
  import opened Common
  import opened Vrl
  import opened Rules
  import opened Compiler
  import opened Meaning
  import opened Runs
  import opened Steps
  import opened Theorem
  import Decimals
  import Encoder
  import Programs

  // ---------------------------------------------------------------- every event is decided

  /** Whatever the parsers return, the emitted program ends with one of the three decisions and leaves
      every field of the event but `.ss` alone, so `.message` is passed on unchanged. */
  lemma {:induction false} EveryEventDecided(lib: Library, event: map<string, Val>, chain: Chain, version: int)
    returns (program: seq<Stmt>, st: State)
    requires Sound(lib) && UniqueIds(chain.rules) && CompileText(chain, version).Ok?
    ensures Programs.ReadProgram(CompileText(chain, version).value) == Some(program)
    ensures RunProgram(lib, event, program) == Running(st)
    ensures st.event - {"ss"} == event - {"ss"}
    ensures "ss" in st.event && st.event["ss"].Obj? && "decision" in st.event["ss"].fields
    ensures Judge(lib, ViewOf(lib, event), chain).decision in {"forward", "drop", "forward_parse_error"}
    ensures st.event["ss"].fields["decision"] == Str(Judge(lib, ViewOf(lib, event), chain).decision)
    ensures Judge(lib, ViewOf(lib, event), chain).decision == "forward_parse_error" <==>
              !ViewOf(lib, event).syslogOk && !ViewOf(lib, event).cefOk
  {
    program, st := CompilerCorrect(lib, event, chain, version);
    SetLeavesRest(event, "ss", Obj(RecordOf(lib, event, chain, version)));
    OneOfThree(lib, ViewOf(lib, event), chain);
    RecordDecision(lib, event, chain, version);
  }

  lemma {:induction false} SetLeavesRest(event: map<string, Val>, k: string, v: Val)
    ensures event[k := v] - {k} == event - {k}
  {
  }

  lemma {:induction false} OneOfThree(lib: Library, view: View, chain: Chain)
    ensures Judge(lib, view, chain).decision in {"forward", "drop", "forward_parse_error"}
    ensures Judge(lib, view, chain).decision == "forward_parse_error" <==> !view.syslogOk && !view.cefOk
  {
  }

  lemma {:induction false} RecordDecision(lib: Library, event: map<string, Val>, chain: Chain, version: int)
    requires Sound(lib)
    ensures "decision" in RecordOf(lib, event, chain, version)
    ensures RecordOf(lib, event, chain, version)["decision"] == Str(Judge(lib, ViewOf(lib, event), chain).decision)
  {
    RecordAt(Judge(lib, ViewOf(lib, event), chain), version, lib, ViewOf(lib, event));
  }

  lemma {:induction false} RecordAt(v: Verdict, version: int, lib: Library, view: View)
    ensures var record := VerdictFields(v, version) + ParserFields(lib, view) + SummaryFields(lib, view.ev);
            "decision" in record && record["decision"] == Str(v.decision)
  {
    assert "decision" !in ParserFields(lib, view) && "decision" !in SummaryFields(lib, view.ev);
  }

  /** The `marker != null` guard matters on exactly the events that reach the fallback without a
      marker: there the program without it aborts, everywhere else it does the same. */
  lemma {:induction false} GuardNeeded(lib: Library, event: map<string, Val>, chain: Chain, version: int)
    requires Sound(lib) && UniqueIds(chain.rules) && CompileChain(chain, version).Ok?
    ensures var branches, v := CompileRules(Active(chain)).value, LitNum(Decimals.EncodeInt(version).value);
            && CompileChain(chain, version).value == Program(true, branches, chain, v)
            && RunProgram(lib, event, Program(true, branches, chain, v)).Running?
            && (RunProgram(lib, event, Program(false, branches, chain, v)).Halted? <==> NoMarker(lib, event))
            && (!NoMarker(lib, event) ==>
                  RunProgram(lib, event, Program(false, branches, chain, v)).st.event ==
                  RunProgram(lib, event, Program(true, branches, chain, v)).st.event)
  {
    var branches, lexeme := CompileRules(Active(chain)).value, Decimals.EncodeInt(version).value;
    Decimals.IntLiteral(version);
    var on := ProgramRuns(lib, event, true, chain, branches, lexeme, version);
    var off := ProgramRuns(lib, event, false, chain, branches, lexeme, version);
  }

  // ---------------------------------------------------------------- the deciding rule

  lemma {:induction false} DeciderIs(lib: Library, ev: map<string, Val>, chain: Chain, r: Rule)
    requires UniqueIds(chain.rules) && Decides(lib, ev, chain, r)
    ensures Decider(lib, ev, chain) == Some(r)
  {
    DeciderUnique(lib, ev, chain, r, Decider(lib, ev, chain).value);
  }

  /** Which of two rules that match is tried first. */
  ghost predicate TriedFirst(a: Rule, b: Rule) {
    a.order < b.order || (a.order == b.order && ComesFirst(a.id, b.id))
  }

  /** The rule that decides: enabled, all its conditions hold, and it is tried before every other such. */
  ghost predicate DecidesAlone(lib: Library, ev: map<string, Val>, chain: Chain, r: Rule) {
    && r in chain.rules && r.enabled && (forall i :: 0 <= i < |r.conditions| ==> Holds(lib, ev, r.conditions[i]))
    && forall q :: Candidate(lib, ev, chain, q) && q != r ==> TriedFirst(r, q)
  }

  lemma {:induction false} DeciderAlone(lib: Library, ev: map<string, Val>, chain: Chain)
    requires UniqueIds(chain.rules)
    ensures var d := Decider(lib, ev, chain);
            && (d.Some? ==> DecidesAlone(lib, ev, chain, d.value))
            && (d.None? <==> forall q :: !Candidate(lib, ev, chain, q))
  {
    var d := Decider(lib, ev, chain);
    FirstMatchDecides(lib, ev, chain);
    if d.Some? {
      forall q | Candidate(lib, ev, chain, q) && q != d.value ensures TriedFirst(d.value, q) {
        LeastDecides(lib, ev, chain, d.value, q);
        if q.id == d.value.id { SameIdSameRule(chain.rules, q, d.value); }
      }
    }
  }

  /** The decision table. Neither parser: the parse error. No rule: the default action. A shadow rule or
      chain: forward. Otherwise what the deciding rule says. The record names the deciding rule. */
  lemma {:induction false} DecisionTable(lib: Library, view: View, chain: Chain) returns (d: Option<Rule>)
    requires UniqueIds(chain.rules)
    ensures d.None? <==> forall q :: !Candidate(lib, view.ev, chain, q)
    ensures d.Some? ==> DecidesAlone(lib, view.ev, chain, d.value)
    ensures var v := Judge(lib, view, chain);
            if !view.syslogOk && !view.cefOk then v.decision == "forward_parse_error" && v.reason == "parse_error"
            else if d.None? then
              v.reason == "default" && v.decision == if chain.defaultAction == DROP then "drop" else "forward"
            else if d.value.shadow || chain.shadowMode then v.decision == "forward" && v.reason == "shadow"
            else v.reason == "rule" && v.decision == if d.value.action == DROP then "drop" else "forward"
    ensures var v := Judge(lib, view, chain);
            && v.ruleId == (if d.Some? then Str(d.value.id) else Null)
            && v.ruleVersion == (if d.Some? then Int(d.value.version) else Null)
            && (v.retain <==> d.Some? && d.value.retainPayload)
  {
    d := Decider(lib, view.ev, chain);
    DeciderAlone(lib, view.ev, chain);
  }

  /** A parse failure beats any match, yet the rules still run against the empty event: the recorded
      rule is null exactly when no enabled rule holds of an event without fields. */
  lemma {:induction false} ParseErrorStillMatches(lib: Library, chain: Chain, view: View)
    requires UniqueIds(chain.rules) && view == MakeView(None, None)
    ensures Judge(lib, view, chain).decision == "forward_parse_error"
    ensures Judge(lib, view, chain).ruleId == Null <==> forall r :: !Candidate(lib, map[], chain, r)
  {
    assert view.ev == map[];
    FirstMatchDecides(lib, map[], chain);
  }

  // ---------------------------------------------------------------- shadow rules

  ghost predicate Dropped(lib: Library, view: View, chain: Chain) {
    Judge(lib, view, chain).decision == "drop"
  }

  ghost predicate AddsRule(chain: Chain, more: Chain, r: Rule) {
    && more.defaultAction == chain.defaultAction && more.shadowMode == chain.shadowMode
    && forall q :: q in more.rules <==> q == r || q in chain.rules
  }

  lemma {:induction false} AddedDecider(lib: Library, ev: map<string, Val>, chain: Chain, more: Chain, r: Rule)
    requires UniqueIds(chain.rules) && UniqueIds(more.rules) && AddsRule(chain, more, r)
    ensures Decider(lib, ev, more) in {Some(r), Decider(lib, ev, chain)}
  {
    var d := Decider(lib, ev, more);
    FirstMatchDecides(lib, ev, chain);
    FirstMatchDecides(lib, ev, more);
    if d.None? {
      forall q ensures !Candidate(lib, ev, chain, q) { assert !Candidate(lib, ev, more, q); }
    } else if d.value != r {
      assert Candidate(lib, ev, chain, d.value);
      forall q | Candidate(lib, ev, chain, q) ensures Before(d.value, q) { assert Candidate(lib, ev, more, q); }
      assert Decides(lib, ev, chain, d.value);
      DeciderIs(lib, ev, chain, d.value);
    }
  }

  /** Adding a shadow rule, at any order, never drops an event that was kept; and it masks a drop
      exactly when it becomes the deciding rule, even though it decides nothing itself. */
  lemma {:induction false} ShadowRuleOnlySpares(lib: Library, view: View, chain: Chain, more: Chain, r: Rule)
    requires UniqueIds(chain.rules) && UniqueIds(more.rules) && AddsRule(chain, more, r) && r.shadow
    ensures Dropped(lib, view, more) ==> Dropped(lib, view, chain)
    ensures Dropped(lib, view, chain) ==>
              (!Dropped(lib, view, more) <==> Decider(lib, view.ev, more) == Some(r))
  {
    AddedDecider(lib, view.ev, chain, more, r);
  }

  function WithShadow(chain: Chain, i: nat): Chain
    requires i < |chain.rules|
  {
    chain.(rules := chain.rules[i := chain.rules[i].(shadow := true)])
  }

  function Shaded(r: Rule, target: Rule): Rule { if r == target then r.(shadow := true) else r }

  lemma {:induction false} ShadedMembers(chain: Chain, i: nat, q: Rule)
    requires i < |chain.rules| && UniqueIds(chain.rules) && q in WithShadow(chain, i).rules
    ensures exists p :: p in chain.rules && q == Shaded(p, chain.rules[i])
  {
    var k :| 0 <= k < |chain.rules| && WithShadow(chain, i).rules[k] == q;
    assert q == Shaded(chain.rules[k], chain.rules[i]);
  }

  lemma {:induction false} ShadedDecider(lib: Library, ev: map<string, Val>, chain: Chain, i: nat, r: Rule)
    requires i < |chain.rules| && UniqueIds(chain.rules) && Decides(lib, ev, chain, r)
    ensures Decider(lib, ev, WithShadow(chain, i)) == Some(Shaded(r, chain.rules[i]))
  {
    var more, s := WithShadow(chain, i), Shaded(r, chain.rules[i]);
    var k :| 0 <= k < |chain.rules| && chain.rules[k] == r;
    assert more.rules[k] == s;
    forall q | Candidate(lib, ev, more, q) ensures Before(s, q) {
      ShadedMembers(chain, i, q);
      var p :| p in chain.rules && q == Shaded(p, chain.rules[i]);
      assert Candidate(lib, ev, chain, p);
    }
    assert Decides(lib, ev, more, s);
    DeciderIs(lib, ev, more, s);
  }

  lemma {:induction false} ShadedNone(lib: Library, ev: map<string, Val>, chain: Chain, i: nat)
    requires i < |chain.rules| && UniqueIds(chain.rules) && Decider(lib, ev, chain).None?
    ensures Decider(lib, ev, WithShadow(chain, i)).None?
  {
    FirstMatchDecides(lib, ev, chain);
    FirstMatchDecides(lib, ev, WithShadow(chain, i));
    forall q ensures !Candidate(lib, ev, WithShadow(chain, i), q) {
      if Candidate(lib, ev, WithShadow(chain, i), q) {
        ShadedMembers(chain, i, q);
        var p :| p in chain.rules && q == Shaded(p, chain.rules[i]);
        assert Candidate(lib, ev, chain, p);
      }
    }
  }

  /** Turning shadow on for one rule spares exactly the drops that rule decided; the reported rule id
      and version stay the same. */
  lemma {:induction false} ShadowingOnlySpares(lib: Library, view: View, chain: Chain, i: nat)
    requires i < |chain.rules| && UniqueIds(chain.rules)
    ensures var now, then_ := Judge(lib, view, WithShadow(chain, i)), Judge(lib, view, chain);
            && now.ruleId == then_.ruleId && now.ruleVersion == then_.ruleVersion
            && (Dropped(lib, view, WithShadow(chain, i)) <==>
                Dropped(lib, view, chain) && Decider(lib, view.ev, chain) != Some(chain.rules[i]))
  {
    var d := Decider(lib, view.ev, chain);
    if d.Some? {
      ShadedDecider(lib, view.ev, chain, i, d.value);
    } else {
      ShadedNone(lib, view.ev, chain, i);
    }
  }

  /** Shadow mode for a whole chain still drops: exactly the parsed events that match nothing, when the
      default is to drop. What it reports as the deciding rule is what the chain reports without it. */
  lemma {:induction false} ShadowModeDrops(lib: Library, view: View, chain: Chain)
    requires UniqueIds(chain.rules)
    ensures var on, off := chain.(shadowMode := true), chain.(shadowMode := false);
            && Judge(lib, view, on).ruleId == Judge(lib, view, off).ruleId
            && Judge(lib, view, on).ruleVersion == Judge(lib, view, off).ruleVersion
            && (Dropped(lib, view, on) <==>
                (view.syslogOk || view.cefOk) && chain.defaultAction == DROP
                && forall r :: !Candidate(lib, view.ev, chain, r))
            && (Dropped(lib, view, on) ==> Dropped(lib, view, off))
  {
    SameRulesSameDecider(lib, view.ev, chain, chain.(shadowMode := true));
    SameRulesSameDecider(lib, view.ev, chain, chain.(shadowMode := false));
    FirstMatchDecides(lib, view.ev, chain);
  }

  lemma {:induction false} SameRulesSameDecider(lib: Library, ev: map<string, Val>, a: Chain, b: Chain)
    requires UniqueIds(a.rules) && a.rules == b.rules
    ensures Decider(lib, ev, a) == Decider(lib, ev, b)
  {
    FirstMatchDecides(lib, ev, a);
    FirstMatchDecides(lib, ev, b);
    assert Active(a) == Active(b);
  }

  // ---------------------------------------------------------------- canonical output

  /** Byte-identical text for every arrangement of the same enabled rules, whatever disabled rules are
      added, removed or moved. */
  lemma {:induction false} CanonicalText(a: Chain, b: Chain, version: int)
    requires UniqueIds(a.rules) && multiset(Enabled(a.rules)) == multiset(Enabled(b.rules))
    requires a.defaultAction == b.defaultAction && a.shadowMode == b.shadowMode
    ensures CompileText(a, version) == CompileText(b, version)
  {
    ActiveCanonical(a, b);
    if CompileRules(Active(a)).Ok? {
      assert forall v: Expr :: Program(true, CompileRules(Active(a)).value, a, v) ==
                         Program(true, CompileRules(Active(a)).value, b, v);
    }
  }

  // ---------------------------------------------------------------- namespaces

  predicate UsesOnlyCef(r: Rule) {
    forall c :: c in r.conditions ==> Encoder.Split(c.field)[0] != "syslog"
  }

  predicate UsesOnlySyslog(r: Rule) {
    forall c :: c in r.conditions ==> Encoder.Split(c.field)[0] == "syslog"
  }

  lemma {:induction false} FieldOutside(a: map<string, Val>, b: map<string, Val>, field: string)
    requires var k := Encoder.Split(field)[0]; (k in a <==> k in b) && (k in a ==> a[k] == b[k])
    ensures FieldOf(a, field) == FieldOf(b, field)
  {
  }

  lemma {:induction false} HoldsByField(lib: Library, a: map<string, Val>, b: map<string, Val>, c: Condition)
    requires FieldOf(a, c.field) == FieldOf(b, c.field)
    ensures Holds(lib, a, c) == Holds(lib, b, c)
  {
  }

  lemma {:induction false} MatchesByFields(lib: Library, a: map<string, Val>, b: map<string, Val>, r: Rule)
    requires forall c :: c in r.conditions ==> FieldOf(a, c.field) == FieldOf(b, c.field)
    ensures Matches(lib, a, r) == Matches(lib, b, r)
  {
    forall i | 0 <= i < |r.conditions| ensures Holds(lib, a, r.conditions[i]) == Holds(lib, b, r.conditions[i]) {
      HoldsByField(lib, a, b, r.conditions[i]);
    }
  }

  /** A rule on CEF names evaluates the same whatever the syslog parser returned. */
  lemma {:induction false} CefRuleIgnoresSyslog(lib: Library, cef: Option<map<string, Val>>, r: Rule,
                                                s: Option<map<string, Val>>, t: Option<map<string, Val>>)
    requires UsesOnlyCef(r)
    ensures Matches(lib, MakeView(s, cef).ev, r) == Matches(lib, MakeView(t, cef).ev, r)
  {
    var a, b := MakeView(s, cef).ev, MakeView(t, cef).ev;
    forall c | c in r.conditions ensures FieldOf(a, c.field) == FieldOf(b, c.field) {
      FieldOutside(a, b, c.field);
    }
    MatchesByFields(lib, a, b, r);
  }

  /** When syslog parsed, a rule on `syslog.` names evaluates the same whatever CEF carried, even a key
      of its own called `syslog`. */
  lemma {:induction false} SyslogRuleIgnoresCef(lib: Library, syslog: map<string, Val>, r: Rule,
                                                c: Option<map<string, Val>>, d: Option<map<string, Val>>)
    requires UsesOnlySyslog(r)
    ensures Matches(lib, MakeView(Some(syslog), c).ev, r) == Matches(lib, MakeView(Some(syslog), d).ev, r)
  {
    var a, b := MakeView(Some(syslog), c).ev, MakeView(Some(syslog), d).ev;
    forall q | q in r.conditions ensures FieldOf(a, q.field) == FieldOf(b, q.field) {
      FieldOutside(a, b, q.field);
    }
    MatchesByFields(lib, a, b, r);
  }

  lemma {:induction false} SameMatchesSameDecider(lib: Library, a: map<string, Val>, b: map<string, Val>, chain: Chain)
    requires UniqueIds(chain.rules)
    requires forall r :: r in chain.rules ==> Matches(lib, a, r) == Matches(lib, b, r)
    ensures Decider(lib, a, chain) == Decider(lib, b, chain)
  {
    assert forall r :: Candidate(lib, a, chain, r) == Candidate(lib, b, chain, r);
    var d := Decider(lib, a, chain);
    FirstMatchDecides(lib, a, chain);
    FirstMatchDecides(lib, b, chain);
    if d.Some? {
      assert Decides(lib, b, chain, d.value);
      DeciderIs(lib, b, chain, d.value);
    }
  }

  /** A chain of syslog rules reaches one verdict for one syslog header, whatever came as CEF. */
  lemma {:induction false} SyslogChainIgnoresCef(lib: Library, syslog: map<string, Val>, chain: Chain,
                                                 c: Option<map<string, Val>>, d: Option<map<string, Val>>)
    requires UniqueIds(chain.rules) && forall r :: r in chain.rules ==> UsesOnlySyslog(r)
    ensures Judge(lib, MakeView(Some(syslog), c), chain) == Judge(lib, MakeView(Some(syslog), d), chain)
  {
    forall r | r in chain.rules
      ensures Matches(lib, MakeView(Some(syslog), c).ev, r) == Matches(lib, MakeView(Some(syslog), d).ev, r)
    {
      SyslogRuleIgnoresCef(lib, syslog, r, c, d);
    }
    SameMatchesSameDecider(lib, MakeView(Some(syslog), c).ev, MakeView(Some(syslog), d).ev, chain);
  }

  // ---------------------------------------------------------------- the version in the text

  /** The assumptions about Vector's functions can be met: a library that parses nothing. */
  function MuteLibrary(): Library {
    Library(_ => None, _ => None, (_, _) => None, _ => None, (v: Val) => Some(if v.Str? then v.s else ""),
            (_, _) => None, (_, _) => false, (_, _) => false, Str(""), "")
  }

  lemma {:induction false} MuteIsSound()
    ensures Sound(MuteLibrary())
  {
  }

  lemma {:induction false} RecordVersion(v: Verdict, version: int, lib: Library, view: View)
    ensures var record := VerdictFields(v, version) + ParserFields(lib, view) + SummaryFields(lib, view.ev);
            "chain_version" in record && record["chain_version"] == Int(version)
  {
    assert "chain_version" !in ParserFields(lib, view) && "chain_version" !in SummaryFields(lib, view.ev);
  }

  /** The event a text leaves when it is read as a program and run. */
  ghost function Leaves(lib: Library, text: string, event: map<string, Val>): Option<map<string, Val>> {
    var program := Programs.ReadProgram(text);
    if program.None? then None
    else
      var r := RunProgram(lib, event, program.value);
      if r.Running? then Some(r.st.event) else None
  }

  /** The record that is left under `.ss`, nothing else changed. */
  ghost predicate Records(lib: Library, text: string, event: map<string, Val>, record: map<string, Val>) {
    Leaves(lib, text, event) == Some(event["ss" := Obj(record)])
  }

  lemma {:induction false} OneRecord(lib: Library, text: string, event: map<string, Val>, x: map<string, Val>,
                                     y: map<string, Val>)
    requires Records(lib, text, event, x) && Records(lib, text, event, y)
    ensures x == y
  {
    SetTwice(event, "ss", Obj(x), Obj(y));
  }

  lemma {:induction false} TextLeaves(lib: Library, event: map<string, Val>, chain: Chain, version: int)
    requires Sound(lib) && UniqueIds(chain.rules) && CompileText(chain, version).Ok?
    ensures Records(lib, CompileText(chain, version).value, event, RecordOf(lib, event, chain, version))
  {
    var p, st := CompilerCorrect(lib, event, chain, version);
  }

  /** Chains that compile to one text record the same on every event. */
  lemma {:induction false} SameTextSameRecord(lib: Library, event: map<string, Val>, a: Chain, b: Chain, v: int, w: int)
    requires Sound(lib) && UniqueIds(a.rules) && UniqueIds(b.rules) && CompileText(a, v).Ok?
    requires CompileText(a, v) == CompileText(b, w)
    ensures RecordOf(lib, event, a, v) == RecordOf(lib, event, b, w)
  {
    TextLeaves(lib, event, a, v);
    TextLeaves(lib, event, b, w);
    OneRecord(lib, CompileText(a, v).value, event, RecordOf(lib, event, a, v), RecordOf(lib, event, b, w));
  }

  lemma {:induction false} SetTwice(event: map<string, Val>, k: string, x: Val, y: Val)
    requires event[k := x] == event[k := y]
    ensures x == y
  {
    assert event[k := x][k] == x;
  }

  /** Texts emitted for different chain versions are different texts, whatever the two chains are. */
  lemma {:induction false} VersionInText(a: Chain, b: Chain, v: int, w: int)
    requires UniqueIds(a.rules) && UniqueIds(b.rules) && v != w
    requires CompileText(a, v).Ok? && CompileText(b, w).Ok?
    ensures CompileText(a, v).value != CompileText(b, w).value
  {
    MuteIsSound();
    if CompileText(a, v).value == CompileText(b, w).value {
      SameTextSameRecord(MuteLibrary(), map[], a, b, v, w);
      RecordsDiffer(MuteLibrary(), a, b, v, w);
    }
  }

  lemma {:induction false} RecordsDiffer(lib: Library, a: Chain, b: Chain, v: int, w: int)
    requires Sound(lib) && v != w
    ensures RecordOf(lib, map[], a, v) != RecordOf(lib, map[], b, w)
  {
    var view := ViewOf(lib, map[]);
    RecordVersion(Judge(lib, view, a), v, lib, view);
    RecordVersion(Judge(lib, view, b), w, lib, view);
  }
}
