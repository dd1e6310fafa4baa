/** The fixed parts of the emitted program, run step by step. */
module Steps {
  import opened Common
  import opened Vrl
  import opened Rules
  import opened Compiler
  import opened Meaning
  import opened Correctness
  import opened Runs
  import Decimals

  predicate Has(st: State, n: Name, v: Val) { n in st.env && st.env[n] == v }

  /** Every name but those listed keeps its value. */
  ghost predicate Kept(st: State, r: State, except: set<Name>) {
    forall n {:trigger n in st.env} {:trigger n in r.env} ::
      n in st.env && n !in except ==> n in r.env && r.env[n] == st.env[n]
  }

  /** The outer block's names with the inner block's values. */
  ghost predicate Projects(st: State, inner: State, r: State) {
    && r.event == inner.event
    && forall n {:trigger n in st.env} {:trigger n in r.env} ::
         n in st.env ==> n in inner.env && n in r.env && r.env[n] == inner.env[n]
  }

  // ---------------------------------------------------------------- single steps

  lemma {:induction false} FirstRuns(lib: Library, st: State, ss: seq<Stmt>, s1: State)
    requires ss != [] && Exec(lib, st, ss[0]) == Running(s1)
    ensures ExecAll(lib, st, ss) == ExecAll(lib, s1, ss[1..])
  {
  }

  lemma {:induction false} ThreeRun(lib: Library, st: State, ss: seq<Stmt>, s1: State, s2: State)
    requires |ss| == 3 && Exec(lib, st, ss[0]) == Running(s1) && Exec(lib, s1, ss[1]) == Running(s2)
    ensures ExecAll(lib, st, ss) == Exec(lib, s2, ss[2])
  {
    FirstRuns(lib, st, ss, s1);
    TwoRun(lib, s1, ss[1..], s2);
  }

  lemma {:induction false} FourRun(lib: Library, st: State, ss: seq<Stmt>, s1: State, s2: State, s3: State)
    requires |ss| == 4 && Exec(lib, st, ss[0]) == Running(s1) && Exec(lib, s1, ss[1]) == Running(s2)
    requires Exec(lib, s2, ss[2]) == Running(s3)
    ensures ExecAll(lib, st, ss) == Exec(lib, s3, ss[3])
  {
    FirstRuns(lib, st, ss, s1);
    ThreeRun(lib, s1, ss[1..], s2, s3);
  }

  lemma {:induction false} TwoRun(lib: Library, st: State, ss: seq<Stmt>, s1: State)
    requires |ss| == 2 && Exec(lib, st, ss[0]) == Running(s1)
    ensures ExecAll(lib, st, ss) == Exec(lib, s1, ss[1])
  {
    OneRuns(lib, s1, ss[1..]);
  }

  lemma {:induction false} OneRuns(lib: Library, st: State, ss: seq<Stmt>)
    requires |ss| == 1
    ensures ExecAll(lib, st, ss) == Exec(lib, st, ss[0])
  {
    assert ss[1..] == [];
    match Exec(lib, st, ss[0])
    case Halted =>
    case Running(s) => assert ExecAll(lib, s, []) == Running(s);
  }

  /** A block that runs to the end: names of the outer block keep their new values. */
  lemma {:induction false} Left(st: State, inner: State) returns (r: State)
    requires st.env.Keys <= inner.env.Keys
    ensures Leave(st, Running(inner)) == Running(r)
    ensures Projects(st, inner, r)
  {
    r := State(map n | n in inner.env && n in st.env :: inner.env[n], inner.event);
  }

  lemma {:induction false} IfTrue(lib: Library, st: State, s: Stmt, inner: State) returns (r: State)
    requires s.If? && Eval(lib, st, s.c) == Got(Bool(true)) && ExecAll(lib, st, s.body) == Running(inner)
    requires st.env.Keys <= inner.env.Keys
    ensures Exec(lib, st, s) == Running(r)
    ensures Projects(st, inner, r)
  {
    r := Left(st, inner);
  }

  lemma {:induction false} IfFalse(lib: Library, st: State, s: Stmt)
    requires s.If? && Eval(lib, st, s.c) == Got(Bool(false)) && s.tail.Done?
    ensures Exec(lib, st, s) == Running(st)
  {
  }

  lemma {:induction false} EvalIsNull(lib: Library, st: State, n: Name, v: Val)
    requires Has(st, n, v)
    ensures Eval(lib, st, Bin(EqEq, Var(n), LitNull)) == Got(Bool(v == Null))
    ensures Eval(lib, st, Bin(NotEq, Var(n), LitNull)) == Got(Bool(v != Null))
  {
  }

  /** `to_string(a) ?? b` */
  lemma {:induction false} EvalTextOr(lib: Library, st: State, a: Expr, v: Val, b: Expr, other: string)
    requires Eval(lib, st, a) == Got(v) && Eval(lib, st, b) == Got(Str(other))
    ensures Eval(lib, st, Bin(Coalesce, Call1(ToString, a), b)) == Got(Str(Default(lib.toText(v), other)))
  {
    EvalToText(lib, st, a, v);
  }

  /** `get(from, path) ?? other` on an object never takes the fallback. */
  lemma {:induction false} EvalGetOr(lib: Library, st: State, from: Name, m: map<string, Val>, path: seq<string>,
                                     other: Expr)
    requires Has(st, from, Obj(m))
    ensures Eval(lib, st, GetOr(from, path, other)) == Got(Walk(Obj(m), path))
  {
    EvalGet(lib, st, from, m, path);
  }

  // ---------------------------------------------------------------- setting up

  predicate AfterSetup(event: map<string, Val>, raw: string, st: State) {
    && st.event == event
    && Has(st, Raw, Str(raw)) && Has(st, Body, Str(raw))
    && Has(st, Ev, Obj(map[])) && Has(st, ParseOk, Bool(false))
    && Has(st, SyslogOk, Bool(false)) && Has(st, CefOk, Bool(false))
    && Decision in st.env && Reason in st.env
  }

  lemma {:induction false} RawRuns(lib: Library, event: map<string, Val>, st: State)
    requires st.event == event
    ensures Exec(lib, st, SetupFields()[0]) == Running(Define(st, Raw, Str(RawText(lib, event))))
  {
    var message := if "message" in event then event["message"] else Null;
    EvalTextOr(lib, st, Dot(Message), message, LitStr(""), "");
  }

  lemma {:induction false} SetupFieldsRun(lib: Library, event: map<string, Val>) returns (st: State)
    ensures ExecAll(lib, State(map[], event), SetupFields()) == Running(st) && st.event == event
    ensures Has(st, Raw, Str(RawText(lib, event))) && Has(st, Ev, Obj(map[]))
    ensures Has(st, ParseOk, Bool(false)) && Has(st, SyslogOk, Bool(false)) && Has(st, CefOk, Bool(false))
  {
    var s0 := State(map[], event);
    var s1 := Define(s0, Raw, Str(RawText(lib, event)));
    var s2 := Define(s1, Ev, Obj(map[]));
    var s3 := Define(s2, ParseOk, Bool(false));
    var s4 := Define(s3, SyslogOk, Bool(false));
    st := Define(s4, CefOk, Bool(false));
    RawRuns(lib, event, s0);
    FirstRuns(lib, s0, SetupFields(), s1);
    FourRun(lib, s1, SetupFields()[1..], s2, s3, s4);
  }

  lemma {:induction false} SetupRuns(lib: Library, event: map<string, Val>) returns (st: State)
    ensures ExecAll(lib, State(map[], event), Setup()) == Running(st)
    ensures AfterSetup(event, RawText(lib, event), st)
  {
    var s0 := SetupFieldsRun(lib, event);
    st := SetupVerdictRuns(lib, s0, Str(RawText(lib, event)));
    ExecAppend(lib, State(map[], event), SetupFields(), SetupVerdict());
  }

  lemma {:induction false} SetupVerdictRuns(lib: Library, s0: State, raw: Val) returns (st: State)
    requires Has(s0, Raw, raw)
    ensures ExecAll(lib, s0, SetupVerdict()) == Running(st)
    ensures Has(st, Body, raw) && Decision in st.env && Reason in st.env
    ensures Kept(s0, st, {Body, Decision, Reason}) && st.event == s0.event
  {
    var s1 := Define(s0, Body, raw);
    var s2 := Define(s1, Decision, Str("forward"));
    st := Define(s2, Reason, Str("default"));
    ThreeRun(lib, s0, SetupVerdict(), s1, s2);
  }

  // ---------------------------------------------------------------- syslog

  predicate AfterSyslog(event: map<string, Val>, raw: string, syslog: Option<map<string, Val>>, body: string,
                        st: State) {
    && st.event == event
    && Has(st, Raw, Str(raw)) && Has(st, Body, Str(body))
    && Has(st, Ev, Obj(map[])) && Has(st, ParseOk, Bool(false))
    && Has(st, SyslogOk, Bool(syslog.Some?)) && Has(st, CefOk, Bool(false))
    && Has(st, Parsed, Obj(Default(syslog, map[])))
    && Decision in st.env && Reason in st.env
  }

  /** The state after `n, err = call`. */
  function Paired(lib: Library, st: State, n: Name, err: Name, r: Option<map<string, Val>>): State {
    if r.Some? then Define(Define(st, n, Obj(r.value)), err, Null)
    else Define(Define(st, n, Obj(map[])), err, Str(lib.errorText))
  }

  lemma {:induction false} ParseRuns(lib: Library, st: State, n: Name, err: Name, f: Func, a: Expr, text: string)
    requires f in {ParseSyslog, ParseCef} && Eval(lib, st, a) == Got(Str(text))
    ensures Exec(lib, st, AssignPair(n, err, Call1(f, a))) ==
            Running(Paired(lib, st, n, err, if f.ParseCef? then lib.parseCef(text) else lib.parseSyslog(text)))
  {
    EvalOne(lib, st, a);
  }

  lemma {:induction false} SyslogBodyRuns(lib: Library, st: State, m: map<string, Val>, raw: string) returns (r: State)
    requires Has(st, Parsed, Obj(m)) && Has(st, Raw, Str(raw))
    ensures ExecAll(lib, st, SyslogStep()[1].body) == Running(r)
    ensures r == Define(Define(st, SyslogOk, Bool(true)), Body, Str(BodyText(lib, raw, Some(m))))
  {
    var body := SyslogStep()[1].body;
    var s1 := Define(st, SyslogOk, Bool(true));
    r := Define(s1, Body, Str(BodyText(lib, raw, Some(m))));
    EvalGetOr(lib, s1, Parsed, m, ["message"], Var(Raw));
    WalkOne(m, "message");
    EvalTextOr(lib, s1, GetOr(Parsed, ["message"], Var(Raw)), Walk(Obj(m), ["message"]), Var(Raw), raw);
    TwoRun(lib, st, body, s1);
  }

  lemma {:induction false} SyslogBranch(lib: Library, st: State, syslog: Option<map<string, Val>>, raw: string)
    returns (r: State)
    requires Has(st, Parsed, Obj(Default(syslog, map[]))) && Has(st, Raw, Str(raw)) && Has(st, Body, Str(raw))
    requires Has(st, SyslogOk, Bool(false))
    requires Has(st, Perr, if syslog.Some? then Null else Str(lib.errorText))
    ensures Exec(lib, st, SyslogStep()[1]) == Running(r) && r.event == st.event
    ensures Has(r, SyslogOk, Bool(syslog.Some?)) && Has(r, Body, Str(BodyText(lib, raw, syslog)))
    ensures Kept(st, r, {SyslogOk, Body})
  {
    EvalIsNull(lib, st, Perr, st.env[Perr]);
    r := st;
    if syslog.Some? {
      var inner := SyslogBodyRuns(lib, st, syslog.value, raw);
      r := IfTrue(lib, st, SyslogStep()[1], inner);
    } else {
      IfFalse(lib, st, SyslogStep()[1]);
    }
  }

  lemma {:induction false} WalkOne(m: map<string, Val>, k: string)
    ensures Walk(Obj(m), [k]) == if k in m then m[k] else Null
  {
    assert [k][1..] == [];
    if k in m { assert Walk(m[k], []) == m[k]; }
  }

  lemma {:induction false} SyslogSettles(lib: Library, event: map<string, Val>, raw: string, body: string,
                                         syslog: Option<map<string, Val>>, st: State, r: State)
    requires AfterSetup(event, raw, st) && r.event == st.event
    requires Has(r, SyslogOk, Bool(syslog.Some?)) && Has(r, Body, Str(body))
    requires Kept(Paired(lib, st, Parsed, Perr, syslog), r, {SyslogOk, Body})
    ensures AfterSyslog(event, raw, syslog, body, r)
  {
  }

  lemma {:induction false} SyslogRuns(lib: Library, event: map<string, Val>, raw: string, st: State)
    returns (r: State)
    requires AfterSetup(event, raw, st)
    ensures var syslog := lib.parseSyslog(raw);
            && ExecAll(lib, st, SyslogStep()) == Running(r)
            && AfterSyslog(event, raw, syslog, BodyText(lib, raw, syslog), r)
  {
    var ss, syslog := SyslogStep(), lib.parseSyslog(raw);
    var s1 := Paired(lib, st, Parsed, Perr, syslog);
    ParseRuns(lib, st, Parsed, Perr, ParseSyslog, Var(Raw), raw);
    TwoRun(lib, st, ss, s1);
    r := SyslogBranch(lib, s1, syslog, raw);
    SyslogSettles(lib, event, raw, BodyText(lib, raw, syslog), syslog, st, r);
  }

  // ---------------------------------------------------------------- CEF

  predicate AfterCef(event: map<string, Val>, syslog: Option<map<string, Val>>, cef: Option<map<string, Val>>,
                     st: State) {
    && st.event == event
    && Has(st, Ev, Obj(map[])) && Has(st, ParseOk, Bool(false))
    && Has(st, SyslogOk, Bool(syslog.Some?)) && Has(st, CefOk, Bool(false))
    && Has(st, Parsed, Obj(Default(syslog, map[])))
    && Has(st, Cef, Obj(Default(cef, map[])))
    && Cerr in st.env && (st.env[Cerr] == Null <==> cef.Some?)
    && Decision in st.env && Reason in st.env
  }

  function MarkerVal(i: Option<int>): Val { if i.Some? then Int(i.value) else Null }

  /** With the guard the test is false on a missing marker; without it, it is an error. */
  lemma {:induction false} EvalMarkerTest(lib: Library, st: State, i: Option<int>, guarded: bool)
    requires Has(st, Marker, MarkerVal(i))
    ensures Eval(lib, st, MarkerTest(guarded)) ==
            if i.Some? then Got(Bool(i.value >= 0)) else if guarded then Got(Bool(false)) else Failed
  {
    assert NumVal("0") == Int(0) by { assert Decimals.NatOf("0") == 0 by { assert "0"[..0] == ""; } }
    EvalIsNull(lib, st, Marker, MarkerVal(i));
    var inRange := Bin(Ge, Var(Marker), LitNum("0"));
    assert Eval(lib, st, inRange) == if i.Some? then Got(Bool(i.value >= 0)) else Failed;
  }

  lemma {:induction false} FindRuns(lib: Library, st: State, raw: string)
    requires Has(st, Raw, Str(raw))
    ensures Exec(lib, st, Assign(Marker, Call2(Find, Var(Raw), LitStr("CEF:")))) ==
            Running(Define(st, Marker, MarkerVal(lib.find(raw, "CEF:"))))
  {
    EvalTwo(lib, st, Var(Raw), LitStr("CEF:"));
  }

  lemma {:induction false} SliceRuns(lib: Library, st: State, raw: string, i: int)
    requires Has(st, Raw, Str(raw)) && Has(st, Marker, Int(i)) && 0 <= i <= |raw|
    ensures ExecAll(lib, st, MarkerStep(true).body) == Running(Paired(lib, st, Cef, Cerr, lib.parseCef(raw[i..])))
    ensures MarkerStep(true).body == MarkerStep(false).body
  {
    var body := MarkerStep(true).body;
    EvalTwo(lib, st, Var(Raw), Var(Marker));
    ParseRuns(lib, st, Cef, Cerr, ParseCef, Call2(Slice, Var(Raw), Var(Marker)), raw[i..]);
    OneRuns(lib, st, body);
  }

  /** Cef and Cerr after the fallback, everything else as it was. */
  ghost predicate CefSettled(st: State, r: State, cef: Option<map<string, Val>>) {
    && r.event == st.event && st.env.Keys <= r.env.Keys
    && Has(r, Cef, Obj(Default(cef, map[])))
    && Cerr in r.env && (r.env[Cerr] == Null <==> cef.Some?)
    && Kept(st, r, {Cef, Cerr, Marker})
  }

  lemma {:induction false} MarkerRuns(lib: Library, st: State, guarded: bool, raw: string) returns (r: State)
    requires Sound(lib) && Has(st, Raw, Str(raw)) && Has(st, Marker, MarkerVal(lib.find(raw, "CEF:")))
    requires Has(st, Cef, Obj(map[])) && Cerr in st.env && st.env[Cerr] != Null
    ensures var i := lib.find(raw, "CEF:");
            if i.None? && !guarded then Exec(lib, st, MarkerStep(guarded)) == Halted
            else
              && Exec(lib, st, MarkerStep(guarded)) == Running(r)
              && CefSettled(st, r, if i.Some? && i.value >= 0 then lib.parseCef(raw[i.value..]) else None)
  {
    var i := lib.find(raw, "CEF:");
    r := st;
    EvalMarkerTest(lib, st, i, guarded);
    if i.Some? && i.value >= 0 {
      SliceRuns(lib, st, raw, i.value);
      r := IfTrue(lib, st, MarkerStep(guarded), Paired(lib, st, Cef, Cerr, lib.parseCef(raw[i.value..])));
    } else if i.Some? || guarded {
      IfFalse(lib, st, MarkerStep(guarded));
    }
  }

  lemma {:induction false} SettledThroughMarker(st: State, v: Val, r: State, cef: Option<map<string, Val>>)
    requires CefSettled(Define(st, Marker, v), r, cef)
    ensures CefSettled(st, r, cef)
  {
  }

  lemma {:induction false} SettledThroughBlock(st: State, inner: State, r: State, cef: Option<map<string, Val>>)
    requires CefSettled(st, inner, cef) && Cef in st.env && Cerr in st.env
    requires Projects(st, inner, r)
    ensures CefSettled(st, r, cef)
  {
  }

  lemma {:induction false} FallbackBodyRuns(lib: Library, st: State, guarded: bool, raw: string) returns (r: State)
    requires Sound(lib) && Has(st, Raw, Str(raw)) && Has(st, Cef, Obj(map[]))
    requires Cerr in st.env && st.env[Cerr] != Null
    ensures var body := CefStep(guarded)[1].body;
            if lib.find(raw, "CEF:").None? && !guarded then ExecAll(lib, st, body) == Halted
            else ExecAll(lib, st, body) == Running(r) && CefSettled(st, r, FromMarker(lib, raw))
  {
    var body := CefStep(guarded)[1].body;
    var s1 := Define(st, Marker, MarkerVal(lib.find(raw, "CEF:")));
    FindRuns(lib, st, raw);
    r := MarkerRuns(lib, s1, guarded, raw);
    TwoRun(lib, st, body, s1);
    if lib.find(raw, "CEF:").Some? || guarded {
      SettledThroughMarker(st, MarkerVal(lib.find(raw, "CEF:")), r, FromMarker(lib, raw));
    }
  }

  lemma {:induction false} FallbackStep(lib: Library, st: State, s: Stmt, halts: bool, inner: State,
                                        cef: Option<map<string, Val>>) returns (r: State)
    requires s.If? && s.c == Bin(NotEq, Var(Cerr), LitNull)
    requires Cef in st.env && Cerr in st.env && st.env[Cerr] != Null
    requires if halts then ExecAll(lib, st, s.body) == Halted
             else ExecAll(lib, st, s.body) == Running(inner) && CefSettled(st, inner, cef)
    ensures if halts then Exec(lib, st, s) == Halted
            else Exec(lib, st, s) == Running(r) && CefSettled(st, r, cef)
  {
    EvalIsNull(lib, st, Cerr, st.env[Cerr]);
    r := st;
    if !halts {
      r := IfTrue(lib, st, s, inner);
      SettledThroughBlock(st, inner, r, cef);
    }
  }

  lemma {:induction false} FallbackRuns(lib: Library, st: State, guarded: bool, raw: string) returns (r: State)
    requires Sound(lib) && Has(st, Raw, Str(raw)) && Has(st, Cef, Obj(map[]))
    requires Cerr in st.env && st.env[Cerr] != Null
    ensures if lib.find(raw, "CEF:").None? && !guarded then Exec(lib, st, CefStep(guarded)[1]) == Halted
            else Exec(lib, st, CefStep(guarded)[1]) == Running(r) && CefSettled(st, r, FromMarker(lib, raw))
  {
    var halts := lib.find(raw, "CEF:").None? && !guarded;
    var inner := FallbackBodyRuns(lib, st, guarded, raw);
    r := FallbackStep(lib, st, CefStep(guarded)[1], halts, inner, FromMarker(lib, raw));
  }

  lemma {:induction false} CefSettles(lib: Library, event: map<string, Val>, raw: string, body: string,
                                      syslog: Option<map<string, Val>>, cef: Option<map<string, Val>>,
                                      st: State, s1: State, r: State)
    requires AfterSyslog(event, raw, syslog, body, st)
    requires Kept(st, s1, {Cef, Cerr}) && s1.event == st.event && CefSettled(s1, r, cef)
    ensures AfterCef(event, syslog, cef, r)
  {
  }

  /** CEF parses from the body, so the fallback is skipped. */
  lemma {:induction false} SkipsFallback(lib: Library, st: State, guarded: bool)
    requires Has(st, Cerr, Null)
    ensures Exec(lib, st, CefStep(guarded)[1]) == Running(st)
  {
    EvalIsNull(lib, st, Cerr, Null);
    IfFalse(lib, st, CefStep(guarded)[1]);
  }

  lemma {:induction false} FirstCefRuns(lib: Library, st: State, body: string, guarded: bool)
    requires Has(st, Body, Str(body))
    ensures ExecAll(lib, st, CefStep(guarded)) ==
            Exec(lib, Paired(lib, st, Cef, Cerr, lib.parseCef(body)), CefStep(guarded)[1])
  {
    ParseRuns(lib, st, Cef, Cerr, ParseCef, Var(Body), body);
    TwoRun(lib, st, CefStep(guarded), Paired(lib, st, Cef, Cerr, lib.parseCef(body)));
  }

  lemma {:induction false} CefFromBody(lib: Library, event: map<string, Val>, raw: string, body: string,
                                       syslog: Option<map<string, Val>>, st: State, guarded: bool) returns (r: State)
    requires AfterSyslog(event, raw, syslog, body, st) && lib.parseCef(body).Some?
    ensures ExecAll(lib, st, CefStep(guarded)) == Running(r) && AfterCef(event, syslog, lib.parseCef(body), r)
  {
    r := Paired(lib, st, Cef, Cerr, lib.parseCef(body));
    FirstCefRuns(lib, st, body, guarded);
    SkipsFallback(lib, r, guarded);
    CefSettles(lib, event, raw, body, syslog, lib.parseCef(body), st, r, r);
  }

  lemma {:induction false} CefFromMarker(lib: Library, event: map<string, Val>, raw: string, body: string,
                                         syslog: Option<map<string, Val>>, st: State, guarded: bool)
    returns (r: State)
    requires Sound(lib) && AfterSyslog(event, raw, syslog, body, st) && lib.parseCef(body).None?
    ensures if !guarded && lib.find(raw, "CEF:").None? then ExecAll(lib, st, CefStep(guarded)) == Halted
            else ExecAll(lib, st, CefStep(guarded)) == Running(r) && AfterCef(event, syslog, FromMarker(lib, raw), r)
  {
    var s1 := Paired(lib, st, Cef, Cerr, None);
    r := MarkerFallback(lib, raw, body, st, guarded);
    if guarded || lib.find(raw, "CEF:").Some? {
      CefSettles(lib, event, raw, body, syslog, FromMarker(lib, raw), st, s1, r);
    }
  }

  lemma {:induction false} MarkerFallback(lib: Library, raw: string, body: string, st: State, guarded: bool)
    returns (r: State)
    requires Sound(lib) && Has(st, Raw, Str(raw)) && Has(st, Body, Str(body)) && lib.parseCef(body).None?
    ensures var s1 := Paired(lib, st, Cef, Cerr, None);
            && Kept(st, s1, {Cef, Cerr}) && s1.event == st.event
            && if !guarded && lib.find(raw, "CEF:").None? then ExecAll(lib, st, CefStep(guarded)) == Halted
               else ExecAll(lib, st, CefStep(guarded)) == Running(r) && CefSettled(s1, r, FromMarker(lib, raw))
  {
    FirstCefRuns(lib, st, body, guarded);
    r := FallbackRuns(lib, Paired(lib, st, Cef, Cerr, None), guarded, raw);
  }

  /** Parsing CEF from the body, then from the marker; the unguarded program halts exactly when the
      fallback is taken and there is no marker. */
  lemma {:induction false} CefRuns(lib: Library, event: map<string, Val>, raw: string, body: string,
                                   syslog: Option<map<string, Val>>, st: State, guarded: bool) returns (r: State)
    requires Sound(lib) && AfterSyslog(event, raw, syslog, body, st)
    ensures if !guarded && lib.parseCef(body).None? && lib.find(raw, "CEF:").None?
            then ExecAll(lib, st, CefStep(guarded)) == Halted
            else ExecAll(lib, st, CefStep(guarded)) == Running(r) && AfterCef(event, syslog, CefOf(lib, raw, body), r)
  {
    if lib.parseCef(body).Some? {
      r := CefFromBody(lib, event, raw, body, syslog, st, guarded);
    } else {
      r := CefFromMarker(lib, event, raw, body, syslog, st, guarded);
    }
  }

  // ---------------------------------------------------------------- fields

  predicate AfterFields(event: map<string, Val>, view: View, st: State) {
    && st.event == event
    && Has(st, Ev, Obj(view.ev)) && Has(st, ParseOk, Bool(view.syslogOk || view.cefOk))
    && Has(st, SyslogOk, Bool(view.syslogOk)) && Has(st, CefOk, Bool(view.cefOk))
    && Decision in st.env && Reason in st.env
  }

  lemma {:induction false} TakeCefRuns(lib: Library, st: State, cef: Option<map<string, Val>>) returns (r: State)
    requires Has(st, Cef, Obj(Default(cef, map[]))) && Has(st, Ev, Obj(map[])) && Has(st, CefOk, Bool(false))
    requires Cerr in st.env && (st.env[Cerr] == Null <==> cef.Some?)
    ensures Exec(lib, st, FieldsStep()[0]) == Running(r) && r.event == st.event
    ensures Has(r, Ev, Obj(Default(cef, map[]))) && Has(r, CefOk, Bool(cef.Some?))
    ensures Kept(st, r, {Ev, CefOk})
  {
    var s := FieldsStep()[0];
    EvalIsNull(lib, st, Cerr, st.env[Cerr]);
    r := st;
    if cef.Some? {
      var s1 := Define(st, Ev, Obj(cef.value));
      var inner := Define(s1, CefOk, Bool(true));
      TwoRun(lib, st, s.body, s1);
      r := IfTrue(lib, st, s, inner);
    } else {
      IfFalse(lib, st, s);
    }
  }

  lemma {:induction false} EvalSetSyslog(lib: Library, st: State, ev: map<string, Val>, m: map<string, Val>)
    requires Has(st, Ev, Obj(ev)) && Has(st, Parsed, Obj(m))
    ensures Eval(lib, st, SetSyslog()) == Got(Obj(ev["syslog" := Obj(LowerKeysOf(m))]))
  {
    var key, value := Array([LitStr("syslog")]), LowerKeys(Var(Parsed));
    EvalOne(lib, st, LitStr("syslog"));
    EvalTwo(lib, st, key, value);
    assert [Var(Ev), key, value][1..] == [key, value];
    assert EvalAll(lib, st, [Var(Ev), key, value]) ==
           GotAll([Obj(ev)] + [Arr([Str("syslog")]), Obj(LowerKeysOf(m))]);
  }

  lemma {:induction false} NestSyslogRuns(lib: Library, st: State, top: map<string, Val>,
                                          syslog: Option<map<string, Val>>) returns (r: State)
    requires Has(st, Ev, Obj(top)) && Has(st, Parsed, Obj(Default(syslog, map[])))
    requires Has(st, SyslogOk, Bool(syslog.Some?))
    ensures Exec(lib, st, FieldsStep()[2]) == Running(r) && r.event == st.event
    ensures Has(r, Ev, Obj(if syslog.Some? then top["syslog" := Obj(LowerKeysOf(syslog.value))] else top))
    ensures Kept(st, r, {Ev})
  {
    var s := FieldsStep()[2];
    r := st;
    if syslog.Some? {
      EvalSetSyslog(lib, st, top, syslog.value);
      OneRuns(lib, st, s.body);
      r := IfTrue(lib, st, s, Define(st, Ev, Obj(top["syslog" := Obj(LowerKeysOf(syslog.value))])));
    } else {
      IfFalse(lib, st, s);
    }
  }

  lemma {:induction false} LowerRuns(lib: Library, st: State, m: map<string, Val>)
    requires Has(st, Ev, Obj(m))
    ensures Exec(lib, st, FieldsStep()[1]) == Running(Define(st, Ev, Obj(LowerKeysOf(m))))
  {
    assert Eval(lib, st, LowerKeys(Var(Ev))) == Got(Obj(LowerKeysOf(m)));
  }

  lemma {:induction false} ParsedRuns(lib: Library, st: State, a: bool, b: bool)
    requires Has(st, SyslogOk, Bool(a)) && Has(st, CefOk, Bool(b))
    ensures Exec(lib, st, FieldsStep()[3]) == Running(Define(st, ParseOk, Bool(a || b)))
  {
    assert Eval(lib, st, Bin(Op.Or, Var(SyslogOk), Var(CefOk))) == Got(Bool(a || b));
  }

  /** The first two steps: the CEF fields, lower-cased. */
  lemma {:induction false} TopRuns(lib: Library, st: State, cef: Option<map<string, Val>>) returns (s1: State, s2: State)
    requires Has(st, Cef, Obj(Default(cef, map[]))) && Has(st, Ev, Obj(map[])) && Has(st, CefOk, Bool(false))
    requires Cerr in st.env && (st.env[Cerr] == Null <==> cef.Some?)
    ensures Exec(lib, st, FieldsStep()[0]) == Running(s1) && Exec(lib, s1, FieldsStep()[1]) == Running(s2)
    ensures Has(s2, Ev, Obj(LowerKeysOf(Default(cef, map[])))) && Has(s2, CefOk, Bool(cef.Some?))
    ensures Kept(st, s2, {Ev, CefOk}) && s2.event == st.event
  {
    s1 := TakeCefRuns(lib, st, cef);
    LowerRuns(lib, s1, Default(cef, map[]));
    s2 := Define(s1, Ev, Obj(LowerKeysOf(Default(cef, map[]))));
  }

  /** The last two: the syslog namespace and the parse flag. */
  lemma {:induction false} LastRuns(lib: Library, st: State, syslog: Option<map<string, Val>>,
                                    cef: Option<map<string, Val>>) returns (s3: State, r: State)
    requires Has(st, Ev, Obj(LowerKeysOf(Default(cef, map[])))) && Has(st, CefOk, Bool(cef.Some?))
    requires Has(st, SyslogOk, Bool(syslog.Some?)) && Has(st, Parsed, Obj(Default(syslog, map[])))
    ensures Exec(lib, st, FieldsStep()[2]) == Running(s3) && Exec(lib, s3, FieldsStep()[3]) == Running(r)
    ensures Has(r, Ev, Obj(MakeView(syslog, cef).ev)) && Has(r, ParseOk, Bool(syslog.Some? || cef.Some?))
    ensures Kept(st, r, {Ev, ParseOk}) && r.event == st.event
  {
    s3 := NestSyslogRuns(lib, st, LowerKeysOf(Default(cef, map[])), syslog);
    ParsedRuns(lib, s3, syslog.Some?, cef.Some?);
    r := Define(s3, ParseOk, Bool(syslog.Some? || cef.Some?));
  }

  lemma {:induction false} FieldsRun(lib: Library, event: map<string, Val>, syslog: Option<map<string, Val>>,
                                     cef: Option<map<string, Val>>, st: State) returns (r: State)
    requires AfterCef(event, syslog, cef, st)
    ensures ExecAll(lib, st, FieldsStep()) == Running(r) && AfterFields(event, MakeView(syslog, cef), r)
  {
    var s1, s2 := TopRuns(lib, st, cef);
    var s3, last := LastRuns(lib, s2, syslog, cef);
    FourRun(lib, st, FieldsStep(), s1, s2, s3);
    r := last;
    FieldsDone(event, syslog, cef, st, s2, r);
  }

  lemma {:induction false} FieldsDone(event: map<string, Val>, syslog: Option<map<string, Val>>,
                                      cef: Option<map<string, Val>>, st: State, s2: State, r: State)
    requires AfterCef(event, syslog, cef, st)
    requires Kept(st, s2, {Ev, CefOk}) && s2.event == st.event && Has(s2, CefOk, Bool(cef.Some?))
    requires Kept(s2, r, {Ev, ParseOk}) && r.event == s2.event
    requires Has(r, Ev, Obj(MakeView(syslog, cef).ev)) && Has(r, ParseOk, Bool(syslog.Some? || cef.Some?))
    ensures AfterFields(event, MakeView(syslog, cef), r)
  {
  }

  // ---------------------------------------------------------------- the whole prelude

  function NoMatchVals(): seq<Val> { [Null, Null, Null, Bool(false), Bool(false)] }

  lemma {:induction false} NoMatchLiterals(i: nat)
    requires i < 5
    ensures SetsLiteral(NoMatchYet()[i], MATCH_NAMES[i], NoMatchVals()[i])
  {
  }

  predicate NothingMatched(st: State) {
    && Has(st, MatchedId, Null) && Has(st, MatchedVersion, Null) && Has(st, MatchedAction, Null)
    && Has(st, MatchedShadow, Bool(false)) && Has(st, MatchedRetain, Bool(false))
  }

  predicate IsMark(n: Name) {
    n.MatchedId? || n.MatchedVersion? || n.MatchedAction? || n.MatchedShadow? || n.MatchedRetain?
  }

  /** Nothing but the noted match may differ. */
  ghost predicate OnlyMarked(st: State, r: State) {
    && r.event == st.event
    && forall n {:trigger n in st.env} {:trigger n in r.env} ::
         n in st.env && !IsMark(n) ==> n in r.env && r.env[n] == st.env[n]
  }

  lemma {:induction false} NoMatchDefined(st: State) returns (r: State)
    ensures r == DefineAll(st, MATCH_NAMES, NoMatchVals())
    ensures NothingMatched(r) && r.event == st.event
    ensures OnlyMarked(st, r)
  {
    r := DefineAll(st, MATCH_NAMES, NoMatchVals());
    DefineFive(st, MATCH_NAMES, NoMatchVals());
  }

  lemma {:induction false} MarkKeepsFields(event: map<string, Val>, view: View, st: State, r: State)
    requires AfterFields(event, view, st) && OnlyMarked(st, r)
    ensures AfterFields(event, view, r)
  {
  }

  lemma {:induction false} NoMatchRuns(lib: Library, event: map<string, Val>, view: View, st: State)
    returns (r: State)
    requires AfterFields(event, view, st)
    ensures ExecAll(lib, st, NoMatchYet()) == Running(r) && AfterFields(event, view, r) && NothingMatched(r)
  {
    r := NoMatchDefined(st);
    forall i | 0 <= i < 5 ensures SetsLiteral(NoMatchYet()[i], MATCH_NAMES[i], NoMatchVals()[i]) {
      NoMatchLiterals(i);
    }
    LiteralsRun(lib, st, NoMatchYet(), MATCH_NAMES, NoMatchVals());
    MarkKeepsFields(event, view, st, r);
  }

  /** The event takes the CEF fallback and has no marker. */
  predicate NoMarker(lib: Library, event: map<string, Val>) {
    var raw := RawText(lib, event);
    lib.parseCef(BodyText(lib, raw, lib.parseSyslog(raw))).None? && lib.find(raw, "CEF:").None?
  }

  /** The prelude turns any event into its view and, guarded, never halts; without the guard it halts
      exactly on the events whose fallback finds no marker. */
  lemma {:induction false} PreludeRuns(lib: Library, event: map<string, Val>, guarded: bool) returns (st: State)
    requires Sound(lib)
    ensures if !guarded && NoMarker(lib, event)
            then ExecAll(lib, State(map[], event), Prelude(guarded)) == Halted
            else ExecAll(lib, State(map[], event), Prelude(guarded)) == Running(st)
                 && AfterFields(event, ViewOf(lib, event), st) && NothingMatched(st)
  {
    var raw := RawText(lib, event);
    var syslog := lib.parseSyslog(raw);
    var body := BodyText(lib, raw, syslog);
    var s1 := SetupRuns(lib, event);
    var s2 := SyslogRuns(lib, event, raw, s1);
    var s3 := CefRuns(lib, event, raw, body, syslog, s2, guarded);
    PreludeAppends(lib, State(map[], event), guarded);
    st := s3;
    if guarded || !NoMarker(lib, event) {
      var view := MakeView(syslog, CefOf(lib, raw, body));
      var s4 := FieldsRun(lib, event, syslog, CefOf(lib, raw, body), s3);
      st := NoMatchRuns(lib, event, view, s4);
    }
  }

  /** Runs one list after another. */
  ghost function AndThen(lib: Library, r: Run, ss: seq<Stmt>): Run {
    if r.Halted? then Halted else ExecAll(lib, r.st, ss)
  }

  lemma {:induction false} PreludeAppends(lib: Library, st: State, guarded: bool)
    ensures ExecAll(lib, st, Prelude(guarded)) ==
            AndThen(lib, AndThen(lib, AndThen(lib, AndThen(lib, ExecAll(lib, st, Setup()), SyslogStep()),
                                              CefStep(guarded)), FieldsStep()), NoMatchYet())
  {
    FiveAppends(lib, st, Setup(), SyslogStep(), CefStep(guarded), FieldsStep(), NoMatchYet());
  }

  lemma {:induction false} FiveAppends(lib: Library, st: State, a: seq<Stmt>, b: seq<Stmt>, c: seq<Stmt>,
                                       d: seq<Stmt>, e: seq<Stmt>)
    ensures ExecAll(lib, st, a + b + c + d + e) ==
            AndThen(lib, AndThen(lib, AndThen(lib, AndThen(lib, ExecAll(lib, st, a), b), c), d), e)
  {
    ExecAppend(lib, st, a, b);
    ExecAppend(lib, st, a + b, c);
    ExecAppend(lib, st, a + b + c, d);
    ExecAppend(lib, st, a + b + c + d, e);
  }
}
