/**
 The part of VRL that the compiler emits: values, syntax and an interpreter.

 The parsers, `find`, the numeric and text conversions, the address test and the equality of
 unlike values belong to Vector. They are the fields of a `Library`, and every theorem holds for
 every sound library.
 */
module Vrl {
  import opened Common
  import Globs
  import Decimals

  // ---------------------------------------------------------------- values

  datatype Val =
    | Null
    | Bool(b: bool)
    | Int(i: int)
    | Float(r: real)
    | Str(s: string)
    | Regex(text: string)
    | Time(ticks: int)
    | Arr(items: seq<Val>)
    | Obj(fields: map<string, Val>)

  datatype Library = Library(
    parseSyslog: string -> Option<map<string, Val>>,
    parseCef: string -> Option<map<string, Val>>,
    find: (string, string) -> Option<int>,
    toFloat: Val -> Option<real>,
    toText: Val -> Option<string>,
    inCidr: (string, string) -> Option<bool>,
    same: (Val, Val) -> bool,
    member: (Val, Val) -> bool,
    now: Val,
    errorText: string)

  /** What the emitted program relies on: text converts to itself, a null never to visible text,
      the clock is printable, and `find` answers null or an index that is not past the end. */
  ghost predicate Sound(lib: Library) {
    && (forall s :: lib.toText(Str(s)) == Some(s))
    && (lib.toText(Null) == None || lib.toText(Null) == Some(""))
    && lib.toText(lib.now).Some?
    && (forall s, n :: lib.find(s, n).Some? ==> lib.find(s, n).value <= |s|)
  }

  // ---------------------------------------------------------------- syntax

  datatype Name =
    | Raw | Ev | ParseOk | SyslogOk | CefOk | Body | Decision | Reason
    | Parsed | Perr | Cef | Cerr | Marker
    | MatchedId | MatchedVersion | MatchedAction | MatchedShadow | MatchedRetain
    | ShadowChain | SsEventId | SsSeverity | SsHost | SsName

  datatype Func =
    | ToString | Get | ToFloat | Downcase | Includes | Contains_ | StartsWith_ | EndsWith_
    | Match | IpCidrContains | ParseSyslog | ParseCef | Find | Slice | Set | Now

  datatype Root = Message | Ss

  datatype Op = Coalesce | Or | And | EqEq | NotEq | Lt | Le | Gt | Ge

  datatype Entry = Entry(key: string, value: Expr)

  /** Concrete syntax: `Paren` is a node of its own, so what the reader recovers is exactly what
      was written, and `LowerKeys(e)` is `map_keys(e) -> |k| { downcase(k) }`. */
  datatype Expr =
    | LitNull
    | LitBool(b: bool)
    | LitNum(lexeme: string)
    | LitStr(s: string)
    | LitRegex(text: string)
    | Var(n: Name)
    | Dot(root: Root)
    | Array(items: seq<Expr>)
    | Object(entries: seq<Entry>)
    | Call(f: Func, args: seq<Expr>, caseSensitive: Option<bool>)
    | LowerKeys(e: Expr)
    | Not(e: Expr)
    | Bin(op: Op, l: Expr, r: Expr)
    | Paren(e: Expr)

  datatype Stmt =
    | Note(column: nat, text: string)
    | Blank
    | Assign(n: Name, e: Expr)
    | AssignDot(root: Root, e: Expr)
    | AssignPair(n: Name, err: Name, e: Expr)
    | If(oneLine: bool, c: Expr, body: seq<Stmt>, tail: Tail)

  datatype Tail = Done | Else(body: seq<Stmt>) | Elif(c: Expr, body: seq<Stmt>, tail: Tail)

  // ---------------------------------------------------------------- expressions

  /** A value, an error that `??` catches, or an abort that nothing catches. */
  datatype Outcome = Got(v: Val) | Failed | Aborted

  datatype Outcomes = GotAll(vs: seq<Val>) | FailedOne | AbortedOne

  datatype State = State(env: map<Name, Val>, event: map<string, Val>)

  function RootText(root: Root): string {
    match root case Message => "message" case Ss => "ss"
  }

  predicate SameValue(lib: Library, a: Val, b: Val) {
    if a.Str? && b.Str? then a == b
    else if a.Null? || b.Null? then a == b
    else lib.same(a, b)
  }

  predicate SameItem(lib: Library, item: Val, v: Val) {
    if item.Str? && v.Str? then item == v else lib.member(item, v)
  }

  /** A lookup along path segments: anything missing on the way is null. */
  function Walk(v: Val, path: seq<string>): Val {
    if path == [] then v
    else if v.Obj? && path[0] in v.fields then Walk(v.fields[path[0]], path[1..])
    else Null
  }

  /** From object to object along the segments. */
  predicate Leads(vs: seq<Val>, path: seq<string>) {
    && |vs| == |path| + 1
    && forall i :: 0 <= i < |path| ==>
         vs[i].Obj? && path[i] in vs[i].fields && vs[i + 1] == vs[i].fields[path[i]]
  }

  lemma {:induction false} LeadsRest(vs: seq<Val>, path: seq<string>)
    requires Leads(vs, path) && path != []
    ensures Leads(vs[1..], path[1..])
    ensures vs[0].Obj? && path[0] in vs[0].fields && vs[1] == vs[0].fields[path[0]]
  {
    forall i | 0 <= i < |path| - 1 ensures vs[1..][i] == vs[i + 1] && path[1..][i] == path[i + 1] {}
  }

  lemma {:induction false} LeadsOn(v: Val, vs: seq<Val>, path: seq<string>)
    requires path != [] && Leads(vs, path[1..]) && v.Obj? && path[0] in v.fields && vs[0] == v.fields[path[0]]
    ensures Leads([v] + vs, path)
  {
    var more := [v] + vs;
    forall i | 0 < i < |path| ensures more[i] == vs[i - 1] && path[i] == path[1..][i - 1] && more[i + 1] == vs[i] {}
  }

  ghost predicate LeadsTo(v: Val, path: seq<string>, w: Val) {
    exists vs :: Leads(vs, path) && vs[0] == v && vs[|path|] == w
  }

  /** A lookup finds `w` exactly when the segments lead there. */
  lemma {:induction false} WalkLeads(v: Val, path: seq<string>, w: Val)
    requires w != Null
    ensures Walk(v, path) == w <==> LeadsTo(v, path, w)
  {
    if path == [] {
      if v == w { assert Leads([v], path); }
    } else {
      if v.Obj? && path[0] in v.fields {
        WalkLeads(v.fields[path[0]], path[1..], w);
        if LeadsTo(v.fields[path[0]], path[1..], w) {
          var vs :| Leads(vs, path[1..]) && vs[0] == v.fields[path[0]] && vs[|path| - 1] == w;
          LeadsOn(v, vs, path);
        }
      }
      if LeadsTo(v, path, w) {
        var vs :| Leads(vs, path) && vs[0] == v && vs[|path|] == w;
        LeadsRest(vs, path);
      }
    }
  }

  /** One of the keys that fold to `k`; which one wins a collision is not specified. */
  ghost function PickKey(m: map<string, Val>, k: string): string
    requires exists x :: x in m && Lower(x) == k
  {
    var x :| x in m && Lower(x) == k; x
  }

  ghost function LowerKeysOf(m: map<string, Val>): map<string, Val> {
    map k | k in (set x | x in m :: Lower(x)) :: m[PickKey(m, k)]
  }

  /** The keys are the folded keys, each with a value it had before; with its own when no other key
      folds to the same. */
  lemma {:induction false} LowerKeysMean(m: map<string, Val>, k: string)
    ensures k in LowerKeysOf(m) <==> exists x :: x in m && Lower(x) == k
    ensures k in LowerKeysOf(m) ==> exists x :: x in m && Lower(x) == k && LowerKeysOf(m)[k] == m[x]
    ensures forall x :: x in m && Lower(x) == k && (forall y :: y in m && Lower(y) == k ==> y == x) ==>
              k in LowerKeysOf(m) && LowerKeysOf(m)[k] == m[x]
  {
    if x :| x in m && Lower(x) == k {
      var y := PickKey(m, k);
      assert y in m && Lower(y) == k;
    }
  }

  function Segments(items: seq<Val>): (r: Option<seq<string>>)
    ensures r.Some? ==> |r.value| == |items|
  {
    if items == [] then Some([])
    else if !items[0].Str? then None
    else
      var rest := Segments(items[1..]);
      if rest.None? then None else Some([items[0].s] + rest.value)
  }

  function ObjOr(r: Option<map<string, Val>>): Outcome {
    if r.Some? then Got(Obj(r.value)) else Failed
  }

  function TextTest(f: Func, s: string, needle: string): bool
    requires f in {Contains_, StartsWith_, EndsWith_}
  {
    match f
    case Contains_ => Contains(s, needle)
    case StartsWith_ => StartsWith(s, needle)
    case EndsWith_ => EndsWith(s, needle)
  }

  predicate HasItem(lib: Library, items: seq<Val>, v: Val) {
    exists i :: 0 <= i < |items| && SameItem(lib, items[i], v)
  }

  function Apply(lib: Library, f: Func, vs: seq<Val>, caseSensitive: Option<bool>): Outcome {
    match f
    case ToString =>
      if |vs| != 1 then Failed
      else
        var t := lib.toText(vs[0]);
        if t.Some? then Got(Str(t.value)) else Failed
    case Get =>
      if |vs| != 2 || !vs[0].Obj? || !vs[1].Arr? then Failed
      else
        var path := Segments(vs[1].items);
        if path.Some? then Got(Walk(vs[0], path.value)) else Failed
    case ToFloat =>
      if |vs| != 1 then Failed
      else
        var x := lib.toFloat(vs[0]);
        if x.Some? then Got(Float(x.value)) else Failed
    case Downcase =>
      if |vs| != 1 || !vs[0].Str? then Failed else Got(Str(Lower(vs[0].s)))
    case Includes =>
      if |vs| != 2 || !vs[0].Arr? then Failed else Got(Bool(HasItem(lib, vs[0].items, vs[1])))
    case Contains_ | StartsWith_ | EndsWith_ =>
      if |vs| != 2 || !vs[0].Str? || !vs[1].Str? then Failed
      else if caseSensitive == Some(false) then
        Got(Bool(TextTest(f, Lower(vs[0].s), Lower(vs[1].s))))
      else Got(Bool(TextTest(f, vs[0].s, vs[1].s)))
    case Match =>
      if |vs| != 2 || !vs[0].Str? || !vs[1].Regex? then Failed
      else
        var m := Globs.RegexMatches(vs[1].text, vs[0].s);
        if m.Some? then Got(Bool(m.value)) else Failed
    case IpCidrContains =>
      if |vs| != 2 || !vs[0].Str? || !vs[1].Str? then Failed
      else
        var b := lib.inCidr(vs[0].s, vs[1].s);
        if b.Some? then Got(Bool(b.value)) else Failed
    case ParseSyslog =>
      if |vs| != 1 || !vs[0].Str? then Failed else ObjOr(lib.parseSyslog(vs[0].s))
    case ParseCef =>
      if |vs| != 1 || !vs[0].Str? then Failed else ObjOr(lib.parseCef(vs[0].s))
    case Find =>
      if |vs| != 2 || !vs[0].Str? || !vs[1].Str? then Failed
      else
        var i := lib.find(vs[0].s, vs[1].s);
        Got(if i.Some? then Int(i.value) else Null)
    case Slice =>
      // Called as `slice!`: a bad argument aborts, and `??` does not catch it.
      if |vs| != 2 || !vs[0].Str? || !vs[1].Int? || !(0 <= vs[1].i <= |vs[0].s|) then Aborted
      else Got(Str(vs[0].s[vs[1].i..]))
    case Set =>
      if |vs| != 3 || !vs[0].Obj? || !vs[1].Arr? || |vs[1].items| != 1 || !vs[1].items[0].Str? then Aborted
      else Got(Obj(vs[0].fields[vs[1].items[0].s := vs[2]]))
    case Now =>
      if |vs| != 0 then Failed else Got(lib.now)
  }

  predicate Compare(op: Op, a: real, b: real)
    requires op in {Lt, Le, Gt, Ge}
  {
    match op
    case Lt => a < b
    case Le => a <= b
    case Gt => a > b
    case Ge => a >= b
  }

  /** The operators that need both operands. Comparing anything but two numbers is an error. */
  function Strict(lib: Library, op: Op, a: Val, b: Val): Outcome
    requires op in {EqEq, NotEq, Lt, Le, Gt, Ge}
  {
    if op.EqEq? then Got(Bool(SameValue(lib, a, b)))
    else if op.NotEq? then Got(Bool(!SameValue(lib, a, b)))
    else if a.Int? && b.Int? then Got(Bool(Compare(op, a.i as real, b.i as real)))
    else if a.Float? && b.Float? then Got(Bool(Compare(op, a.r, b.r)))
    else Failed
  }

  function NumVal(lexeme: string): Val {
    if '.' in lexeme then Float(Decimals.ValueOf(lexeme)) else Int(Decimals.IntOf(lexeme))
  }

  ghost function Eval(lib: Library, st: State, e: Expr): Outcome
    decreases e, 1
  {
    match e
    case LitNull => Got(Null)
    case LitBool(b) => Got(Bool(b))
    case LitNum(t) => Got(NumVal(t))
    case LitStr(s) => Got(Str(s))
    case LitRegex(t) => Got(Regex(t))
    case Var(n) => if n in st.env then Got(st.env[n]) else Aborted
    case Dot(root) => Got(if RootText(root) in st.event then st.event[RootText(root)] else Null)
    case Array(items) =>
      (match EvalAll(lib, st, items)
       case GotAll(vs) => Got(Arr(vs))
       case FailedOne => Failed
       case AbortedOne => Aborted)
    case Object(entries) => EvalEntries(lib, st, entries)
    case Call(f, args, cs) =>
      (match EvalAll(lib, st, args)
       case GotAll(vs) => Apply(lib, f, vs, cs)
       case FailedOne => Failed
       case AbortedOne => Aborted)
    case LowerKeys(a) =>
      (match Eval(lib, st, a)
       case Got(v) => if v.Obj? then Got(Obj(LowerKeysOf(v.fields))) else Failed
       case r => r)
    case Not(a) =>
      (match Eval(lib, st, a)
       case Got(v) => if v.Bool? then Got(Bool(!v.b)) else Failed
       case r => r)
    case Paren(a) => Eval(lib, st, a)
    case Bin(op, l, r) =>
      var a := Eval(lib, st, l);
      if op.Coalesce? then
        if a.Failed? then Eval(lib, st, r) else a
      else if !a.Got? then a
      else if op.And? || op.Or? then
        if !a.v.Bool? then Failed
        else if a.v.b == op.Or? then a
        else Eval(lib, st, r)
      else
        match Eval(lib, st, r)
        case Got(b) => Strict(lib, op, a.v, b)
        case other => other
  }

  ghost function EvalAll(lib: Library, st: State, es: seq<Expr>): (r: Outcomes)
    ensures r.GotAll? ==> |r.vs| == |es|
    decreases es, 0
  {
    if es == [] then GotAll([])
    else
      match Eval(lib, st, es[0])
      case Failed => FailedOne
      case Aborted => AbortedOne
      case Got(v) =>
        match EvalAll(lib, st, es[1..])
        case GotAll(vs) => GotAll([v] + vs)
        case other => other
  }

  ghost function EvalEntries(lib: Library, st: State, es: seq<Entry>): Outcome
    decreases es, 0
  {
    if es == [] then Got(Obj(map[]))
    else
      match Eval(lib, st, es[0].value)
      case Got(v) =>
        (match EvalEntries(lib, st, es[1..])
         case Got(rest) => if rest.Obj? then Got(Obj(map[es[0].key := v] + rest.fields)) else Failed
         case other => other)
      case other => other
  }

  // ---------------------------------------------------------------- statements

  datatype Run = Running(st: State) | Halted

  /** Leaving a block: variables first assigned inside it are undefined afterwards. */
  function Leave(outer: State, r: Run): Run {
    if r.Halted? then Halted
    else Running(State(map n | n in r.st.env && n in outer.env :: r.st.env[n], r.st.event))
  }

  function Define(st: State, n: Name, v: Val): State {
    st.(env := st.env[n := v])
  }

  ghost function Exec(lib: Library, st: State, s: Stmt): Run
    decreases s, 1
  {
    match s
    case Note(_, _) => Running(st)
    case Blank => Running(st)
    case Assign(n, e) =>
      (match Eval(lib, st, e)
       case Got(v) => Running(Define(st, n, v))
       case _ => Halted)
    case AssignDot(root, e) =>
      (match Eval(lib, st, e)
       case Got(v) => Running(st.(event := st.event[RootText(root) := v]))
       case _ => Halted)
    case AssignPair(n, err, e) =>
      (match Eval(lib, st, e)
       case Got(v) => Running(Define(Define(st, n, v), err, Null))
       case Failed => Running(Define(Define(st, n, Obj(map[])), err, Str(lib.errorText)))
       case Aborted => Halted)
    case If(_, c, body, tail) =>
      match Eval(lib, st, c)
      case Got(v) =>
        if !v.Bool? then Halted
        else if v.b then Leave(st, ExecAll(lib, st, body))
        else ExecTail(lib, st, tail)
      case _ => Halted
  }

  ghost function ExecTail(lib: Library, st: State, t: Tail): Run
    decreases t, 0
  {
    match t
    case Done => Running(st)
    case Else(body) => Leave(st, ExecAll(lib, st, body))
    case Elif(c, body, tail) =>
      match Eval(lib, st, c)
      case Got(v) =>
        if !v.Bool? then Halted
        else if v.b then Leave(st, ExecAll(lib, st, body))
        else ExecTail(lib, st, tail)
      case _ => Halted
  }

  ghost function ExecAll(lib: Library, st: State, ss: seq<Stmt>): Run
    decreases ss, 0
  {
    if ss == [] then Running(st)
    else
      match Exec(lib, st, ss[0])
      case Halted => Halted
      case Running(st') => ExecAll(lib, st', ss[1..])
  }

  /** Running a program on one event, starting with no variables defined. */
  ghost function RunProgram(lib: Library, event: map<string, Val>, program: seq<Stmt>): Run {
    ExecAll(lib, State(map[], event), program)
  }

  lemma {:induction false} ExecAppend(lib: Library, st: State, a: seq<Stmt>, b: seq<Stmt>)
    ensures ExecAll(lib, st, a + b) ==
            match ExecAll(lib, st, a)
            case Halted => Halted
            case Running(st') => ExecAll(lib, st', b)
    decreases a
  {
    if a == [] {
      assert a + b == b;
    } else {
      assert (a + b)[0] == a[0] && (a + b)[1..] == a[1..] + b;
      match Exec(lib, st, a[0])
      case Halted =>
      case Running(st') => ExecAppend(lib, st', a[1..], b);
    }
  }
}
