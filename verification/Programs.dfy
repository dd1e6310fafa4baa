/**
 Programs as text: the layout the compiler emits, the parser for statements, and the theorem that
 reading the text of a program gives back its statements, comments and blank lines dropped.
 */
module Programs {
  import opened Common
  import opened Vrl
  import opened Lexer
  import opened Syntax

  // ---------------------------------------------------------------- layout

  function Indent(depth: nat): seq<Piece> {
    if depth == 0 then [] else [Ws(seq(4 * depth, _ => ' '))]
  }

  predicate IsSimple(s: Stmt) { s.Assign? || s.AssignDot? || s.AssignPair? }

  /** What a simple statement assigns to. */
  function Target(s: Stmt): seq<Piece>
    requires IsSimple(s)
  {
    match s
    case Assign(n, _) => [T(TName(n))]
    case AssignDot(root, _) => [T(TRoot(root))]
    case AssignPair(n, err, _) => [T(TName(n)), S(Comma), SPACE, T(TName(err))]
  }

  /** A simple statement without its indentation and newline. */
  function ShowSimple(s: Stmt): seq<Piece>
    requires IsSimple(s)
  {
    Target(s) + [SPACE, S(Assigns), SPACE] + Show(s.e)
  }

  /** A condition (or none), a braced block on its own lines, and what follows the brace. */
  function Arm(depth: nat, c: seq<Piece>, body: seq<Piece>, tail: seq<Piece>): seq<Piece> {
    var open := if c == [] then [S(LBrace), NEWLINE] else [SPACE, S(LBrace), NEWLINE];
    c + (open + (body + (Indent(depth) + ([S(RBrace)] + tail))))
  }

  function OneLineArm(c: seq<Piece>, body: seq<Piece>): seq<Piece> {
    c + ([SPACE, S(LBrace), SPACE] + (body + [S(RBrace), NEWLINE]))
  }

  function ShowStmt(depth: nat, s: Stmt): seq<Piece>
    decreases s, 1
  {
    match s
    case Note(column, text) => Indent(column) + [Cm(text)]
    case Blank => [NEWLINE]
    case If(oneLine, c, body, tail) =>
      if oneLine then Indent(depth) + ([T(TWord(KIf)), SPACE] + OneLineArm(Show(c), ShowInline(body)))
      else
        Indent(depth) + ([T(TWord(KIf)), SPACE]
                         + Arm(depth, Show(c), ShowBlock(depth + 1, body), ShowTail(depth, tail)))
    case _ => Indent(depth) + ShowSimple(s) + [NEWLINE]
  }

  function ShowInline(body: seq<Stmt>): seq<Piece> {
    if body == [] then []
    else (if IsSimple(body[0]) then ShowSimple(body[0]) else []) + [SPACE] + ShowInline(body[1..])
  }

  function ShowBlock(depth: nat, body: seq<Stmt>): seq<Piece>
    decreases body, 0
  {
    if body == [] then [] else ShowStmt(depth, body[0]) + ShowBlock(depth, body[1..])
  }

  function ShowTail(depth: nat, t: Tail): seq<Piece>
    decreases t, 0
  {
    match t
    case Done => [NEWLINE]
    case Else(body) => [SPACE, T(TWord(KElse)), SPACE] + Arm(depth, [], ShowBlock(depth + 1, body), [NEWLINE])
    case Elif(c, body, tail) =>
      [SPACE, T(TWord(KElse)), SPACE] + ([T(TWord(KIf)), SPACE]
                                         + Arm(depth, Show(c), ShowBlock(depth + 1, body), ShowTail(depth, tail)))
  }

  /** The emitted text. */
  function Text(program: seq<Stmt>): string {
    Render(ShowBlock(0, program))
  }

  // ---------------------------------------------------------------- programs without layout

  /** The statements alone: no comments, no blank lines, no one-line layout. */
  function Code(body: seq<Stmt>): seq<Stmt>
    decreases body, 0
  {
    if body == [] then []
    else if body[0].Note? || body[0].Blank? then Code(body[1..])
    else [CodeStmt(body[0])] + Code(body[1..])
  }

  function CodeStmt(s: Stmt): Stmt
    decreases s, 1
  {
    match s
    case If(_, c, body, tail) => If(false, c, Code(body), CodeTail(tail))
    case _ => s
  }

  function CodeTail(t: Tail): Tail
    decreases t, 0
  {
    match t
    case Done => Done
    case Else(body) => Else(Code(body))
    case Elif(c, body, tail) => Elif(c, Code(body), CodeTail(tail))
  }

  /** Layout has no effect on a run. */
  lemma {:induction false} CodeRuns(lib: Library, st: State, body: seq<Stmt>)
    ensures ExecAll(lib, st, Code(body)) == ExecAll(lib, st, body)
    decreases body, 0
  {
    if body != [] {
      CodeStmtRuns(lib, st, body[0]);
      match Exec(lib, st, body[0])
      case Halted =>
      case Running(st') => CodeRuns(lib, st', body[1..]);
    }
  }

  lemma {:induction false} CodeStmtRuns(lib: Library, st: State, s: Stmt)
    ensures Exec(lib, st, CodeStmt(s)) == Exec(lib, st, s)
    decreases s, 1
  {
    if s.If? {
      CodeRuns(lib, st, s.body);
      CodeTailRuns(lib, st, s.tail);
    }
  }

  lemma {:induction false} CodeTailRuns(lib: Library, st: State, t: Tail)
    ensures ExecTail(lib, st, CodeTail(t)) == ExecTail(lib, st, t)
    decreases t, 0
  {
    match t
    case Done =>
    case Else(body) => CodeRuns(lib, st, body);
    case Elif(c, body, tail) =>
      CodeRuns(lib, st, body);
      CodeTailRuns(lib, st, tail);
  }

  // ---------------------------------------------------------------- well-written programs

  predicate WrittenStmt(s: Stmt)
    decreases s, 1
  {
    match s
    case Note(_, text) => '\n' !in text
    case Blank => true
    case If(oneLine, c, body, tail) =>
      && Written(c) && WrittenBlock(body) && WrittenTail(tail)
      && (oneLine ==> tail.Done? && forall i :: 0 <= i < |body| ==> IsSimple(body[i]))
    case Assign(_, e) => Written(e)
    case AssignDot(_, e) => Written(e)
    case AssignPair(_, _, e) => Written(e)
  }

  predicate WrittenBlock(body: seq<Stmt>)
    decreases body, 0
  {
    forall i :: 0 <= i < |body| ==> WrittenStmt(body[i])
  }

  predicate WrittenTail(t: Tail)
    decreases t, 0
  {
    match t
    case Done => true
    case Else(body) => WrittenBlock(body)
    case Elif(c, body, tail) => Written(c) && WrittenBlock(body) && WrittenTail(tail)
  }

  // ---------------------------------------------------------------- parsing statements

  /** Statements up to a closing brace or the end of the program. */
  function ParseBlock(ts: seq<Tok>): (r: Option<(seq<Stmt>, seq<Tok>)>)
    ensures r.Some? ==> |r.value.1| <= |ts|
    decreases |ts|, 3
  {
    if ts == [] || Opens(ts, RBrace) then Some(([], ts))
    else
      var s := ParseStmt(ts);
      if s.None? then None
      else
        var more := ParseBlock(s.value.1);
        if more.None? then None else Some(([s.value.0] + more.value.0, more.value.1))
  }

  function ParseStmt(ts: seq<Tok>): (r: Option<(Stmt, seq<Tok>)>)
    requires ts != []
    ensures r.Some? ==> |r.value.1| < |ts|
    decreases |ts|, 2
  {
    var rest := ts[1..];
    if ts[0] == TWord(KIf) then
      var arm := ParseArm(rest);
      if arm.None? then None
      else Some((If(false, arm.value.0, arm.value.1, arm.value.2), arm.value.3))
    else if ts[0].TName? && Opens(rest, Assigns) then
      var e := ParseE(0, rest[1..]);
      if e.None? then None else Some((Assign(ts[0].n, e.value.0), e.value.1))
    else if ts[0].TRoot? && Opens(rest, Assigns) then
      var e := ParseE(0, rest[1..]);
      if e.None? then None else Some((AssignDot(ts[0].root, e.value.0), e.value.1))
    else if ts[0].TName? && |rest| > 2 && rest[0] == TSym(Comma) && rest[1].TName? && rest[2] == TSym(Assigns) then
      var e := ParseE(0, rest[3..]);
      if e.None? then None else Some((AssignPair(ts[0].n, rest[1].n, e.value.0), e.value.1))
    else None
  }

  /** A condition, its block and what follows the block's brace. */
  function ParseArm(ts: seq<Tok>): (r: Option<(Expr, seq<Stmt>, Tail, seq<Tok>)>)
    ensures r.Some? ==> |r.value.3| < |ts|
    decreases |ts|, 1
  {
    var c := ParseE(0, ts);
    if c.None? || !Opens(c.value.1, LBrace) then None
    else
      var body := ParseBlock(c.value.1[1..]);
      if body.None? || !Opens(body.value.1, RBrace) then None
      else
        var tail := ParseTail(body.value.1[1..]);
        if tail.None? then None else Some((c.value.0, body.value.0, tail.value.0, tail.value.1))
  }

  function ParseTail(ts: seq<Tok>): (r: Option<(Tail, seq<Tok>)>)
    ensures r.Some? ==> |r.value.1| <= |ts|
    decreases |ts|, 2
  {
    if ts == [] || ts[0] != TWord(KElse) then Some((Done, ts))
    else if |ts| > 1 && ts[1] == TWord(KIf) then
      var arm := ParseArm(ts[2..]);
      if arm.None? then None
      else Some((Elif(arm.value.0, arm.value.1, arm.value.2), arm.value.3))
    else if |ts| > 1 && ts[1] == TSym(LBrace) then
      var body := ParseBlock(ts[2..]);
      if body.None? || !Opens(body.value.1, RBrace) then None
      else Some((Else(body.value.0), body.value.1[1..]))
    else None
  }

  /** The reader: lex, parse, and insist that nothing is left over. */
  function ReadProgram(text: string): Option<seq<Stmt>> {
    var ts := Lex(text);
    if ts.None? then None
    else
      var p := ParseBlock(ts.value);
      if p.None? || p.value.1 != [] then None else Some(p.value.0)
  }

  // ---------------------------------------------------------------- the tokens of a program

  function TSimple(s: Stmt): seq<Tok>
    requires IsSimple(s)
  {
    match s
    case Assign(n, e) => [TName(n), TSym(Assigns)] + TE(e)
    case AssignDot(root, e) => [TRoot(root), TSym(Assigns)] + TE(e)
    case AssignPair(n, err, e) => [TName(n), TSym(Comma), TName(err), TSym(Assigns)] + TE(e)
  }

  function TStmt(s: Stmt): seq<Tok>
    decreases s, 1
  {
    match s
    case Note(_, _) => []
    case Blank => []
    case If(_, c, body, tail) => [TWord(KIf)] + TArm(TE(c), TBlock(body), TTail(tail))
    case _ => TSimple(s)
  }

  function TArm(c: seq<Tok>, body: seq<Tok>, tail: seq<Tok>): seq<Tok> {
    c + ([TSym(LBrace)] + (body + ([TSym(RBrace)] + tail)))
  }

  function TBlock(body: seq<Stmt>): seq<Tok>
    decreases body, 0
  {
    if body == [] then [] else TStmt(body[0]) + TBlock(body[1..])
  }

  function TTail(t: Tail): seq<Tok>
    decreases t, 0
  {
    match t
    case Done => []
    case Else(body) => [TWord(KElse)] + TArm([], TBlock(body), [])
    case Elif(c, body, tail) => [TWord(KElse)] + ([TWord(KIf)] + TArm(TE(c), TBlock(body), TTail(tail)))
  }

  lemma {:induction false} SimpleToks(s: Stmt)
    requires IsSimple(s)
    ensures Toks(ShowSimple(s)) == TSimple(s)
  {
    ToksLaws();
    ShowToks(s.e);
  }

  lemma {:induction false} IndentToks(depth: nat)
    ensures Toks(Indent(depth)) == []
  {
    ToksLaws();
  }

  lemma {:induction false} SpacedToks(a: seq<Piece>, more: seq<Piece>)
    ensures Toks(a + [SPACE] + more) == Toks(a) + Toks(more)
  {
    ToksShort(SPACE, SPACE, SPACE, SPACE);
    ToksConcat(a, [SPACE]);
    ToksConcat(a + [SPACE], more);
  }

  lemma {:induction false} InlineToks(body: seq<Stmt>)
    requires forall i :: 0 <= i < |body| ==> IsSimple(body[i])
    ensures Toks(ShowInline(body)) == TBlock(body)
  {
    if body != [] {
      SimpleToks(body[0]);
      InlineToks(body[1..]);
      SpacedToks(ShowSimple(body[0]), ShowInline(body[1..]));
    }
  }

  lemma {:induction false} ArmToks(depth: nat, c: seq<Piece>, body: seq<Piece>, tail: seq<Piece>)
    ensures Toks(Arm(depth, c, body, tail)) == TArm(Toks(c), Toks(body), Toks(tail))
  {
    var open := if c == [] then [S(LBrace), NEWLINE] else [SPACE, S(LBrace), NEWLINE];
    var close := [S(RBrace)] + tail;
    IndentToks(depth);
    ToksShort(S(LBrace), NEWLINE, SPACE, SPACE);
    ToksShort(SPACE, S(LBrace), NEWLINE, SPACE);
    ToksShort(S(RBrace), SPACE, SPACE, SPACE);
    ToksConcat([S(RBrace)], tail);
    ToksConcat(Indent(depth), close);
    ToksConcat(body, Indent(depth) + close);
    ToksConcat(open, body + (Indent(depth) + close));
    ToksConcat(c, open + (body + (Indent(depth) + close)));
    assert Toks(open) == [TSym(LBrace)];
  }

  lemma {:induction false} OneLineToks(c: seq<Piece>, body: seq<Piece>)
    ensures Toks(OneLineArm(c, body)) == TArm(Toks(c), Toks(body), [])
  {
    ToksLaws();
  }

  /** Indentation and a keyword in front. */
  lemma {:induction false} KeywordToks(depth: nat, w: Word, ps: seq<Piece>)
    ensures Toks(Indent(depth) + ([T(TWord(w)), SPACE] + ps)) == [TWord(w)] + Toks(ps)
    ensures Toks([SPACE, T(TWord(w)), SPACE] + ps) == [TWord(w)] + Toks(ps)
    ensures Toks([T(TWord(w)), SPACE] + ps) == [TWord(w)] + Toks(ps)
  {
    ToksLaws();
    IndentToks(depth);
  }

  lemma {:induction false} PlainStmtToks(depth: nat, s: Stmt)
    requires !s.If?
    ensures Toks(ShowStmt(depth, s)) == TStmt(s)
  {
    ToksLaws();
    IndentToks(depth);
    if s.Note? { IndentToks(s.column); }
    if IsSimple(s) { SimpleToks(s); }
  }

  lemma {:induction false} BlockToks(depth: nat, body: seq<Stmt>)
    requires WrittenBlock(body)
    ensures Toks(ShowBlock(depth, body)) == TBlock(body)
    decreases body, 0
  {
    if body != [] {
      StmtToks(depth, body[0]);
      BlockToks(depth, body[1..]);
      ToksConcat(ShowStmt(depth, body[0]), ShowBlock(depth, body[1..]));
    }
  }

  lemma {:induction false} StmtToks(depth: nat, s: Stmt)
    requires WrittenStmt(s)
    ensures Toks(ShowStmt(depth, s)) == TStmt(s)
    decreases s, 1
  {
    if !s.If? {
      PlainStmtToks(depth, s);
    } else {
      ShowToks(s.c);
      if s.oneLine {
        InlineToks(s.body);
        OneLineToks(Show(s.c), ShowInline(s.body));
        KeywordToks(depth, KIf, OneLineArm(Show(s.c), ShowInline(s.body)));
      } else {
        var body, tail := ShowBlock(depth + 1, s.body), ShowTail(depth, s.tail);
        BlockToks(depth + 1, s.body);
        TailToks(depth, s.tail);
        ArmToks(depth, Show(s.c), body, tail);
        KeywordToks(depth, KIf, Arm(depth, Show(s.c), body, tail));
      }
    }
  }

  lemma {:induction false} TailToks(depth: nat, t: Tail)
    requires WrittenTail(t)
    ensures Toks(ShowTail(depth, t)) == TTail(t)
    decreases t, 0
  {
    ToksShort(NEWLINE, NEWLINE, NEWLINE, NEWLINE);
    match t
    case Done =>
    case Else(body) =>
      BlockToks(depth + 1, body);
      ArmToks(depth, [], ShowBlock(depth + 1, body), [NEWLINE]);
      KeywordToks(depth, KElse, Arm(depth, [], ShowBlock(depth + 1, body), [NEWLINE]));
    case Elif(c, body, tail) =>
      var arm := Arm(depth, Show(c), ShowBlock(depth + 1, body), ShowTail(depth, tail));
      ShowToks(c);
      BlockToks(depth + 1, body);
      TailToks(depth, tail);
      ArmToks(depth, Show(c), ShowBlock(depth + 1, body), ShowTail(depth, tail));
      KeywordToks(depth, KIf, arm);
      KeywordToks(depth, KElse, [T(TWord(KIf)), SPACE] + arm);
  }

  // ---------------------------------------------------------------- statements are read back

  /** What can follow a statement: neither an operator nor `else`. */
  predicate After(rest: seq<Tok>) {
    Stops(0, rest) && (rest == [] || rest[0] != TWord(KElse))
  }

  lemma {:induction false} BlockStarts(body: seq<Stmt>, rest: seq<Tok>)
    requires After(rest)
    ensures After(TBlock(body) + rest)
  {
    if body != [] {
      BlockStarts(body[1..], rest);
      assert TBlock(body) + rest == TStmt(body[0]) + (TBlock(body[1..]) + rest);
    } else {
      assert TBlock(body) + rest == rest;
    }
  }

  lemma {:induction false} AssignStep(target: Tok, e: Expr, te: seq<Tok>, rest: seq<Tok>)
    requires ParseE(0, te + rest) == Some((e, rest))
    requires target.TName? || target.TRoot?
    ensures ParseStmt([target, TSym(Assigns)] + te + rest) ==
            Some((if target.TName? then Assign(target.n, e) else AssignDot(target.root, e), rest))
  {
    var ts := [target, TSym(Assigns)] + te + rest;
    assert ts[1..] == [TSym(Assigns)] + (te + rest) && ts[1..][1..] == te + rest;
  }

  lemma {:induction false} PairStep(n: Name, err: Name, e: Expr, te: seq<Tok>, rest: seq<Tok>)
    requires ParseE(0, te + rest) == Some((e, rest))
    ensures ParseStmt([TName(n), TSym(Comma), TName(err), TSym(Assigns)] + te + rest) ==
            Some((AssignPair(n, err, e), rest))
  {
    var ts := [TName(n), TSym(Comma), TName(err), TSym(Assigns)] + te + rest;
    assert ts[1..] == [TSym(Comma), TName(err), TSym(Assigns)] + (te + rest);
    assert ts[1..][3..] == te + rest;
  }

  lemma {:induction false} SimpleRead(s: Stmt, rest: seq<Tok>)
    requires IsSimple(s) && WrittenStmt(s) && After(rest)
    ensures ParseStmt(TSimple(s) + rest) == Some((s, rest))
  {
    ExprRead(0, s.e, rest);
    match s
    case Assign(n, e) => AssignStep(TName(n), e, TE(e), rest);
    case AssignDot(root, e) => AssignStep(TRoot(root), e, TE(e), rest);
    case AssignPair(n, err, e) => PairStep(n, err, e, TE(e), rest);
  }

  lemma {:induction false} ArmStep(c: Expr, body: seq<Stmt>, tb: seq<Tok>, tail: Tail, tt: seq<Tok>, rest: seq<Tok>)
    requires ParseE(0, TE(c) + ([TSym(LBrace)] + (tb + ([TSym(RBrace)] + (tt + rest))))) ==
             Some((c, [TSym(LBrace)] + (tb + ([TSym(RBrace)] + (tt + rest)))))
    requires ParseBlock(tb + ([TSym(RBrace)] + (tt + rest))) == Some((body, [TSym(RBrace)] + (tt + rest)))
    requires ParseTail(tt + rest) == Some((tail, rest))
    ensures ParseArm(TArm(TE(c), tb, tt) + rest) == Some((c, body, tail, rest))
  {
    ArmRegrouped(TE(c), [TSym(LBrace)], tb, [TSym(RBrace)], tt, rest);
    ArmParse(TE(c) + ([TSym(LBrace)] + (tb + ([TSym(RBrace)] + (tt + rest)))), c,
             tb + ([TSym(RBrace)] + (tt + rest)), body, tt + rest, tail, rest);
  }

  lemma {:induction false} ArmRegrouped(a: seq<Tok>, b: seq<Tok>, c: seq<Tok>, d: seq<Tok>, e: seq<Tok>, f: seq<Tok>)
    ensures a + (b + (c + (d + e))) + f == a + (b + (c + (d + (e + f))))
  {
  }

  lemma {:induction false} ArmParse(ts: seq<Tok>, c: Expr, inner: seq<Tok>, body: seq<Stmt>, after: seq<Tok>, tail: Tail,
                                    rest: seq<Tok>)
    requires ParseE(0, ts) == Some((c, [TSym(LBrace)] + inner))
    requires ParseBlock(inner) == Some((body, [TSym(RBrace)] + after))
    requires ParseTail(after) == Some((tail, rest))
    ensures ParseArm(ts) == Some((c, body, tail, rest))
  {
    assert ([TSym(LBrace)] + inner)[1..] == inner;
    assert ([TSym(RBrace)] + after)[1..] == after;
  }

  lemma {:induction false} IfStep(arm: seq<Tok>, c: Expr, body: seq<Stmt>, tail: Tail, rest: seq<Tok>)
    requires ParseArm(arm + rest) == Some((c, body, tail, rest))
    ensures ParseStmt([TWord(KIf)] + arm + rest) == Some((If(false, c, body, tail), rest))
    ensures ParseTail([TWord(KElse)] + ([TWord(KIf)] + arm) + rest) == Some((Elif(c, body, tail), rest))
  {
    assert ([TWord(KIf)] + arm + rest)[1..] == arm + rest;
    assert ([TWord(KElse)] + ([TWord(KIf)] + arm) + rest)[2..] == arm + rest;
  }

  lemma {:induction false} ElseStep(body: seq<Stmt>, tb: seq<Tok>, rest: seq<Tok>)
    requires ParseBlock(tb + ([TSym(RBrace)] + rest)) == Some((body, [TSym(RBrace)] + rest))
    ensures ParseTail([TWord(KElse)] + TArm([], tb, []) + rest) == Some((Else(body), rest))
  {
    var ts := [TWord(KElse)] + TArm([], tb, []) + rest;
    assert ts[2..] == tb + ([TSym(RBrace)] + rest);
    assert ([TSym(RBrace)] + rest)[1..] == rest;
  }

  lemma {:induction false} BlockStep(body: seq<Stmt>, rest: seq<Tok>)
    requires body != [] && !body[0].Note? && !body[0].Blank?
    requires TStmt(body[0]) != [] && TStmt(body[0])[0] != TSym(RBrace)
    requires ParseStmt(TStmt(body[0]) + (TBlock(body[1..]) + rest)) ==
             Some((CodeStmt(body[0]), TBlock(body[1..]) + rest))
    requires ParseBlock(TBlock(body[1..]) + rest) == Some((Code(body[1..]), rest))
    ensures ParseBlock(TBlock(body) + rest) == Some((Code(body), rest))
  {
    var ts, more := TStmt(body[0]), TBlock(body[1..]);
    StmtFirst(ts, more, rest);
    BlockParse(ts + (more + rest), CodeStmt(body[0]), more + rest, Code(body[1..]), rest);
    assert TBlock(body) == ts + more;
  }

  lemma {:induction false} StmtFirst(ts: seq<Tok>, more: seq<Tok>, rest: seq<Tok>)
    requires ts != []
    ensures ts + more + rest == ts + (more + rest) && (ts + (more + rest))[0] == ts[0]
  {
  }

  lemma {:induction false} BlockParse(ts: seq<Tok>, s: Stmt, after: seq<Tok>, more: seq<Stmt>, rest: seq<Tok>)
    requires ts != [] && ts[0] != TSym(RBrace) && ParseStmt(ts) == Some((s, after))
    requires ParseBlock(after) == Some((more, rest))
    ensures ParseBlock(ts) == Some(([s] + more, rest))
  {
  }

  /** The tokens of a block, up to its closing brace or the end, are read back as its code. */
  lemma {:induction false} BlockRead(body: seq<Stmt>, rest: seq<Tok>)
    requires WrittenBlock(body) && (rest == [] || rest[0] == TSym(RBrace))
    ensures ParseBlock(TBlock(body) + rest) == Some((Code(body), rest))
    decreases body, 0
  {
    if body == [] {
      assert TBlock(body) + rest == rest;
    } else {
      var s, more := body[0], TBlock(body[1..]);
      BlockRead(body[1..], rest);
      if s.Note? || s.Blank? {
        assert TBlock(body) == more;
      } else {
        BlockStarts(body[1..], rest);
        StmtRead(s, more + rest);
        BlockStep(body, rest);
      }
    }
  }

  lemma {:induction false} StmtRead(s: Stmt, rest: seq<Tok>)
    requires WrittenStmt(s) && !s.Note? && !s.Blank? && After(rest)
    ensures TStmt(s) != [] && TStmt(s)[0] != TSym(RBrace)
    ensures ParseStmt(TStmt(s) + rest) == Some((CodeStmt(s), rest))
    decreases s, 1
  {
    if IsSimple(s) {
      SimpleRead(s, rest);
    } else {
      var If(_, c, body, tail) := s;
      var close := [TSym(RBrace)] + (TTail(tail) + rest);
      ExprRead(0, c, [TSym(LBrace)] + (TBlock(body) + close));
      BlockRead(body, close);
      TailRead(tail, rest);
      ArmStep(c, Code(body), TBlock(body), CodeTail(tail), TTail(tail), rest);
      IfStep(TArm(TE(c), TBlock(body), TTail(tail)), c, Code(body), CodeTail(tail), rest);
    }
  }

  lemma {:induction false} TailRead(t: Tail, rest: seq<Tok>)
    requires WrittenTail(t) && After(rest)
    ensures ParseTail(TTail(t) + rest) == Some((CodeTail(t), rest))
    decreases t, 0
  {
    match t
    case Done =>
      assert TTail(t) + rest == rest;
    case Else(body) =>
      BlockRead(body, [TSym(RBrace)] + rest);
      ElseStep(Code(body), TBlock(body), rest);
    case Elif(c, body, tail) =>
      var close := [TSym(RBrace)] + (TTail(tail) + rest);
      ExprRead(0, c, [TSym(LBrace)] + (TBlock(body) + close));
      BlockRead(body, close);
      TailRead(tail, rest);
      ArmStep(c, Code(body), TBlock(body), CodeTail(tail), TTail(tail), rest);
      IfStep(TArm(TE(c), TBlock(body), TTail(tail)), c, Code(body), CodeTail(tail), rest);
  }

  // ---------------------------------------------------------------- the layout is well spaced

  predicate IsEnd(t: Tok) {
    !t.TSym? || t.sym.RParen? || t.sym.RBracket? || t.sym.RBrace?
  }

  predicate Fits(a: seq<Piece>, b: seq<Piece>) {
    a == [] || b == [] || MayTouch(a[|a| - 1], b[0])
  }

  lemma {:induction false} Glue(a: seq<Piece>, b: seq<Piece>)
    requires WellSpaced(a) && WellSpaced(b) && Fits(a, b)
    ensures WellSpaced(a + b)
  {
    var c := a + b;
    forall i {:trigger c[i]} | 0 <= i < |c| - 1
      ensures MayTouch(c[i], c[i + 1])
    {
      if i < |a| - 1 { assert MayTouch(a[i], a[i + 1]); }
      if i >= |a| { assert MayTouch(b[i - |a|], b[i - |a| + 1]); }
    }
  }

  /** Starts like an expression and ends like one. */
  ghost predicate Tidy(ps: seq<Piece>) {
    && ps != [] && WellSpaced(ps)
    && ps[0].T? && IsStart(ps[0].t)
    && ps[|ps| - 1].T? && IsEnd(ps[|ps| - 1].t)
  }

  /** Blank at both ends. */
  ghost predicate Loose(ps: seq<Piece>) {
    WellSpaced(ps) && (ps == [] || (!ps[0].T? && !ps[|ps| - 1].T?))
  }

  lemma {:induction false} ExprTidy(e: Expr)
    requires Written(e)
    ensures Tidy(Show(e))
    decreases e, 1
  {
    match e
    case Array(items) =>
      ArgsTidy(items, None);
      BracketTidy([S(LBracket)], ShowArgs(items, None), RBracket);
    case Object(entries) =>
      EntriesLoose(entries);
      ObjectTidy(if entries == [] then [] else [NEWLINE], ShowEntries(entries));
    case Call(f, args, cs) =>
      ArgsTidy(args, cs);
      CallTidy(f, ShowArgs(args, cs));
    case LowerKeys(a) =>
      ExprTidy(a);
      LowerKeysTidy(Show(a));
    case Not(a) =>
      ExprTidy(a);
      NotTidy(Show(a));
    case Bin(op, l, r) =>
      ExprTidy(l);
      ExprTidy(r);
      BinTidy(op, Show(l), Show(r));
    case Paren(a) =>
      ExprTidy(a);
      BracketTidy([S(LParen)], Show(a), RParen);
    case _ =>
  }

  /** An opening piece sequence, something tidy or blank-edged or empty, and its closing bracket. */
  lemma {:induction false} BracketTidy(open: seq<Piece>, inner: seq<Piece>, close: Sym)
    requires open != [] && WellSpaced(open) && open[0].T? && IsStart(open[0].t)
    requires open[|open| - 1] in {S(LParen), S(LBracket), S(LBrace)}
    requires close in {RParen, RBracket, RBrace}
    requires inner == [] || Tidy(inner) || Loose(inner)
    ensures Tidy(open + inner + [S(close)])
  {
    Glue(open, inner);
    Glue(open + inner, [S(close)]);
  }

  lemma {:induction false} ObjectTidy(gap: seq<Piece>, inner: seq<Piece>)
    requires Loose(inner) && (gap == [] || gap == [NEWLINE])
    ensures Tidy([S(LBrace)] + gap + inner + [S(RBrace)])
  {
    Glue([S(LBrace)], gap);
    Glue([S(LBrace)] + gap, inner);
    Glue([S(LBrace)] + gap + inner, [S(RBrace)]);
  }

  lemma {:induction false} CallTidy(f: Func, inner: seq<Piece>)
    requires inner == [] || Tidy(inner)
    ensures Tidy([T(TFunc(f))] + (if Raises(f) then [S(Bang)] else []) + [S(LParen)] + inner + [S(RParen)])
  {
    var head := [T(TFunc(f))] + (if Raises(f) then [S(Bang)] else []) + [S(LParen)];
    BracketTidy(head, inner, RParen);
  }

  lemma {:induction false} NotTidy(a: seq<Piece>)
    requires Tidy(a)
    ensures Tidy([S(Bang)] + a)
  {
    Glue([S(Bang)], a);
  }

  lemma {:induction false} LowerKeysTailSpaced()
    ensures WellSpaced(LowerKeysTail()) && IsEnd(LowerKeysTail()[|LowerKeysTail()| - 1].t)
  {
    var a, b := [SPACE, S(Arrow), SPACE], [S(Bar), T(TWord(KKey)), S(Bar)];
    var c, d := [SPACE, S(LBrace), SPACE], [T(TFunc(Downcase)), S(LParen)];
    var e, f := [T(TWord(KKey)), S(RParen)], [SPACE, S(RBrace)];
    Glue(a, b);
    Glue(a + b, c);
    Glue(a + b + c, d);
    Glue(a + b + c + d, e);
    Glue(a + b + c + d + e, f);
  }

  lemma {:induction false} LowerKeysTidy(arg: seq<Piece>)
    requires Tidy(arg)
    ensures Tidy([T(TWord(KMapKeys)), S(LParen)] + arg + [S(RParen)] + LowerKeysTail())
  {
    var head, tail := [T(TWord(KMapKeys)), S(LParen)] + arg + [S(RParen)], LowerKeysTail();
    LowerKeysTailSpaced();
    BracketTidy([T(TWord(KMapKeys)), S(LParen)], arg, RParen);
    assert tail[0] == SPACE && tail[|tail| - 1] == S(RBrace);
    Glue(head, tail);
  }

  lemma {:induction false} BinTidy(op: Op, l: seq<Piece>, r: seq<Piece>)
    requires Tidy(l) && Tidy(r)
    ensures Tidy(l + [SPACE, S(BinOp(op)), SPACE] + r)
  {
    Glue(l, [SPACE, S(BinOp(op)), SPACE]);
    Glue(l + [SPACE, S(BinOp(op)), SPACE], r);
  }

  lemma {:induction false} ListTidy(a: seq<Piece>, more: seq<Piece>)
    requires Tidy(a) && Tidy(more)
    ensures Tidy(a + [S(Comma), SPACE] + more)
  {
    Glue(a, [S(Comma), SPACE]);
    Glue(a + [S(Comma), SPACE], more);
  }

  lemma {:induction false} ArgsTidy(args: seq<Expr>, cs: Option<bool>)
    requires WrittenAll(args)
    ensures if args == [] && cs.None? then ShowArgs(args, cs) == [] else Tidy(ShowArgs(args, cs))
    decreases args, 0
  {
    if args != [] {
      ExprTidy(args[0]);
      ArgsTidy(args[1..], cs);
      if |args| > 1 || cs.Some? { ListTidy(Show(args[0]), ShowArgs(args[1..], cs)); }
    }
  }

  lemma {:induction false} EntryLoose(key: string, value: seq<Piece>, more: seq<Piece>)
    requires Tidy(value) && Loose(more)
    ensures Loose([Ws("    "), T(TStr(key)), S(Colon), SPACE] + value + [S(Comma), NEWLINE] + more)
  {
    var head, comma := [Ws("    "), T(TStr(key)), S(Colon), SPACE], [S(Comma), NEWLINE];
    Glue(head, value);
    Glue(head + value, comma);
    Glue(head + value + comma, more);
  }

  lemma {:induction false} EntriesLoose(entries: seq<Entry>)
    requires WrittenEntries(entries)
    ensures Loose(ShowEntries(entries))
    decreases entries, 0
  {
    if entries != [] {
      ExprTidy(entries[0].value);
      EntriesLoose(entries[1..]);
      EntryLoose(entries[0].key, Show(entries[0].value), ShowEntries(entries[1..]));
    }
  }

  lemma {:induction false} IndentLoose(depth: nat)
    ensures Loose(Indent(depth))
  {
  }

  /** Ends with a blank, and starts with anything. */
  ghost predicate Lines(ps: seq<Piece>) {
    WellSpaced(ps) && (ps == [] || !ps[|ps| - 1].T?)
  }

  lemma {:induction false} LinesGlue(a: seq<Piece>, b: seq<Piece>)
    requires Lines(a) && Lines(b)
    ensures Lines(a + b)
  {
    Glue(a, b);
  }

  lemma {:induction false} AssignTidy(target: seq<Piece>, e: seq<Piece>)
    requires Tidy(target) && Tidy(e)
    ensures Tidy(target + [SPACE, S(Assigns), SPACE] + e)
  {
    Glue(target, [SPACE, S(Assigns), SPACE]);
    Glue(target + [SPACE, S(Assigns), SPACE], e);
  }

  lemma {:induction false} SimpleTidy(s: Stmt)
    requires IsSimple(s) && WrittenStmt(s)
    ensures Tidy(ShowSimple(s))
  {
    ExprTidy(s.e);
    AssignTidy(Target(s), Show(s.e));
  }

  lemma {:induction false} InlineLines(body: seq<Stmt>)
    requires WrittenBlock(body) && forall i :: 0 <= i < |body| ==> IsSimple(body[i])
    ensures Lines(ShowInline(body))
  {
    if body != [] {
      SimpleTidy(body[0]);
      InlineLines(body[1..]);
      Glue(ShowSimple(body[0]), [SPACE]);
      LinesGlue(ShowSimple(body[0]) + [SPACE], ShowInline(body[1..]));
    }
  }

  lemma {:induction false} ArmLines(depth: nat, c: seq<Piece>, body: seq<Piece>, tail: seq<Piece>)
    requires (c == [] || Tidy(c)) && Lines(body) && Lines(tail) && tail != [] && !tail[0].T?
    ensures Lines(Arm(depth, c, body, tail))
  {
    var open := if c == [] then [S(LBrace), NEWLINE] else [SPACE, S(LBrace), NEWLINE];
    var close := [S(RBrace)] + tail;
    IndentLoose(depth);
    Glue([S(RBrace)], tail);
    Glue(Indent(depth), close);
    Glue(body, Indent(depth) + close);
    Glue(open, body + (Indent(depth) + close));
    Glue(c, open + (body + (Indent(depth) + close)));
  }

  lemma {:induction false} OneLineLines(c: seq<Piece>, body: seq<Piece>)
    requires Tidy(c) && Lines(body)
    ensures Lines(OneLineArm(c, body))
  {
    Glue(body, [S(RBrace), NEWLINE]);
    Glue([SPACE, S(LBrace), SPACE], body + [S(RBrace), NEWLINE]);
    Glue(c, [SPACE, S(LBrace), SPACE] + (body + [S(RBrace), NEWLINE]));
  }

  lemma {:induction false} KeywordLines(depth: nat, w: Word, ps: seq<Piece>)
    requires Lines(ps) && ps != []
    ensures Lines(Indent(depth) + ([T(TWord(w)), SPACE] + ps))
    ensures Lines([SPACE, T(TWord(w)), SPACE] + ps)
    ensures Lines([T(TWord(w)), SPACE] + ps)
  {
    IndentLoose(depth);
    Glue([T(TWord(w)), SPACE], ps);
    Glue([SPACE, T(TWord(w)), SPACE], ps);
    Glue(Indent(depth), [T(TWord(w)), SPACE] + ps);
  }

  lemma {:induction false} BlockLines(depth: nat, body: seq<Stmt>)
    requires WrittenBlock(body)
    ensures Lines(ShowBlock(depth, body))
    decreases body, 0
  {
    if body != [] {
      StmtLines(depth, body[0]);
      BlockLines(depth, body[1..]);
      LinesGlue(ShowStmt(depth, body[0]), ShowBlock(depth, body[1..]));
    }
  }

  lemma {:induction false} PlainLines(depth: nat, ps: seq<Piece>)
    requires Tidy(ps)
    ensures Lines(Indent(depth) + ps + [NEWLINE])
  {
    IndentLoose(depth);
    Glue(Indent(depth), ps);
    Glue(Indent(depth) + ps, [NEWLINE]);
  }

  lemma {:induction false} NoteLines(column: nat, text: string)
    requires '\n' !in text
    ensures Lines(Indent(column) + [Cm(text)])
  {
    IndentLoose(column);
    Glue(Indent(column), [Cm(text)]);
  }

  lemma {:induction false} IfLines(depth: nat, c: seq<Piece>, body: seq<Piece>, tail: seq<Piece>)
    requires Tidy(c) && Lines(body) && Lines(tail) && tail != [] && !tail[0].T?
    ensures var stmt := [T(TWord(KIf)), SPACE] + Arm(depth, c, body, tail);
            Lines(Indent(depth) + stmt) && Lines([SPACE, T(TWord(KElse)), SPACE] + stmt)
  {
    ArmLines(depth, c, body, tail);
    KeywordLines(depth, KIf, Arm(depth, c, body, tail));
    KeywordLines(depth, KElse, [T(TWord(KIf)), SPACE] + Arm(depth, c, body, tail));
  }

  lemma {:induction false} OneLineIfLines(depth: nat, c: seq<Piece>, body: seq<Piece>)
    requires Tidy(c) && Lines(body)
    ensures Lines(Indent(depth) + ([T(TWord(KIf)), SPACE] + OneLineArm(c, body)))
  {
    OneLineLines(c, body);
    KeywordLines(depth, KIf, OneLineArm(c, body));
  }

  lemma {:induction false} ElseLines(depth: nat, body: seq<Piece>)
    requires Lines(body)
    ensures Lines([SPACE, T(TWord(KElse)), SPACE] + Arm(depth, [], body, [NEWLINE]))
  {
    ArmLines(depth, [], body, [NEWLINE]);
    KeywordLines(depth, KElse, Arm(depth, [], body, [NEWLINE]));
  }

  lemma {:induction false} StmtLines(depth: nat, s: Stmt)
    requires WrittenStmt(s)
    ensures Lines(ShowStmt(depth, s))
    decreases s, 1
  {
    match s
    case Note(column, text) => NoteLines(column, text);
    case Blank =>
    case If(oneLine, c, body, tail) =>
      ExprTidy(c);
      if oneLine {
        InlineLines(body);
        OneLineIfLines(depth, Show(c), ShowInline(body));
      } else {
        BlockLines(depth + 1, body);
        TailLines(depth, tail);
        IfLines(depth, Show(c), ShowBlock(depth + 1, body), ShowTail(depth, tail));
      }
    case _ =>
      SimpleTidy(s);
      PlainLines(depth, ShowSimple(s));
  }

  lemma {:induction false} TailLines(depth: nat, t: Tail)
    requires WrittenTail(t)
    ensures Lines(ShowTail(depth, t)) && ShowTail(depth, t) != [] && !ShowTail(depth, t)[0].T?
    decreases t, 0
  {
    match t
    case Done =>
    case Else(body) =>
      BlockLines(depth + 1, body);
      ElseLines(depth, ShowBlock(depth + 1, body));
    case Elif(c, body, tail) =>
      ExprTidy(c);
      BlockLines(depth + 1, body);
      TailLines(depth, tail);
      IfLines(depth, Show(c), ShowBlock(depth + 1, body), ShowTail(depth, tail));
  }

  // ---------------------------------------------------------------- text is read back

  /** The text of every well-written program lexes and parses back to exactly its code. */
  lemma {:induction false} TextRead(program: seq<Stmt>)
    requires WrittenBlock(program)
    ensures Lex(Text(program)) == Some(TBlock(program))
    ensures ReadProgram(Text(program)) == Some(Code(program))
  {
    BlockLines(0, program);
    LexRender(ShowBlock(0, program));
    BlockToks(0, program);
    BlockRead(program, []);
    assert TBlock(program) + [] == TBlock(program);
  }

  /** The text of one expression, and anything after it that starts with a closing delimiter or a
      blank, lexes to the expression's tokens and is read back as the same tree. */
  lemma {:induction false} ExprTextRead(e: Expr, rest: seq<Piece>)
    requires Written(e) && WellSpaced(rest) && Fits(Show(e), rest) && Stops(0, Toks(rest))
    ensures Lex(Render(Show(e) + rest)) == Some(TE(e) + Toks(rest))
    ensures ParseE(0, Lex(Render(Show(e) + rest)).value) == Some((e, Toks(rest)))
  {
    ExprTidy(e);
    Glue(Show(e), rest);
    LexRender(Show(e) + rest);
    ToksConcat(Show(e), rest);
    ShowToks(e);
    ExprRead(0, e, Toks(rest));
  }
}
