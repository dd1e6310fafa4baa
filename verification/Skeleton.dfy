/**
 The skeleton of a program: its tokens with the contents of every literal removed. It is the program's
 code with the literals blanked, no more and no less, and it is bracket-balanced.
 */
module Skeleton {
  import opened Common
  import opened Vrl
  import opened Lexer
  import opened Syntax
  import opened Programs
  import opened Rules
  import opened Compiler
  import Emission

  // ---------------------------------------------------------------- blanking literals

  function BlankTok(t: Tok): Tok {
    match t
    case TStr(_) => TStr("")
    case TRegex(_) => TRegex("")
    case _ => t
  }

  /** The tokens with the contents of every string and regex literal removed. */
  function BlankToks(ts: seq<Tok>): (r: seq<Tok>)
    ensures |r| == |ts|
  {
    seq(|ts|, i requires 0 <= i < |ts| => BlankTok(ts[i]))
  }

  function BlankExpr(e: Expr): Expr
    decreases e, 1
  {
    match e
    case LitStr(_) => LitStr("")
    case LitRegex(_) => LitRegex("")
    case Array(items) => Array(BlankExprs(items))
    case Object(entries) => Object(BlankEntries(entries))
    case Call(f, args, cs) => Call(f, BlankExprs(args), cs)
    case LowerKeys(a) => LowerKeys(BlankExpr(a))
    case Not(a) => Not(BlankExpr(a))
    case Bin(op, l, r) => Bin(op, BlankExpr(l), BlankExpr(r))
    case Paren(a) => Paren(BlankExpr(a))
    case _ => e
  }

  function BlankExprs(es: seq<Expr>): (r: seq<Expr>)
    ensures |r| == |es|
    decreases es, 0
  {
    if es == [] then [] else [BlankExpr(es[0])] + BlankExprs(es[1..])
  }

  function BlankEntries(es: seq<Entry>): (r: seq<Entry>)
    ensures |r| == |es|
    decreases es, 0
  {
    if es == [] then [] else [Entry("", BlankExpr(es[0].value))] + BlankEntries(es[1..])
  }

  function BlankStmt(s: Stmt): Stmt
    decreases s, 1
  {
    match s
    case Note(column, _) => Note(column, "")
    case Blank => Blank
    case Assign(n, e) => Assign(n, BlankExpr(e))
    case AssignDot(root, e) => AssignDot(root, BlankExpr(e))
    case AssignPair(n, err, e) => AssignPair(n, err, BlankExpr(e))
    case If(oneLine, c, body, tail) => If(oneLine, BlankExpr(c), BlankBlock(body), BlankTail(tail))
  }

  function BlankBlock(body: seq<Stmt>): (r: seq<Stmt>)
    ensures |r| == |body|
    decreases body, 0
  {
    if body == [] then [] else [BlankStmt(body[0])] + BlankBlock(body[1..])
  }

  function BlankTail(t: Tail): Tail
    decreases t, 0
  {
    match t
    case Done => Done
    case Else(body) => Else(BlankBlock(body))
    case Elif(c, body, tail) => Elif(BlankExpr(c), BlankBlock(body), BlankTail(tail))
  }

  lemma {:induction false} BlankConcat(a: seq<Tok>, b: seq<Tok>)
    ensures BlankToks(a + b) == BlankToks(a) + BlankToks(b)
  {
  }

  lemma {:induction false} BlankConcats(a: seq<Tok>, b: seq<Tok>, c: seq<Tok>)
    ensures BlankToks(a + b + c) == BlankToks(a) + BlankToks(b) + BlankToks(c)
  {
  }

  lemma {:induction false} WrappedBlanks(open: Sym, a: seq<Tok>, close: Sym)
    ensures BlankToks([TSym(open)] + a + [TSym(close)]) == [TSym(open)] + BlankToks(a) + [TSym(close)]
  {
    BlankConcats([TSym(open)], a, [TSym(close)]);
  }

  lemma {:induction false} PrefixBlanks(sym: Sym, a: seq<Tok>)
    ensures BlankToks([TSym(sym)] + a) == [TSym(sym)] + BlankToks(a)
  {
    BlankConcat([TSym(sym)], a);
  }

  lemma {:induction false} InfixBlanks(a: seq<Tok>, sym: Sym, b: seq<Tok>)
    ensures BlankToks(a + [TSym(sym)] + b) == BlankToks(a) + [TSym(sym)] + BlankToks(b)
  {
    BlankConcats(a, [TSym(sym)], b);
  }

  lemma {:induction false} CallBlanks(f: Func, args: seq<Tok>)
    ensures var open := [TFunc(f)] + (if Raises(f) then [TSym(Bang)] else []) + [TSym(LParen)];
            BlankToks(open + args + [TSym(RParen)]) == open + BlankToks(args) + [TSym(RParen)]
  {
    BlankConcats([TFunc(f)] + (if Raises(f) then [TSym(Bang)] else []) + [TSym(LParen)], args, [TSym(RParen)]);
  }

  lemma {:induction false} LowerKeysBlanks(arg: seq<Tok>)
    ensures BlankToks([TWord(KMapKeys), TSym(LParen)] + arg + LowerKeysRest()) ==
            [TWord(KMapKeys), TSym(LParen)] + BlankToks(arg) + LowerKeysRest()
  {
    BlankConcats([TWord(KMapKeys), TSym(LParen)], arg, LowerKeysRest());
    assert BlankToks(LowerKeysRest()) == LowerKeysRest();
  }

  /** Blanking the tokens of an expression is blanking the expression. */
  lemma {:induction false} ExprBlanks(e: Expr)
    ensures BlankToks(TE(e)) == TE(BlankExpr(e))
    decreases e, 1
  {
    match e
    case Array(items) =>
      ArgsBlank(items, None);
      WrappedBlanks(LBracket, TArgs(items, None), RBracket);
    case Object(entries) =>
      EntriesBlank(entries);
      WrappedBlanks(LBrace, TEntries(entries), RBrace);
    case Call(f, args, cs) =>
      ArgsBlank(args, cs);
      CallBlanks(f, TArgs(args, cs));
    case LowerKeys(a) =>
      ExprBlanks(a);
      LowerKeysBlanks(TE(a));
    case Not(a) =>
      ExprBlanks(a);
      PrefixBlanks(Bang, TE(a));
    case Bin(op, l, r) =>
      ExprBlanks(l);
      ExprBlanks(r);
      InfixBlanks(TE(l), BinOp(op), TE(r));
    case Paren(a) =>
      ExprBlanks(a);
      WrappedBlanks(LParen, TE(a), RParen);
    case _ =>
  }

  lemma {:induction false} ArgsBlank(args: seq<Expr>, cs: Option<bool>)
    ensures BlankToks(TArgs(args, cs)) == TArgs(BlankExprs(args), cs)
    decreases args, 0
  {
    if args != [] {
      var rest := BlankExprs(args)[1..];
      assert rest == BlankExprs(args[1..]);
      ExprBlanks(args[0]);
      ArgsBlank(args[1..], cs);
      BlankConcats(TE(args[0]), [TSym(Comma)], TArgs(args[1..], cs));
    }
  }

  lemma {:induction false} EntriesBlank(entries: seq<Entry>)
    ensures BlankToks(TEntries(entries)) == TEntries(BlankEntries(entries))
    decreases entries, 0
  {
    if entries != [] {
      var value := TE(entries[0].value);
      assert BlankEntries(entries)[1..] == BlankEntries(entries[1..]);
      ExprBlanks(entries[0].value);
      EntriesBlank(entries[1..]);
      BlankConcats([TStr(entries[0].key), TSym(Colon)], value, [TSym(Comma)]);
      BlankConcat([TStr(entries[0].key), TSym(Colon)] + value + [TSym(Comma)], TEntries(entries[1..]));
    }
  }

  lemma {:induction false} ArmBlanks(c: seq<Tok>, body: seq<Tok>, tail: seq<Tok>)
    ensures BlankToks(TArm(c, body, tail)) == TArm(BlankToks(c), BlankToks(body), BlankToks(tail))
  {
  }

  lemma {:induction false} BlockBlanks(body: seq<Stmt>)
    ensures BlankToks(TBlock(body)) == TBlock(BlankBlock(body))
    decreases body, 0
  {
    if body != [] {
      assert BlankBlock(body)[1..] == BlankBlock(body[1..]);
      StmtBlanks(body[0]);
      BlockBlanks(body[1..]);
      BlankConcat(TStmt(body[0]), TBlock(body[1..]));
    }
  }

  lemma {:induction false} SimpleBlanks(s: Stmt)
    requires IsSimple(s)
    ensures BlankToks(TSimple(s)) == TSimple(BlankStmt(s))
  {
    ExprBlanks(s.e);
    match s
    case Assign(n, e) => BlankConcat([TName(n), TSym(Sym.Assigns)], TE(e));
    case AssignDot(root, e) => BlankConcat([TRoot(root), TSym(Sym.Assigns)], TE(e));
    case AssignPair(n, err, e) => BlankConcat([TName(n), TSym(Comma), TName(err), TSym(Sym.Assigns)], TE(e));
  }

  lemma {:induction false} StmtBlanks(s: Stmt)
    ensures BlankToks(TStmt(s)) == TStmt(BlankStmt(s))
    decreases s, 1
  {
    if s.If? {
      ExprBlanks(s.c);
      BlockBlanks(s.body);
      TailBlanks(s.tail);
      ArmBlanks(TE(s.c), TBlock(s.body), TTail(s.tail));
      BlankConcat([TWord(KIf)], TArm(TE(s.c), TBlock(s.body), TTail(s.tail)));
    } else if IsSimple(s) {
      SimpleBlanks(s);
    }
  }

  lemma {:induction false} TailBlanks(t: Tail)
    ensures BlankToks(TTail(t)) == TTail(BlankTail(t))
    decreases t, 0
  {
    if t.Else? {
      BlockBlanks(t.body);
      ArmBlanks([], TBlock(t.body), []);
      BlankConcat([TWord(KElse)], TArm([], TBlock(t.body), []));
    } else if t.Elif? {
      ExprBlanks(t.c);
      BlockBlanks(t.body);
      TailBlanks(t.tail);
      ArmBlanks(TE(t.c), TBlock(t.body), TTail(t.tail));
      BlankConcats([TWord(KElse)], [TWord(KIf)], TArm(TE(t.c), TBlock(t.body), TTail(t.tail)));
    }
  }

  // ---------------------------------------------------------------- the skeleton is the blanked code

  lemma {:induction false} BlankAt(es: seq<Expr>, i: nat)
    requires i < |es|
    ensures BlankExprs(es)[i] == BlankExpr(es[i])
  {
    if i > 0 { BlankAt(es[1..], i - 1); }
  }

  lemma {:induction false} BlankEntryAt(es: seq<Entry>, i: nat)
    requires i < |es|
    ensures BlankEntries(es)[i] == Entry("", BlankExpr(es[i].value))
  {
    if i > 0 { BlankEntryAt(es[1..], i - 1); }
  }

  lemma {:induction false} BlankStmtAt(body: seq<Stmt>, i: nat)
    requires i < |body|
    ensures BlankBlock(body)[i] == BlankStmt(body[i])
  {
    if i > 0 { BlankStmtAt(body[1..], i - 1); }
  }

  lemma {:induction false} BlankLevel(e: Expr)
    ensures Level(BlankExpr(e)) == Level(e)
  {
  }

  /** Blanking leaves no parenthesis missing. */
  lemma {:induction false} BlankWritten(e: Expr)
    requires Written(e)
    ensures Written(BlankExpr(e))
    decreases e, 1
  {
    match e
    case Array(items) => BlankAllWritten(items);
    case Object(entries) => BlankEntriesWritten(entries);
    case Call(_, args, _) => BlankAllWritten(args);
    case LowerKeys(a) => BlankWritten(a);
    case Not(a) =>
      BlankWritten(a);
      BlankLevel(a);
    case Bin(op, l, r) =>
      BlankWritten(l);
      BlankWritten(r);
      BlankLevel(l);
      BlankLevel(r);
    case Paren(a) => BlankWritten(a);
    case _ =>
  }

  lemma {:induction false} BlankAllWritten(es: seq<Expr>)
    requires WrittenAll(es)
    ensures WrittenAll(BlankExprs(es))
    decreases es, 0
  {
    forall i | 0 <= i < |es| ensures Written(BlankExprs(es)[i]) {
      BlankAt(es, i);
      BlankWritten(es[i]);
    }
  }

  lemma {:induction false} BlankEntriesWritten(es: seq<Entry>)
    requires WrittenEntries(es)
    ensures WrittenEntries(BlankEntries(es))
    decreases es, 0
  {
    forall i | 0 <= i < |es| ensures Written(BlankEntries(es)[i].value) {
      BlankEntryAt(es, i);
      BlankWritten(es[i].value);
    }
  }

  lemma {:induction false} BlankStmtWritten(s: Stmt)
    requires WrittenStmt(s)
    ensures WrittenStmt(BlankStmt(s)) && (IsSimple(s) <==> IsSimple(BlankStmt(s)))
    decreases s, 1
  {
    if IsSimple(s) {
      BlankWritten(s.e);
    } else if s.If? {
      BlankWritten(s.c);
      BlankBlockWritten(s.body);
      BlankTailWritten(s.tail);
    }
  }

  lemma {:induction false} BlankBlockWritten(body: seq<Stmt>)
    requires WrittenBlock(body)
    ensures WrittenBlock(BlankBlock(body))
    ensures (forall i :: 0 <= i < |body| ==> IsSimple(body[i])) ==>
              forall i :: 0 <= i < |body| ==> IsSimple(BlankBlock(body)[i])
    decreases body, 0
  {
    forall i | 0 <= i < |body|
      ensures WrittenStmt(BlankBlock(body)[i]) && (IsSimple(body[i]) <==> IsSimple(BlankBlock(body)[i]))
    {
      BlankStmtAt(body, i);
      BlankStmtWritten(body[i]);
    }
  }

  lemma {:induction false} BlankTailWritten(t: Tail)
    requires WrittenTail(t)
    ensures WrittenTail(BlankTail(t))
    decreases t, 0
  {
    match t
    case Done =>
    case Else(body) => BlankBlockWritten(body);
    case Elif(c, body, tail) =>
      BlankWritten(c);
      BlankBlockWritten(body);
      BlankTailWritten(tail);
  }

  /** Comments, blank lines and one-line layout leave no token. */
  lemma {:induction false} CodeToks(body: seq<Stmt>)
    ensures TBlock(Code(body)) == TBlock(body)
    decreases body, 0
  {
    if body != [] {
      CodeToks(body[1..]);
      if body[0].Note? || body[0].Blank? {
        assert TBlock(body) == [] + TBlock(body[1..]);
      } else {
        CodeStmtToks(body[0]);
        assert Code(body)[1..] == Code(body[1..]);
      }
    }
  }

  lemma {:induction false} CodeStmtToks(s: Stmt)
    ensures TStmt(CodeStmt(s)) == TStmt(s)
    decreases s, 1
  {
    if s.If? {
      CodeToks(s.body);
      CodeTailToks(s.tail);
    }
  }

  lemma {:induction false} CodeTailToks(t: Tail)
    ensures TTail(CodeTail(t)) == TTail(t)
    decreases t, 0
  {
    match t
    case Done =>
    case Else(body) => CodeToks(body);
    case Elif(c, body, tail) =>
      CodeToks(body);
      CodeTailToks(tail);
  }

  /** Two well-written programs have the same tokens, literal contents removed, exactly when they have
      the same code, literal contents removed. */
  lemma {:induction false} SkeletonIsCode(p: seq<Stmt>, q: seq<Stmt>)
    requires WrittenBlock(p) && WrittenBlock(q)
    ensures BlankToks(TBlock(p)) == BlankToks(TBlock(q)) <==> Code(BlankBlock(p)) == Code(BlankBlock(q))
  {
    BlockBlanks(p);
    BlockBlanks(q);
    CodeToks(BlankBlock(p));
    CodeToks(BlankBlock(q));
    BlankRead(p);
    BlankRead(q);
  }

  lemma {:induction false} BlankRead(p: seq<Stmt>)
    requires WrittenBlock(p)
    ensures ParseBlock(TBlock(BlankBlock(p))) == Some((Code(BlankBlock(p)), []))
  {
    BlankBlockWritten(p);
    BlockRead(BlankBlock(p), []);
    assert TBlock(BlankBlock(p)) + [] == TBlock(BlankBlock(p));
  }

  // ---------------------------------------------------------------- balance

  function Closer(t: Tok): Option<Sym> {
    if t == TSym(LParen) then Some(RParen)
    else if t == TSym(LBracket) then Some(RBracket)
    else if t == TSym(LBrace) then Some(RBrace)
    else None
  }

  predicate IsCloser(t: Tok) { t in {TSym(RParen), TSym(RBracket), TSym(RBrace)} }

  /** Matching brackets with a stack of the closers still owed. */
  function Scan(ts: seq<Tok>, owed: seq<Sym>): Option<seq<Sym>> {
    if ts == [] then Some(owed)
    else if Closer(ts[0]).Some? then Scan(ts[1..], [Closer(ts[0]).value] + owed)
    else if IsCloser(ts[0]) then
      if owed != [] && ts[0] == TSym(owed[0]) then Scan(ts[1..], owed[1..]) else None
    else Scan(ts[1..], owed)
  }

  predicate Balanced(ts: seq<Tok>) { Scan(ts, []) == Some([]) }

  /** Scanning these tokens changes nothing, wherever they stand. */
  ghost predicate Neutral(ts: seq<Tok>) {
    forall rest, owed {:trigger Scan(ts + rest, owed)} :: Scan(ts + rest, owed) == Scan(rest, owed)
  }

  predicate Plain(ts: seq<Tok>) { forall i :: 0 <= i < |ts| ==> Closer(ts[i]).None? && !IsCloser(ts[i]) }

  lemma {:induction false} PlainNeutral(ts: seq<Tok>)
    requires Plain(ts)
    ensures Neutral(ts)
  {
    forall rest, owed ensures Scan(ts + rest, owed) == Scan(rest, owed) {
      if ts == [] {
        assert ts + rest == rest;
      } else {
        PlainNeutral(ts[1..]);
        assert (ts + rest)[0] == ts[0] && (ts + rest)[1..] == ts[1..] + rest;
        assert Scan(ts[1..] + rest, owed) == Scan(rest, owed);
      }
    }
  }

  lemma {:induction false} NeutralConcat(a: seq<Tok>, b: seq<Tok>)
    requires Neutral(a) && Neutral(b)
    ensures Neutral(a + b)
  {
    forall rest, owed ensures Scan(a + b + rest, owed) == Scan(rest, owed) {
      assert a + b + rest == a + (b + rest);
    }
  }

  lemma {:induction false} NeutralWrapped(open: Tok, a: seq<Tok>, close: Sym)
    requires Neutral(a) && Closer(open) == Some(close)
    ensures Neutral([open] + a + [TSym(close)])
  {
    forall rest, owed ensures Scan([open] + a + [TSym(close)] + rest, owed) == Scan(rest, owed) {
      var tail := [TSym(close)] + rest;
      var all := [open] + (a + tail);
      assert [open] + a + [TSym(close)] + rest == all;
      assert all[0] == open && all[1..] == a + tail;
      assert tail[0] == TSym(close) && tail[1..] == rest;
      assert Scan(a + tail, [close] + owed) == Scan(tail, [close] + owed);
      assert ([close] + owed)[1..] == owed;
    }
  }

  lemma {:induction false} LowerKeysNeutral(arg: seq<Tok>)
    requires Neutral(arg)
    ensures Neutral([TWord(KMapKeys), TSym(LParen)] + arg + LowerKeysRest())
  {
    var name, key := [TWord(KMapKeys)], [TWord(KKey)];
    var bars, down := [TSym(Arrow), TSym(Bar), TWord(KKey), TSym(Bar)], [TFunc(Downcase)];
    var call := [TSym(LParen)] + arg + [TSym(RParen)];
    var fold := [TSym(LParen)] + key + [TSym(RParen)];
    var body := [TSym(LBrace)] + (down + fold) + [TSym(RBrace)];
    NeutralWrapped(TSym(LParen), arg, RParen);
    PlainNeutral(name);
    PlainNeutral(key);
    PlainNeutral(bars);
    PlainNeutral(down);
    NeutralWrapped(TSym(LParen), key, RParen);
    NeutralConcat(down, fold);
    NeutralWrapped(TSym(LBrace), down + fold, RBrace);
    NeutralConcat(name, call);
    NeutralConcat(bars, body);
    NeutralConcat(name + call, bars + body);
    assert [TWord(KMapKeys), TSym(LParen)] + arg + LowerKeysRest() == (name + call) + (bars + body);
  }

  lemma {:induction false} CallNeutral(f: Func, args: seq<Tok>)
    requires Neutral(args)
    ensures Neutral([TFunc(f)] + (if Raises(f) then [TSym(Bang)] else []) + [TSym(LParen)] + args + [TSym(RParen)])
  {
    var name := [TFunc(f)] + if Raises(f) then [TSym(Bang)] else [];
    var call := [TSym(LParen)] + args + [TSym(RParen)];
    PlainNeutral(name);
    NeutralWrapped(TSym(LParen), args, RParen);
    NeutralConcat(name, call);
    assert name + [TSym(LParen)] + args + [TSym(RParen)] == name + call;
  }

  lemma {:induction false} PrefixNeutral(a: seq<Tok>, b: seq<Tok>)
    requires Plain(a) && Neutral(b)
    ensures Neutral(a + b)
  {
    PlainNeutral(a);
    NeutralConcat(a, b);
  }

  lemma {:induction false} InfixNeutral(a: seq<Tok>, b: seq<Tok>, c: seq<Tok>)
    requires Neutral(a) && Plain(b) && Neutral(c)
    ensures Neutral(a + b + c)
  {
    PlainNeutral(b);
    NeutralConcat(a, b);
    NeutralConcat(a + b, c);
  }

  lemma {:induction false} ExprNeutral(e: Expr)
    ensures Neutral(TE(e))
    decreases e, 1
  {
    match e
    case Array(items) =>
      ArgsNeutral(items, None);
      NeutralWrapped(TSym(LBracket), TArgs(items, None), RBracket);
    case Object(entries) =>
      EntriesNeutral(entries);
      NeutralWrapped(TSym(LBrace), TEntries(entries), RBrace);
    case Call(f, args, cs) =>
      ArgsNeutral(args, cs);
      CallNeutral(f, TArgs(args, cs));
    case LowerKeys(a) =>
      ExprNeutral(a);
      LowerKeysNeutral(TE(a));
    case Not(a) =>
      ExprNeutral(a);
      PrefixNeutral([TSym(Bang)], TE(a));
    case Bin(op, l, r) =>
      ExprNeutral(l);
      ExprNeutral(r);
      InfixNeutral(TE(l), [TSym(BinOp(op))], TE(r));
    case Paren(a) =>
      ExprNeutral(a);
      NeutralWrapped(TSym(LParen), TE(a), RParen);
    case _ => PlainNeutral(TE(e));
  }

  lemma {:induction false} ArgsNeutral(args: seq<Expr>, cs: Option<bool>)
    ensures Neutral(TArgs(args, cs))
    decreases args, 0
  {
    if args == [] {
      PlainNeutral(TCase(cs));
    } else {
      ExprNeutral(args[0]);
      ArgsNeutral(args[1..], cs);
      InfixNeutral(TE(args[0]), [TSym(Comma)], TArgs(args[1..], cs));
    }
  }

  lemma {:induction false} EntriesNeutral(entries: seq<Entry>)
    ensures Neutral(TEntries(entries))
    decreases entries, 0
  {
    if entries == [] {
      PlainNeutral([]);
    } else {
      var key, value := [TStr(entries[0].key), TSym(Colon)], TE(entries[0].value);
      ExprNeutral(entries[0].value);
      EntriesNeutral(entries[1..]);
      PrefixNeutral(key, value);
      InfixNeutral(key + value, [TSym(Comma)], TEntries(entries[1..]));
    }
  }

  lemma {:induction false} ArmNeutral(c: seq<Tok>, body: seq<Tok>, tail: seq<Tok>)
    requires Neutral(c) && Neutral(body) && Neutral(tail)
    ensures Neutral(TArm(c, body, tail))
  {
    var block := [TSym(LBrace)] + body + [TSym(RBrace)];
    NeutralWrapped(TSym(LBrace), body, RBrace);
    NeutralConcat(c, block);
    NeutralConcat(c + block, tail);
    assert TArm(c, body, tail) == c + block + tail;
  }

  lemma {:induction false} BlockNeutral(body: seq<Stmt>)
    ensures Neutral(TBlock(body))
    decreases body, 0
  {
    if body == [] {
      PlainNeutral([]);
    } else {
      StmtNeutral(body[0]);
      BlockNeutral(body[1..]);
      NeutralConcat(TStmt(body[0]), TBlock(body[1..]));
    }
  }

  lemma {:induction false} StmtNeutral(s: Stmt)
    ensures Neutral(TStmt(s))
    decreases s, 1
  {
    match s
    case Note(_, _) => PlainNeutral([]);
    case Blank => PlainNeutral([]);
    case Assign(n, e) =>
      ExprNeutral(e);
      PrefixNeutral([TName(n), TSym(Sym.Assigns)], TE(e));
    case AssignDot(root, e) =>
      ExprNeutral(e);
      PrefixNeutral([TRoot(root), TSym(Sym.Assigns)], TE(e));
    case AssignPair(n, err, e) =>
      ExprNeutral(e);
      PrefixNeutral([TName(n), TSym(Comma), TName(err), TSym(Sym.Assigns)], TE(e));
    case If(_, c, body, tail) =>
      ExprNeutral(c);
      BlockNeutral(body);
      TailNeutral(tail);
      ArmNeutral(TE(c), TBlock(body), TTail(tail));
      PrefixNeutral([TWord(KIf)], TArm(TE(c), TBlock(body), TTail(tail)));
  }

  lemma {:induction false} TailNeutral(t: Tail)
    ensures Neutral(TTail(t))
    decreases t, 0
  {
    PlainNeutral([]);
    match t
    case Done =>
    case Else(body) =>
      BlockNeutral(body);
      ArmNeutral([], TBlock(body), []);
      PrefixNeutral([TWord(KElse)], TArm([], TBlock(body), []));
    case Elif(c, body, tail) =>
      ExprNeutral(c);
      BlockNeutral(body);
      TailNeutral(tail);
      ArmNeutral(TE(c), TBlock(body), TTail(tail));
      PrefixNeutral([TWord(KIf)], TArm(TE(c), TBlock(body), TTail(tail)));
      PrefixNeutral([TWord(KElse)], [TWord(KIf)] + TArm(TE(c), TBlock(body), TTail(tail)));
  }

  /** Every emitted program is bracket-balanced outside literals and comments. */
  lemma {:induction false} ProgramBalanced(chain: Chain, version: int)
    requires CompileText(chain, version).Ok?
    ensures Lex(CompileText(chain, version).value).Some?
    ensures Balanced(Lex(CompileText(chain, version).value).value)
  {
    var ts := TBlock(CompileChain(chain, version).value);
    Emission.ChainTextRead(chain, version);
    BlockNeutral(CompileChain(chain, version).value);
    assert ts + [] == ts;
    assert Scan(ts + [], []) == Scan([], []);
  }
}
