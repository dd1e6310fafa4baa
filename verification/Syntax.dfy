/**
 The printer and the parser of the VRL subset, and the proof that reading what was printed gives
 back exactly the program. `??` binds loosest, then `||`, `&&`, comparisons and `!`.
 */
module Syntax {
  import opened Common
  import opened Vrl
  import opened Lexer
  import Decimals

  // ---------------------------------------------------------------- printing

  const SPACE := Ws(" ")
  const NEWLINE := Ws("\n")

  function S(sym: Sym): Piece { T(TSym(sym)) }

  /** Functions called with `!`, whose failure aborts the program. */
  predicate Raises(f: Func) { f.Slice? || f.Set? }

  function BoolWord(b: bool): Tok { TWord(if b then KTrue else KFalse) }

  function Show(e: Expr): seq<Piece>
    decreases e, 1
  {
    match e
    case LitNull => [T(TWord(KNull))]
    case LitBool(b) => [T(BoolWord(b))]
    case LitNum(lexeme) => [T(TNum(lexeme))]
    case LitStr(s) => [T(TStr(s))]
    case LitRegex(text) => [T(TRegex(text))]
    case Var(n) => [T(TName(n))]
    case Dot(root) => [T(TRoot(root))]
    case Array(items) => [S(LBracket)] + ShowArgs(items, None) + [S(RBracket)]
    case Object(entries) =>
      [S(LBrace)] + (if entries == [] then [] else [NEWLINE]) + ShowEntries(entries) + [S(RBrace)]
    case Call(f, args, cs) =>
      [T(TFunc(f))] + (if Raises(f) then [S(Bang)] else []) + [S(LParen)] + ShowArgs(args, cs) + [S(RParen)]
    case LowerKeys(a) => [T(TWord(KMapKeys)), S(LParen)] + Show(a) + [S(RParen)] + LowerKeysTail()
    case Not(a) => [S(Bang)] + Show(a)
    case Bin(op, l, r) => Show(l) + [SPACE, S(BinOp(op)), SPACE] + Show(r)
    case Paren(a) => [S(LParen)] + Show(a) + [S(RParen)]
  }

  /** ` -> |k| { downcase(k) }` */
  function LowerKeysTail(): seq<Piece> {
    [SPACE, S(Arrow), SPACE] + [S(Bar), T(TWord(KKey)), S(Bar)] + [SPACE, S(LBrace), SPACE]
    + [T(TFunc(Downcase)), S(LParen)] + [T(TWord(KKey)), S(RParen)] + [SPACE, S(RBrace)]
  }

  function ShowCase(cs: Option<bool>): seq<Piece> {
    if cs.None? then [] else [T(TWord(KCaseSensitive)), S(Colon), SPACE, T(BoolWord(cs.value))]
  }

  function ShowArgs(args: seq<Expr>, cs: Option<bool>): seq<Piece>
    decreases args, 0
  {
    if args == [] then ShowCase(cs)
    else if |args| == 1 && cs.None? then Show(args[0])
    else Show(args[0]) + [S(Comma), SPACE] + ShowArgs(args[1..], cs)
  }

  function ShowEntries(entries: seq<Entry>): seq<Piece>
    decreases entries, 0
  {
    if entries == [] then []
    else
      [Ws("    "), T(TStr(entries[0].key)), S(Colon), SPACE] + Show(entries[0].value) + [S(Comma), NEWLINE]
      + ShowEntries(entries[1..])
  }

  // ---------------------------------------------------------------- well-parenthesised syntax

  function OpLevel(op: Op): nat {
    match op case Coalesce => 0 case Or => 1 case And => 2 case _ => 3
  }

  function Level(e: Expr): nat {
    if e.Bin? then OpLevel(e.op) else 4
  }

  /** Comparisons do not associate; the other operators nest to the right. */
  function RightLevel(op: Op): nat {
    if OpLevel(op) == 3 then 4 else OpLevel(op)
  }

  /** Operands bind at least as tightly as their operator asks, so no parenthesis is missing. */
  predicate Written(e: Expr)
    decreases e, 1
  {
    match e
    case LitNum(lexeme) => Decimals.IsNumeral(lexeme)
    case LitRegex(text) => '\'' !in text
    case Array(items) => WrittenAll(items)
    case Object(entries) => WrittenEntries(entries)
    case Call(_, args, _) => WrittenAll(args)
    case LowerKeys(a) => Written(a)
    case Not(a) => Written(a) && Level(a) == 4
    case Bin(op, l, r) => Written(l) && Written(r) && Level(l) > OpLevel(op) && Level(r) >= RightLevel(op)
    case Paren(a) => Written(a)
    case _ => true
  }

  predicate WrittenAll(es: seq<Expr>)
    decreases es, 0
  {
    forall i :: 0 <= i < |es| ==> Written(es[i])
  }

  predicate WrittenEntries(es: seq<Entry>)
    decreases es, 0
  {
    forall i :: 0 <= i < |es| ==> Written(es[i].value)
  }

  // ---------------------------------------------------------------- parsing expressions

  predicate Opens(ts: seq<Tok>, sym: Sym) { ts != [] && ts[0] == TSym(sym) }

  predicate HasPrefix(ts: seq<Tok>, prefix: seq<Tok>) {
    |prefix| <= |ts| && ts[..|prefix|] == prefix
  }

  /** An operator of exactly level `l` in front. */
  predicate OpensOp(ts: seq<Tok>, l: nat) {
    ts != [] && ts[0].TSym? && ts[0].sym.BinOp? && OpLevel(ts[0].sym.op) == l
  }

  function LowerKeysRest(): seq<Tok> {
    [TSym(RParen), TSym(Arrow), TSym(Bar), TWord(KKey), TSym(Bar), TSym(LBrace),
     TFunc(Downcase), TSym(LParen), TWord(KKey), TSym(RParen), TSym(RBrace)]
  }

  /** The longest expression of level `l` or tighter in front of `ts`. */
  function ParseE(l: nat, ts: seq<Tok>): (r: Option<(Expr, seq<Tok>)>)
    requires l <= 4
    ensures r.Some? ==> |r.value.1| < |ts|
    decreases |ts|, 5 - l
  {
    if l == 4 then ParseAtom(ts)
    else
      var a := ParseE(l + 1, ts);
      if a.None? || !OpensOp(a.value.1, l) then a
      else
        var op := a.value.1[0].sym.op;
        var b := ParseE(RightLevel(op), a.value.1[1..]);
        if b.None? then None else Some((Bin(op, a.value.0, b.value.0), b.value.1))
  }

  function ParseAtom(ts: seq<Tok>): (r: Option<(Expr, seq<Tok>)>)
    ensures r.Some? ==> |r.value.1| < |ts|
    decreases |ts|, 0
  {
    if ts == [] then None
    else
      var rest := ts[1..];
      match ts[0]
      case TNum(lexeme) => Some((LitNum(lexeme), rest))
      case TStr(s) => Some((LitStr(s), rest))
      case TRegex(text) => Some((LitRegex(text), rest))
      case TName(n) => Some((Var(n), rest))
      case TRoot(root) => Some((Dot(root), rest))
      case TWord(w) =>
        if w.KNull? then Some((LitNull, rest))
        else if w.KTrue? || w.KFalse? then Some((LitBool(w.KTrue?), rest))
        else if w.KMapKeys? && Opens(rest, LParen) then
          var a := ParseE(0, rest[1..]);
          if a.None? || !HasPrefix(a.value.1, LowerKeysRest()) then None
          else Some((LowerKeys(a.value.0), a.value.1[|LowerKeysRest()|..]))
        else None
      case TFunc(f) =>
        var ts' := if Raises(f) && Opens(rest, Bang) then rest[1..] else rest;
        if (Raises(f) && !Opens(rest, Bang)) || !Opens(ts', LParen) then None
        else
          var args := ParseArgs(ts'[1..], RParen);
          if args.None? then None
          else Some((Call(f, args.value.0, args.value.1), args.value.2))
      case TSym(sym) =>
        if sym.Bang? then
          var a := ParseE(4, rest);
          if a.None? then None else Some((Not(a.value.0), a.value.1))
        else if sym.LParen? then
          var a := ParseE(0, rest);
          if a.None? || !Opens(a.value.1, RParen) then None
          else Some((Paren(a.value.0), a.value.1[1..]))
        else if sym.LBracket? then
          var items := ParseArgs(rest, RBracket);
          if items.None? || items.value.1.Some? then None
          else Some((Array(items.value.0), items.value.2))
        else if sym.LBrace? then
          var entries := ParseEntries(rest);
          if entries.None? then None else Some((Object(entries.value.0), entries.value.1))
        else None
  }

  /** Comma-separated expressions, an optional `case_sensitive:` last, up to `close`. */
  function ParseArgs(ts: seq<Tok>, close: Sym): (r: Option<(seq<Expr>, Option<bool>, seq<Tok>)>)
    ensures r.Some? ==> |r.value.2| < |ts|
    decreases |ts|, 6
  {
    if Opens(ts, close) then Some(([], None, ts[1..]))
    else if HasPrefix(ts, [TWord(KCaseSensitive), TSym(Colon)]) then
      if |ts| < 4 || ts[2] !in {TWord(KTrue), TWord(KFalse)} || ts[3] != TSym(close) then None
      else Some(([], Some(ts[2] == TWord(KTrue)), ts[4..]))
    else
      var a := ParseE(0, ts);
      if a.None? then None
      else if Opens(a.value.1, close) then Some(([a.value.0], None, a.value.1[1..]))
      else if !Opens(a.value.1, Comma) then None
      else
        var more := ParseArgs(a.value.1[1..], close);
        if more.None? then None else Some(([a.value.0] + more.value.0, more.value.1, more.value.2))
  }

  function ParseEntries(ts: seq<Tok>): (r: Option<(seq<Entry>, seq<Tok>)>)
    ensures r.Some? ==> |r.value.1| < |ts|
    decreases |ts|, 6
  {
    if Opens(ts, RBrace) then Some(([], ts[1..]))
    else if |ts| < 2 || !ts[0].TStr? || ts[1] != TSym(Colon) then None
    else
      var v := ParseE(0, ts[2..]);
      if v.None? || !Opens(v.value.1, Comma) then None
      else
        var more := ParseEntries(v.value.1[1..]);
        if more.None? then None
        else Some(([Entry(ts[0].s, v.value.0)] + more.value.0, more.value.1))
  }

  // ---------------------------------------------------------------- the tokens of an expression

  function TE(e: Expr): seq<Tok>
    decreases e, 1
  {
    match e
    case LitNull => [TWord(KNull)]
    case LitBool(b) => [BoolWord(b)]
    case LitNum(lexeme) => [TNum(lexeme)]
    case LitStr(s) => [TStr(s)]
    case LitRegex(text) => [TRegex(text)]
    case Var(n) => [TName(n)]
    case Dot(root) => [TRoot(root)]
    case Array(items) => [TSym(LBracket)] + TArgs(items, None) + [TSym(RBracket)]
    case Object(entries) => [TSym(LBrace)] + TEntries(entries) + [TSym(RBrace)]
    case Call(f, args, cs) =>
      [TFunc(f)] + (if Raises(f) then [TSym(Bang)] else []) + [TSym(LParen)] + TArgs(args, cs) + [TSym(RParen)]
    case LowerKeys(a) => [TWord(KMapKeys), TSym(LParen)] + TE(a) + LowerKeysRest()
    case Not(a) => [TSym(Bang)] + TE(a)
    case Bin(op, l, r) => TE(l) + [TSym(BinOp(op))] + TE(r)
    case Paren(a) => [TSym(LParen)] + TE(a) + [TSym(RParen)]
  }

  function TCase(cs: Option<bool>): seq<Tok> {
    if cs.None? then [] else [TWord(KCaseSensitive), TSym(Colon), BoolWord(cs.value)]
  }

  function TArgs(args: seq<Expr>, cs: Option<bool>): seq<Tok>
    decreases args, 0
  {
    if args == [] then TCase(cs)
    else if |args| == 1 && cs.None? then TE(args[0])
    else TE(args[0]) + [TSym(Comma)] + TArgs(args[1..], cs)
  }

  function TEntries(entries: seq<Entry>): seq<Tok>
    decreases entries, 0
  {
    if entries == [] then []
    else [TStr(entries[0].key), TSym(Colon)] + TE(entries[0].value) + [TSym(Comma)] + TEntries(entries[1..])
  }

  lemma {:induction false} ToksConcat(a: seq<Piece>, b: seq<Piece>)
    ensures Toks(a + b) == Toks(a) + Toks(b)
  {
    if a == [] {
      assert a + b == b;
    } else {
      assert (a + b)[0] == a[0] && (a + b)[1..] == a[1..] + b;
      ToksConcat(a[1..], b);
    }
  }

  function TokOf(p: Piece): seq<Tok> { if p.T? then [p.t] else [] }

  lemma {:induction false} ToksShort(a: Piece, b: Piece, c: Piece, d: Piece)
    ensures Toks([a]) == TokOf(a)
    ensures Toks([a, b]) == TokOf(a) + TokOf(b)
    ensures Toks([a, b, c]) == TokOf(a) + TokOf(b) + TokOf(c)
    ensures Toks([a, b, c, d]) == TokOf(a) + TokOf(b) + TokOf(c) + TokOf(d)
  {
    assert [a, b] == [a] + [b] && [a, b, c] == [a, b] + [c] && [a, b, c, d] == [a, b, c] + [d];
    ToksConcat([a], [b]);
    ToksConcat([a, b], [c]);
    ToksConcat([a, b, c], [d]);
  }

  /** Tokens of concatenations and of short literal sequences, for every argument. */
  lemma {:induction false} ToksLaws()
    ensures forall a, b {:trigger Toks(a + b)} :: Toks(a + b) == Toks(a) + Toks(b)
    ensures forall a {:trigger Toks([a])} :: Toks([a]) == TokOf(a)
    ensures forall a, b {:trigger Toks([a, b])} :: Toks([a, b]) == TokOf(a) + TokOf(b)
    ensures forall a, b, c {:trigger Toks([a, b, c])} ::
              Toks([a, b, c]) == TokOf(a) + TokOf(b) + TokOf(c)
    ensures forall a, b, c, d {:trigger Toks([a, b, c, d])} ::
              Toks([a, b, c, d]) == TokOf(a) + TokOf(b) + TokOf(c) + TokOf(d)
  {
    forall a, b ensures Toks(a + b) == Toks(a) + Toks(b) { ToksConcat(a, b); }
    forall a, b, c, d
      ensures Toks([a]) == TokOf(a)
      ensures Toks([a, b]) == TokOf(a) + TokOf(b)
      ensures Toks([a, b, c]) == TokOf(a) + TokOf(b) + TokOf(c)
      ensures Toks([a, b, c, d]) == TokOf(a) + TokOf(b) + TokOf(c) + TokOf(d)
    {
      ToksShort(a, b, c, d);
    }
  }

  lemma {:induction false} LowerKeysTailToks()
    ensures Toks([S(RParen)] + LowerKeysTail()) == LowerKeysRest()
  {
    ToksLaws();
  }

  lemma {:induction false} LowerKeysToks(a: Expr)
    requires Toks(Show(a)) == TE(a)
    ensures Toks(Show(LowerKeys(a))) == TE(LowerKeys(a))
  {
    var open, tail := [T(TWord(KMapKeys)), S(LParen)], [S(RParen)] + LowerKeysTail();
    ToksShort(open[0], open[1], open[0], open[0]);
    LowerKeysTailToks();
    WrappedToks(open, Show(a), tail);
    assert Show(LowerKeys(a)) == open + Show(a) + tail;
  }

  lemma {:induction false} WrappedToks(open: seq<Piece>, inner: seq<Piece>, close: seq<Piece>)
    ensures Toks(open + inner + close) == Toks(open) + Toks(inner) + Toks(close)
  {
    ToksConcat(open, inner);
    ToksConcat(open + inner, close);
  }

  lemma {:induction false} CallToks(f: Func, args: seq<Expr>, cs: Option<bool>)
    requires Toks(ShowArgs(args, cs)) == TArgs(args, cs)
    ensures Toks(Show(Call(f, args, cs))) == TE(Call(f, args, cs))
  {
    ToksLaws();
  }

  lemma {:induction false} ObjectToks(entries: seq<Entry>)
    requires Toks(ShowEntries(entries)) == TEntries(entries)
    ensures Toks(Show(Object(entries))) == TE(Object(entries))
  {
    ToksLaws();
  }

  lemma {:induction false} BinToks(op: Op, l: Expr, r: Expr)
    requires Toks(Show(l)) == TE(l) && Toks(Show(r)) == TE(r)
    ensures Toks(Show(Bin(op, l, r))) == TE(Bin(op, l, r))
  {
    var mid := [SPACE, S(BinOp(op)), SPACE];
    ToksShort(mid[0], mid[1], mid[2], mid[2]);
    WrappedToks(Show(l), mid, Show(r));
    assert Toks(mid) == [TSym(BinOp(op))];
  }

  lemma {:induction false} WrapToks(open: Sym, inner: seq<Piece>, close: Sym)
    ensures Toks([S(open)] + inner + [S(close)]) == [TSym(open)] + Toks(inner) + [TSym(close)]
  {
    ToksLaws();
  }

  lemma {:induction false} ShowToks(e: Expr)
    ensures Toks(Show(e)) == TE(e)
    decreases e, 1
  {
    match e
    case Array(items) => ShowArgsToks(items, None); WrapToks(LBracket, ShowArgs(items, None), RBracket);
    case Object(entries) => ShowEntriesToks(entries); ObjectToks(entries);
    case Call(f, args, cs) => ShowArgsToks(args, cs); CallToks(f, args, cs);
    case LowerKeys(a) => ShowToks(a); LowerKeysToks(a);
    case Not(a) => ShowToks(a); ToksConcat([S(Bang)], Show(a)); ToksLaws();
    case Bin(op, l, r) => ShowToks(l); ShowToks(r); BinToks(op, l, r);
    case Paren(a) => ShowToks(a); WrapToks(LParen, Show(a), RParen);
    case _ => ToksLaws();
  }

  lemma {:induction false} ShowArgsToks(args: seq<Expr>, cs: Option<bool>)
    ensures Toks(ShowArgs(args, cs)) == TArgs(args, cs)
    decreases args, 0
  {
    ToksLaws();
    if args != [] {
      ShowToks(args[0]);
      ShowArgsToks(args[1..], cs);
    }
  }

  lemma {:induction false} ShowEntriesToks(entries: seq<Entry>)
    ensures Toks(ShowEntries(entries)) == TEntries(entries)
    decreases entries, 0
  {
    ToksLaws();
    if entries != [] {
      ShowToks(entries[0].value);
      ShowEntriesToks(entries[1..]);
    }
  }

  // ---------------------------------------------------------------- expressions are read back

  /** No operator that a parser of level `l` would go on with. */
  predicate Stops(l: nat, rest: seq<Tok>) {
    rest == [] || !rest[0].TSym? || !rest[0].sym.BinOp? || OpLevel(rest[0].sym.op) < l
  }

  /** An expression read at a tight level is read at a looser one too, if nothing follows it. */
  lemma {:induction false} Loosen(l: nat, k: nat, ts: seq<Tok>, e: Expr, rest: seq<Tok>)
    requires l <= k <= 4
    requires ParseE(k, ts) == Some((e, rest)) && Stops(l, rest)
    ensures ParseE(l, ts) == Some((e, rest))
    decreases k - l
  {
    if l < k { Loosen(l + 1, k, ts, e, rest); }
  }

  predicate IsStart(t: Tok) {
    !t.TSym? || t.sym in {LParen, LBracket, LBrace, Bang}
  }

  lemma {:induction false} ExprStarts(e: Expr)
    ensures TE(e) != [] && IsStart(TE(e)[0]) && TE(e)[0] != TWord(KCaseSensitive)
  {
    if e.Bin? { ExprStarts(e.l); }
  }

  /** Main lemma: printed tokens, followed by anything the level does not continue with, are read
      back as the same tree with the rest untouched. */
  lemma {:induction false} ExprRead(l: nat, e: Expr, rest: seq<Tok>)
    requires l <= Level(e) && Written(e) && Stops(l, rest)
    ensures ParseE(l, TE(e) + rest) == Some((e, rest))
    decreases e, 1
  {
    if e.Bin? {
      BinRead(e.op, e.l, e.r, rest);
    } else {
      AtomRead(e, rest);
      assert ParseE(4, TE(e) + rest) == ParseAtom(TE(e) + rest);
    }
    Loosen(l, Level(e), TE(e) + rest, e, rest);
  }

  lemma {:induction false} BinStep(op: Op, a: Expr, ta: seq<Tok>, b: Expr, tb: seq<Tok>, rest: seq<Tok>)
    requires ParseE(OpLevel(op) + 1, ta + ([TSym(BinOp(op))] + (tb + rest))) ==
             Some((a, [TSym(BinOp(op))] + (tb + rest)))
    requires ParseE(RightLevel(op), tb + rest) == Some((b, rest))
    ensures ParseE(OpLevel(op), ta + [TSym(BinOp(op))] + tb + rest) == Some((Bin(op, a, b), rest))
  {
    var mid := [TSym(BinOp(op))] + (tb + rest);
    assert mid[1..] == tb + rest;
    Regrouped(ta, [TSym(BinOp(op))], tb, rest);
    BinParse(op, a, ta + mid, mid, b, rest);
  }

  lemma {:induction false} Regrouped(a: seq<Tok>, b: seq<Tok>, c: seq<Tok>, d: seq<Tok>)
    ensures a + b + c + d == a + (b + (c + d))
  {
  }

  lemma {:induction false} BinParse(op: Op, a: Expr, ts: seq<Tok>, mid: seq<Tok>, b: Expr, rest: seq<Tok>)
    requires ParseE(OpLevel(op) + 1, ts) == Some((a, mid)) && mid != [] && mid[0] == TSym(BinOp(op))
    requires ParseE(RightLevel(op), mid[1..]) == Some((b, rest))
    ensures ParseE(OpLevel(op), ts) == Some((Bin(op, a, b), rest))
  {
  }

  lemma {:induction false} BinRead(op: Op, a: Expr, b: Expr, rest: seq<Tok>)
    requires Written(Bin(op, a, b)) && Stops(OpLevel(op), rest)
    ensures ParseE(OpLevel(op), TE(Bin(op, a, b)) + rest) == Some((Bin(op, a, b), rest))
    decreases Bin(op, a, b), 0
  {
    ExprRead(OpLevel(op) + 1, a, [TSym(BinOp(op))] + (TE(b) + rest));
    ExprRead(RightLevel(op), b, rest);
    BinStep(op, a, TE(a), b, TE(b), rest);
  }

  lemma {:induction false} NotStep(a: Expr, ta: seq<Tok>, rest: seq<Tok>)
    requires ParseE(4, ta + rest) == Some((a, rest))
    ensures ParseAtom([TSym(Bang)] + ta + rest) == Some((Not(a), rest))
  {
    assert ([TSym(Bang)] + ta + rest)[1..] == ta + rest;
  }

  lemma {:induction false} ParenStep(a: Expr, ta: seq<Tok>, rest: seq<Tok>)
    requires ParseE(0, ta + ([TSym(RParen)] + rest)) == Some((a, [TSym(RParen)] + rest))
    ensures ParseAtom([TSym(LParen)] + ta + [TSym(RParen)] + rest) == Some((Paren(a), rest))
  {
    var ts := [TSym(LParen)] + ta + [TSym(RParen)] + rest;
    assert ts[1..] == ta + ([TSym(RParen)] + rest);
    assert ([TSym(RParen)] + rest)[1..] == rest;
  }

  lemma {:induction false} ArrayStep(items: seq<Expr>, ti: seq<Tok>, rest: seq<Tok>)
    requires ParseArgs(ti + ([TSym(RBracket)] + rest), RBracket) == Some((items, None, rest))
    ensures ParseAtom([TSym(LBracket)] + ti + [TSym(RBracket)] + rest) == Some((Array(items), rest))
  {
    var ts := [TSym(LBracket)] + ti + [TSym(RBracket)] + rest;
    assert ts[1..] == ti + ([TSym(RBracket)] + rest);
  }

  lemma {:induction false} ObjectStep(entries: seq<Entry>, ti: seq<Tok>, rest: seq<Tok>)
    requires ParseEntries(ti + ([TSym(RBrace)] + rest)) == Some((entries, rest))
    ensures ParseAtom([TSym(LBrace)] + ti + [TSym(RBrace)] + rest) == Some((Object(entries), rest))
  {
    var ts := [TSym(LBrace)] + ti + [TSym(RBrace)] + rest;
    assert ts[1..] == ti + ([TSym(RBrace)] + rest);
  }

  predicate IsLeaf(e: Expr) {
    e.LitNull? || e.LitBool? || e.LitNum? || e.LitStr? || e.LitRegex? || e.Var? || e.Dot?
  }

  lemma {:induction false} LeafRead(e: Expr, rest: seq<Tok>)
    requires IsLeaf(e)
    ensures ParseAtom(TE(e) + rest) == Some((e, rest))
  {
    assert (TE(e) + rest)[1..] == rest;
  }

  lemma {:induction false} AtomRead(e: Expr, rest: seq<Tok>)
    requires !e.Bin? && Written(e)
    ensures ParseAtom(TE(e) + rest) == Some((e, rest))
    decreases e, 0
  {
    if IsLeaf(e) {
      LeafRead(e, rest);
    } else {
      InnerRead(e, rest);
    }
  }

  lemma {:induction false} InnerRead(e: Expr, rest: seq<Tok>)
    requires !e.Bin? && !IsLeaf(e) && Written(e)
    ensures ParseAtom(TE(e) + rest) == Some((e, rest))
    decreases e, -1
  {
    match e
    case Array(items) =>
      ArgsRead(items, None, RBracket, rest);
      ArrayStep(items, TArgs(items, None), rest);
    case Object(entries) =>
      EntriesRead(entries, rest);
      ObjectStep(entries, TEntries(entries), rest);
    case Call(f, args, cs) =>
      ArgsRead(args, cs, RParen, rest);
      CallStep(f, args, cs, TArgs(args, cs), rest);
    case LowerKeys(a) =>
      ExprRead(0, a, LowerKeysRest() + rest);
      LowerKeysStep(a, TE(a), rest);
    case Not(a) =>
      ExprRead(4, a, rest);
      NotStep(a, TE(a), rest);
    case Paren(a) =>
      ExprRead(0, a, [TSym(RParen)] + rest);
      ParenStep(a, TE(a), rest);
  }

  lemma {:induction false} CallStep(f: Func, args: seq<Expr>, cs: Option<bool>, ti: seq<Tok>, rest: seq<Tok>)
    requires ParseArgs(ti + ([TSym(RParen)] + rest), RParen) == Some((args, cs, rest))
    ensures ParseAtom([TFunc(f)] + (if Raises(f) then [TSym(Bang)] else []) + [TSym(LParen)] + ti
                      + [TSym(RParen)] + rest) == Some((Call(f, args, cs), rest))
  {
    var bang := if Raises(f) then [TSym(Bang)] else [];
    var inner := ti + ([TSym(RParen)] + rest);
    CallParse(f, args, cs, bang, inner, rest);
    CallRegrouped([TFunc(f)], bang, [TSym(LParen)], ti, [TSym(RParen)], rest);
  }

  lemma {:induction false} CallRegrouped(a: seq<Tok>, b: seq<Tok>, c: seq<Tok>, d: seq<Tok>, e: seq<Tok>, f: seq<Tok>)
    ensures a + b + c + d + e + f == a + (b + (c + (d + (e + f))))
  {
  }

  lemma {:induction false} CallParse(f: Func, args: seq<Expr>, cs: Option<bool>, bang: seq<Tok>, inner: seq<Tok>,
                                     rest: seq<Tok>)
    requires bang == if Raises(f) then [TSym(Bang)] else []
    requires ParseArgs(inner, RParen) == Some((args, cs, rest))
    ensures ParseAtom([TFunc(f)] + (bang + ([TSym(LParen)] + inner))) == Some((Call(f, args, cs), rest))
  {
    var open := [TSym(LParen)] + inner;
    assert open[1..] == inner;
    assert (bang + open)[|bang|..] == open;
    assert ([TFunc(f)] + (bang + open))[1..] == bang + open;
  }

  lemma {:induction false} LowerKeysStep(a: Expr, ta: seq<Tok>, rest: seq<Tok>)
    requires ParseE(0, ta + (LowerKeysRest() + rest)) == Some((a, LowerKeysRest() + rest))
    ensures ParseAtom([TWord(KMapKeys), TSym(LParen)] + ta + LowerKeysRest() + rest) ==
            Some((LowerKeys(a), rest))
  {
    var close := LowerKeysRest();
    var inner := ta + (close + rest);
    var ts := [TWord(KMapKeys), TSym(LParen)] + ta + close + rest;
    assert ts[1..] == [TSym(LParen)] + inner && ts[1..][1..] == inner;
    assert (close + rest)[..|close|] == close && (close + rest)[|close|..] == rest;
  }

  /** The first argument, and then either the end of the list or a comma and more of it. */
  lemma {:induction false} ArgsStep(ts: seq<Tok>, a: Expr, rest: seq<Tok>, close: Sym)
    requires close in {RParen, RBracket}
    requires ts != [] && IsStart(ts[0]) && ts[0] != TWord(KCaseSensitive)
    ensures ParseE(0, ts) == Some((a, [TSym(close)] + rest)) ==>
              ParseArgs(ts, close) == Some(([a], None, rest))
    ensures ParseE(0, ts) == Some((a, [TSym(Comma)] + rest)) && ParseArgs(rest, close).Some? ==>
              var more := ParseArgs(rest, close).value;
              ParseArgs(ts, close) == Some(([a] + more.0, more.1, more.2))
  {
    assert ([TSym(close)] + rest)[1..] == rest && ([TSym(Comma)] + rest)[1..] == rest;
    if |ts| >= 2 { assert ts[..2][0] != TWord(KCaseSensitive); }
  }

  lemma {:induction false} NoArgs(cs: Option<bool>, close: Sym, rest: seq<Tok>)
    requires close in {RParen, RBracket}
    ensures ParseArgs(TCase(cs) + ([TSym(close)] + rest), close) == Some(([], cs, rest))
  {
    var end := [TSym(close)] + rest;
    var ts := TCase(cs) + end;
    assert end[1..] == rest;
    if cs.Some? {
      assert ts[..2] == [TWord(KCaseSensitive), TSym(Colon)] && ts[3] == end[0] && ts[4..] == rest;
    } else {
      assert ts == end;
    }
  }

  lemma {:induction false} ArgsRead(args: seq<Expr>, cs: Option<bool>, close: Sym, rest: seq<Tok>)
    requires WrittenAll(args) && close in {RParen, RBracket}
    ensures ParseArgs(TArgs(args, cs) + ([TSym(close)] + rest), close) == Some((args, cs, rest))
    decreases args, 0
  {
    var end := [TSym(close)] + rest;
    if args == [] {
      NoArgs(cs, close, rest);
    } else {
      ExprStarts(args[0]);
      if |args| == 1 && cs.None? {
        ExprRead(0, args[0], end);
        ArgsStep(TE(args[0]) + end, args[0], rest, close);
        assert args == [args[0]];
      } else {
        var more := TArgs(args[1..], cs) + end;
        ArgsRead(args[1..], cs, close, rest);
        ExprRead(0, args[0], [TSym(Comma)] + more);
        ArgsStep(TE(args[0]) + ([TSym(Comma)] + more), args[0], more, close);
        ArgsTokens(args, cs, end);
        assert args == [args[0]] + args[1..];
      }
    }
  }

  lemma {:induction false} ArgsTokens(args: seq<Expr>, cs: Option<bool>, end: seq<Tok>)
    requires args != [] && (|args| > 1 || cs.Some?)
    ensures TArgs(args, cs) + end == TE(args[0]) + ([TSym(Comma)] + (TArgs(args[1..], cs) + end))
  {
    var head, comma, more := TE(args[0]), [TSym(Comma)], TArgs(args[1..], cs);
    assert TArgs(args, cs) == head + comma + more;
    Regrouped(head, comma, more, end);
  }

  lemma {:induction false} EntriesStep(key: string, v: Expr, tv: seq<Tok>, tm: seq<Tok>, more: seq<Entry>, rest: seq<Tok>)
    requires ParseE(0, tv + ([TSym(Comma)] + (tm + rest))) == Some((v, [TSym(Comma)] + (tm + rest)))
    requires ParseEntries(tm + rest).Some? && ParseEntries(tm + rest).value.0 == more
    ensures ParseEntries([TStr(key), TSym(Colon)] + tv + [TSym(Comma)] + tm + rest) ==
            Some(([Entry(key, v)] + more, ParseEntries(tm + rest).value.1))
  {
    var ts := [TStr(key), TSym(Colon)] + tv + [TSym(Comma)] + tm + rest;
    assert ts[2..] == tv + ([TSym(Comma)] + (tm + rest));
    assert ([TSym(Comma)] + (tm + rest))[1..] == tm + rest;
  }

  lemma {:induction false} EntriesRead(entries: seq<Entry>, rest: seq<Tok>)
    requires WrittenEntries(entries)
    ensures ParseEntries(TEntries(entries) + ([TSym(RBrace)] + rest)) == Some((entries, rest))
    decreases entries, 0
  {
    var end := [TSym(RBrace)] + rest;
    if entries == [] {
      assert TEntries(entries) + end == end && end[1..] == rest;
    } else {
      var head, more := entries[0], TEntries(entries[1..]);
      ExprRead(0, head.value, [TSym(Comma)] + (more + end));
      EntriesRead(entries[1..], rest);
      EntriesStep(head.key, head.value, TE(head.value), more, entries[1..], end);
      assert entries == [head] + entries[1..];
    }
  }
}
