/**
 The text as the compiler writes it: line after line, one branch per active rule. It is the text of the
 program that everything else is proved about.
 */
module Emitter {
  import opened Common
  import opened Vrl
  import opened Lexer
  import opened Syntax
  import opened Programs
  import opened Rules
  import opened Compiler
  import Decimals

  function ExprText(e: Expr): string { Render(Show(e)) }

  function BlockText(depth: nat, body: seq<Stmt>): string { Render(ShowBlock(depth, body)) }

  lemma {:induction false} RenderConcat(a: seq<Piece>, b: seq<Piece>)
    ensures Render(a + b) == Render(a) + Render(b)
  {
    if a == [] {
      assert a + b == b;
    } else {
      assert (a + b)[0] == a[0] && (a + b)[1..] == a[1..] + b;
      RenderConcat(a[1..], b);
      assert PieceText(a[0]) + (Render(a[1..]) + Render(b)) == (PieceText(a[0]) + Render(a[1..])) + Render(b);
    }
  }

  lemma {:induction false} RenderOne(p: Piece)
    ensures Render([p]) == PieceText(p) && Render([]) == ""
  {
    assert [p][1..] == [];
    assert PieceText(p) + "" == PieceText(p);
  }

  lemma {:induction false} RenderTwo(p: Piece, q: Piece)
    ensures Render([p, q]) == PieceText(p) + PieceText(q)
  {
    assert [p, q] == [p] + [q];
    RenderOne(p);
    RenderOne(q);
    RenderConcat([p], [q]);
  }

  lemma {:induction false} RenderThree(p: Piece, q: Piece, r: Piece)
    ensures Render([p, q, r]) == PieceText(p) + PieceText(q) + PieceText(r)
  {
    assert [p, q, r] == [p, q] + [r];
    RenderTwo(p, q);
    RenderOne(r);
    RenderConcat([p, q], [r]);
  }

  lemma {:induction false} ShowConcat(depth: nat, a: seq<Stmt>, b: seq<Stmt>)
    ensures ShowBlock(depth, a + b) == ShowBlock(depth, a) + ShowBlock(depth, b)
  {
    if a == [] {
      assert a + b == b;
    } else {
      assert (a + b)[0] == a[0] && (a + b)[1..] == a[1..] + b;
      ShowConcat(depth, a[1..], b);
      assert ShowStmt(depth, a[0]) + (ShowBlock(depth, a[1..]) + ShowBlock(depth, b)) ==
             ShowStmt(depth, a[0]) + ShowBlock(depth, a[1..]) + ShowBlock(depth, b);
    }
  }

  lemma {:induction false} BlockConcat(depth: nat, a: seq<Stmt>, b: seq<Stmt>)
    ensures BlockText(depth, a + b) == BlockText(depth, a) + BlockText(depth, b)
  {
    ShowConcat(depth, a, b);
    RenderConcat(ShowBlock(depth, a), ShowBlock(depth, b));
  }

  lemma {:induction false} BlockOne(depth: nat, s: Stmt)
    ensures BlockText(depth, [s]) == Render(ShowStmt(depth, s)) && BlockText(depth, []) == ""
  {
    var none: seq<Stmt> := [];
    assert [s][1..] == none && ShowBlock(depth, none) == [];
    assert ShowBlock(depth, [s]) == ShowStmt(depth, s) + ShowBlock(depth, none);
    assert ShowStmt(depth, s) + [] == ShowStmt(depth, s);
  }

  // ---------------------------------------------------------------- lines

  lemma {:induction false} BlankLine(depth: nat)
    ensures BlockText(depth, [Blank]) == "\n"
  {
    BlockOne(depth, Blank);
    RenderOne(NEWLINE);
  }

  lemma {:induction false} NoteLine(depth: nat, text: string)
    ensures BlockText(depth, [Note(0, text)]) == "# " + text + "\n"
  {
    BlockOne(depth, Note(0, text));
    assert Indent(0) + [Cm(text)] == [Cm(text)];
    RenderOne(Cm(text));
  }

  /** An assignment on its own line, one step in. */
  function AssignLine(n: Name, e: Expr): string { "    " + NameText(n) + " = " + ExprText(e) + "\n" }

  lemma {:induction false} RenderFive(a: seq<Piece>, b: seq<Piece>, c: seq<Piece>, d: seq<Piece>, e: seq<Piece>)
    ensures Render(a + (b + c + d) + e) == Render(a) + Render(b) + Render(c) + Render(d) + Render(e)
  {
    RenderConcat(a + (b + c + d), e);
    RenderConcat(a, b + c + d);
    RenderConcat(b + c, d);
    RenderConcat(b, c);
    AssignRegrouped(Render(a), Render(b), Render(c), Render(d), Render(e));
  }

  lemma {:induction false} AssignRegrouped(a: string, b: string, c: string, d: string, e: string)
    ensures a + (b + c + d) + e == a + b + c + d + e
  {
  }

  lemma {:induction false} AssignText(n: Name, e: Expr)
    ensures BlockText(1, [Assign(n, e)]) == AssignLine(n, e)
  {
    AssignAt(1, n, e);
    IndentText();
  }

  lemma {:induction false} AssignAt(depth: nat, n: Name, e: Expr)
    ensures BlockText(depth, [Assign(n, e)]) == Render(Indent(depth)) + NameText(n) + " = " + ExprText(e) + "\n"
  {
    BlockOne(depth, Assign(n, e));
    RenderFive(Indent(depth), [T(TName(n))], [SPACE, S(Assigns), SPACE], Show(e), [NEWLINE]);
    RenderOne(T(TName(n)));
    RenderOne(NEWLINE);
    RenderThree(SPACE, S(Assigns), SPACE);
  }

  lemma {:induction false} IndentText()
    ensures Render(Indent(1)) == "    "
    ensures Render([]) == "" && Indent(0) == []
  {
    RenderOne(Ws(seq(4, _ => ' ')));
    assert Indent(1) == [Ws(seq(4, _ => ' '))];
    assert seq(4, _ => ' ') == "    ";
  }

  // ---------------------------------------------------------------- branches

  lemma {:induction false} ShowsSomething(e: Expr)
    ensures Show(e) != []
  {
  }

  /** A condition and its block, up to what follows the closing brace. */
  lemma {:induction false} ArmText(c: seq<Piece>, body: seq<Piece>, tail: seq<Piece>)
    requires c != []
    ensures Render(Arm(0, c, body, tail)) == Render(c) + (" {\n" + (Render(body) + Render([S(RBrace)] + tail)))
  {
    var open, close := [SPACE, S(LBrace), NEWLINE], [S(RBrace)] + tail;
    assert Indent(0) + close == close;
    RenderFour(c, open, body, close);
    OpenBrace();
  }

  lemma {:induction false} RenderFour(a: seq<Piece>, b: seq<Piece>, c: seq<Piece>, d: seq<Piece>)
    ensures Render(a + (b + (c + d))) == Render(a) + (Render(b) + (Render(c) + Render(d)))
  {
    RenderConcat(a, b + (c + d));
    RenderConcat(b, c + d);
    RenderConcat(c, d);
  }

  lemma {:induction false} OpenBrace()
    ensures Render([SPACE, S(LBrace), NEWLINE]) == " {\n"
  {
    RenderThree(SPACE, S(LBrace), NEWLINE);
  }

  /** The branch's assignments, one to a line. */
  function BodyText(body: seq<Stmt>): string
    requires forall i :: 0 <= i < |body| ==> body[i].Assign?
  {
    if body == [] then "" else AssignLine(body[0].n, body[0].e) + BodyText(body[1..])
  }

  lemma {:induction false} BodyIs(body: seq<Stmt>)
    requires forall i :: 0 <= i < |body| ==> body[i].Assign?
    ensures BlockText(1, body) == BodyText(body)
  {
    if body != [] {
      assert body == [body[0]] + body[1..];
      BlockConcat(1, [body[0]], body[1..]);
      AssignText(body[0].n, body[0].e);
      BodyIs(body[1..]);
    }
  }

  predicate Assigns_(b: Branch) { forall i :: 0 <= i < |b.body| ==> b.body[i].Assign? }

  predicate AllAssign(bs: seq<Branch>) { forall i :: 0 <= i < |bs| ==> Assigns_(bs[i]) }

  function NoteText(b: Branch): string { "# " + b.note + "\n" }

  /** One rule: its comment, the keyword and condition, and its assignments. */
  function BranchText(b: Branch, first: bool): string
    requires Assigns_(b)
  {
    NoteText(b) + ((if first then "if " else "} else if ")
                   + (ExprText(b.predicate_) + (" {\n" + BodyText(b.body))))
  }

  function BranchesText(bs: seq<Branch>, first: bool): string
    requires AllAssign(bs)
  {
    if bs == [] then "" else BranchText(bs[0], first) + BranchesText(bs[1..], false)
  }

  lemma {:induction false} BranchesSnoc(bs: seq<Branch>, b: Branch, first: bool)
    requires AllAssign(bs) && Assigns_(b)
    ensures AllAssign(bs + [b])
    ensures BranchesText(bs + [b], first) == BranchesText(bs, first) + BranchText(b, first && bs == [])
  {
    if bs == [] {
      assert bs + [b] == [b] && [b][1..] == [];
      assert BranchText(b, first) + "" == BranchText(b, first);
    } else {
      assert (bs + [b])[0] == bs[0] && (bs + [b])[1..] == bs[1..] + [b];
      BranchesSnoc(bs[1..], b, false);
      Regrouped(BranchText(bs[0], first), BranchesText(bs[1..], false), BranchText(b, false));
    }
  }

  lemma {:induction false} Regrouped(a: string, b: string, c: string)
    ensures a + (b + c) == a + b + c
  {
  }

  /** From the brace that closes a branch to the end of the chain. */
  function CloseText(bs: seq<Branch>): string { Render([S(RBrace)] + ShowTail(0, Arms(bs))) }

  /** The comment of the next rule stands before the brace. */
  function NextNote(bs: seq<Branch>): string { if bs == [] then "" else NoteText(bs[0]) }

  lemma {:induction false} ArmBodyText(bs: seq<Branch>)
    requires bs != [] && AllAssign(bs)
    ensures BlockText(1, ArmBody(bs)) == BodyText(bs[0].body) + NextNote(bs[1..])
  {
    assert Assigns_(bs[0]);
    BodyIs(bs[0].body);
    if |bs| > 1 {
      BlockConcat(1, bs[0].body, [Note(0, bs[1].note)]);
      NoteLine(1, bs[1].note);
    } else {
      assert ArmBody(bs) == bs[0].body;
    }
  }

  /** A branch after its keyword. */
  function OpenText(bs: seq<Branch>): string
    requires bs != [] && AllAssign(bs)
  {
    ExprText(bs[0].predicate_) + (" {\n" + (BodyText(bs[0].body) + NextNote(bs[1..]) + CloseText(bs[1..])))
  }

  lemma {:induction false} ArmOpens(bs: seq<Branch>)
    requires bs != [] && AllAssign(bs)
    ensures Render(Arm(0, Show(bs[0].predicate_), ShowBlock(1, ArmBody(bs)), ShowTail(0, Arms(bs[1..])))) == OpenText(bs)
  {
    ShowsSomething(bs[0].predicate_);
    ArmText(Show(bs[0].predicate_), ShowBlock(1, ArmBody(bs)), ShowTail(0, Arms(bs[1..])));
    ArmBodyText(bs);
  }

  lemma {:induction false} CloseLast()
    ensures CloseText([]) == "}\n"
  {
    assert [S(RBrace)] + [NEWLINE] == [S(RBrace), NEWLINE];
    RenderTwo(S(RBrace), NEWLINE);
  }

  lemma {:induction false} CloseNext(bs: seq<Branch>)
    requires bs != [] && AllAssign(bs)
    ensures CloseText(bs) == "} else if " + OpenText(bs)
  {
    var arm := Arm(0, Show(bs[0].predicate_), ShowBlock(1, ArmBody(bs)), ShowTail(0, Arms(bs[1..])));
    var words := [SPACE, T(TWord(KElse)), SPACE];
    assert [S(RBrace)] + ShowTail(0, Arms(bs)) == [S(RBrace)] + (words + ([T(TWord(KIf)), SPACE] + arm));
    RenderConcat([S(RBrace)], words + ([T(TWord(KIf)), SPACE] + arm));
    RenderConcat(words, [T(TWord(KIf)), SPACE] + arm);
    RenderConcat([T(TWord(KIf)), SPACE], arm);
    RenderOne(S(RBrace));
    RenderThree(SPACE, T(TWord(KElse)), SPACE);
    RenderTwo(T(TWord(KIf)), SPACE);
    ArmOpens(bs);
    WordsJoin(OpenText(bs));
  }

  lemma {:induction false} WordsJoin(rest: string)
    ensures "}" + (" " + "else" + " " + ("if" + " " + rest)) == "} else if " + rest
  {
  }

  /** The loop's branches and the brace after them are the rest of the chain. */
  lemma {:induction false} BranchesClose(bs: seq<Branch>)
    requires AllAssign(bs)
    ensures BranchesText(bs, false) + "}\n" == NextNote(bs) + CloseText(bs)
  {
    CloseLast();
    if bs != [] {
      CloseNext(bs);
      BranchesClose(bs[1..]);
      assert Assigns_(bs[0]);
      BranchCloses(NoteText(bs[0]), "} else if ", ExprText(bs[0].predicate_), BodyText(bs[0].body),
                   BranchesText(bs[1..], false), NextNote(bs[1..]), CloseText(bs[1..]));
    }
  }

  lemma {:induction false} BranchCloses(note: string, keyword: string, c: string, body: string, more: string,
                                        next: string, close: string)
    requires more + "}\n" == next + close
    ensures note + (keyword + (c + (" {\n" + body))) + more + "}\n" ==
            note + (keyword + (c + (" {\n" + (body + next + close))))
  {
    calc {
      note + (keyword + (c + (" {\n" + body))) + more + "}\n";
      note + (keyword + (c + (" {\n" + (body + (more + "}\n")))));
      note + (keyword + (c + (" {\n" + (body + (next + close)))));
      note + (keyword + (c + (" {\n" + (body + next + close))));
    }
  }

  /** The matching section is what the loop over the branches writes, and a closing brace. */
  lemma {:induction false} MatchingText(bs: seq<Branch>)
    requires AllAssign(bs)
    ensures BlockText(0, Matching(bs)) == if bs == [] then "" else BranchesText(bs, true) + "}\n"
  {
    if bs != [] {
      var s := Matching(bs)[1];
      assert Matching(bs) == [Note(0, bs[0].note)] + [s];
      BlockConcat(0, [Note(0, bs[0].note)], [s]);
      NoteLine(0, bs[0].note);
      IfText(bs, s);
      BranchesClose(bs[1..]);
      assert Assigns_(bs[0]);
      BranchCloses(NoteText(bs[0]), "if ", ExprText(bs[0].predicate_), BodyText(bs[0].body),
                   BranchesText(bs[1..], false), NextNote(bs[1..]), CloseText(bs[1..]));
    }
  }

  lemma {:induction false} IfText(bs: seq<Branch>, s: Stmt)
    requires bs != [] && AllAssign(bs) && s == If(false, bs[0].predicate_, ArmBody(bs), Arms(bs[1..]))
    ensures BlockText(0, [s]) == "if " + OpenText(bs)
  {
    var arm := Arm(0, Show(bs[0].predicate_), ShowBlock(1, ArmBody(bs)), ShowTail(0, Arms(bs[1..])));
    BlockOne(0, s);
    assert ShowStmt(0, s) == [T(TWord(KIf)), SPACE] + arm;
    RenderConcat([T(TWord(KIf)), SPACE], arm);
    RenderTwo(T(TWord(KIf)), SPACE);
    ArmOpens(bs);
    assert "if" + " " == "if ";
  }

  // ---------------------------------------------------------------- the whole text

  lemma {:induction false} ShadowLine(m: bool)
    ensures BlockText(0, [Assign(ShadowChain, LitBool(m))]) == "shadow_chain = " + (if m then "true" else "false") + "\n"
  {
    OuterLine(ShadowChain, LitBool(m));
    RenderOne(T(BoolWord(m)));
  }

  /** An assignment at the left margin. */
  lemma {:induction false} OuterLine(n: Name, e: Expr)
    ensures BlockText(0, [Assign(n, e)]) == NameText(n) + " = " + ExprText(e) + "\n"
  {
    AssignAt(0, n, e);
    IndentText();
    assert "" + NameText(n) == NameText(n);
  }

  /** The text of the parts one after the other, a blank line between them. */
  lemma {:induction false} PartsText(p: seq<Stmt>, m: seq<Stmt>, e: seq<Stmt>, s: seq<Stmt>, r: seq<Stmt>)
    ensures BlockText(0, p + [Blank] + m + [Blank] + e + [Blank] + s + [Blank] + r) ==
            BlockText(0, p) + "\n" + BlockText(0, m) + "\n" + BlockText(0, e) + "\n" + BlockText(0, s) + "\n"
            + BlockText(0, r)
  {
    BetweenText(p, m);
    BetweenText(p + [Blank] + m, e);
    BetweenText(p + [Blank] + m + [Blank] + e, s);
    BetweenText(p + [Blank] + m + [Blank] + e + [Blank] + s, r);
  }

  lemma {:induction false} BetweenText(a: seq<Stmt>, b: seq<Stmt>)
    ensures BlockText(0, a + [Blank] + b) == BlockText(0, a) + "\n" + BlockText(0, b)
  {
    BlockConcat(0, a + [Blank], b);
    BlockConcat(0, a, [Blank]);
    BlankLine(0);
  }

  lemma {:induction false} EnforcementText(a: Action, m: bool)
    ensures BlockText(0, Enforcement(a, m)) ==
            "shadow_chain = " + (if m then "true" else "false") + "\n" + "\n" + BlockText(0, [DecideStep(a)])
  {
    assert Enforcement(a, m) == [Assign(ShadowChain, LitBool(m))] + [Blank] + [DecideStep(a)];
    BetweenText([Assign(ShadowChain, LitBool(m))], [DecideStep(a)]);
    ShadowLine(m);
  }

  lemma {:induction false} BranchAssigns(r: Rule)
    requires CompileRule(r).Ok?
    ensures Assigns_(CompileRule(r).value)
  {
  }

  /** The compiler: the prelude, one branch per active rule in evaluation order, the closing brace when
      there was one, and the fixed sections, line after line. A refused rule or version ends it. */
  method EmitChain(chain: Chain, version: int) returns (r: Result<string>)
    ensures r == CompileText(chain, version)
  {
    var active := Active(chain);
    var out := BlockText(0, Prelude(true)) + "\n";
    ghost var head, branches := out, [];
    for i := 0 to |active|
      invariant CompileRules(active[..i]) == Ok(branches) && AllAssign(branches) && |branches| == i
      invariant out == head + BranchesText(branches, true)
    {
      var b := CompileRule(active[i]);
      CompileRulesSnoc(active[..i], active[i]);
      TakeSnoc(active, i);
      if b.Refused? {
        RefusedPrefix(active[..i + 1], active[i + 1..], b.error);
        return Refused(b.error);
      }
      BranchAssigns(active[i]);
      BranchesSnoc(branches, b.value, true);
      Regrouped(head, BranchesText(branches, true), BranchText(b.value, i == 0));
      out := out + BranchText(b.value, i == 0);
      branches := branches + [b.value];
    }
    assert active[..|active|] == active;
    var v := EncodeNumber(Decimals.EncodeInt(version));
    if v.Refused? { return Refused(v.error); }
    if active != [] { out := out + "}\n"; }
    out := out + "\n";
    out := out + "shadow_chain = " + (if chain.shadowMode then "true" else "false") + "\n" + "\n";
    out := out + BlockText(0, [DecideStep(chain.defaultAction)]) + "\n";
    out := out + BlockText(0, Summaries()) + "\n";
    out := out + BlockText(0, [AssignDot(Ss, Object(RecordEntries(v.value)))]);
    WrittenOut(branches, chain, v.value, out);
    r := Ok(out);
  }

  lemma {:induction false} WrittenOut(bs: seq<Branch>, chain: Chain, version: Expr, out: string)
    requires AllAssign(bs)
    requires out == BlockText(0, Prelude(true)) + "\n" + BranchesText(bs, true) + (if bs != [] then "}\n" else "") + "\n"
                    + "shadow_chain = " + (if chain.shadowMode then "true" else "false") + "\n" + "\n"
                    + BlockText(0, [DecideStep(chain.defaultAction)]) + "\n" + BlockText(0, Summaries()) + "\n"
                    + BlockText(0, [AssignDot(Ss, Object(RecordEntries(version)))])
    ensures out == Text(Program(true, bs, chain, version))
  {
    var m, e := BlockText(0, Matching(bs)), BlockText(0, Enforcement(chain.defaultAction, chain.shadowMode));
    MatchingOut(bs);
    EnforcementText(chain.defaultAction, chain.shadowMode);
    PartsText(Prelude(true), Matching(bs), Enforcement(chain.defaultAction, chain.shadowMode), Summaries(),
              [AssignDot(Ss, Object(RecordEntries(version)))]);
    Assembled(BlockText(0, Prelude(true)) + "\n", BranchesText(bs, true), if bs != [] then "}\n" else "",
              if chain.shadowMode then "true" else "false", BlockText(0, [DecideStep(chain.defaultAction)]), m, e,
              BlockText(0, Summaries()), BlockText(0, [AssignDot(Ss, Object(RecordEntries(version)))]));
  }

  lemma {:induction false} MatchingOut(bs: seq<Branch>)
    requires AllAssign(bs)
    ensures BlockText(0, Matching(bs)) == BranchesText(bs, true) + if bs != [] then "}\n" else ""
  {
    MatchingText(bs);
    if bs == [] { assert BranchesText(bs, true) + "" == ""; }
  }

  lemma {:induction false} Assembled(head: string, branches: string, close: string, flag: string, decide: string,
                                     m: string, e: string, s: string, r: string)
    requires m == branches + close && e == "shadow_chain = " + flag + "\n" + "\n" + decide
    ensures head + branches + close + "\n" + "shadow_chain = " + flag + "\n" + "\n" + decide + "\n" + s + "\n" + r ==
            head + m + "\n" + e + "\n" + s + "\n" + r
  {
    LinesRegrouped(head, branches, close, "shadow_chain = ", flag, decide);
  }

  lemma {:induction false} LinesRegrouped(head: string, branches: string, close: string, word: string, flag: string,
                                          decide: string)
    ensures head + branches + close + "\n" + word + flag + "\n" + "\n" + decide ==
            head + (branches + close) + "\n" + (word + flag + "\n" + "\n" + decide)
  {
    Regrouped(head, branches, close);
    Regrouped(head + (branches + close) + "\n", word, flag);
    Regrouped(head + (branches + close) + "\n", word + flag, "\n");
    Regrouped(head + (branches + close) + "\n", word + flag + "\n", "\n");
    Regrouped(head + (branches + close) + "\n", word + flag + "\n" + "\n", decide);
  }
}
