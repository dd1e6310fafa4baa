/** Reading only as many tokens as an expression has: what comes after it, delimiter first, may be any
    text at all, even text that is not VRL. */
module Streaming {
  import opened Common
  import opened Vrl
  import opened Lexer
  import opened Syntax
  import opened Programs
  import opened Rules
  import opened Compiler
  import Emission

  /** The next `n` tokens and the text right after the last of them. */
  function ReadSome(s: string, n: nat): Option<(seq<Tok>, string)>
    decreases |s|
  {
    if n == 0 then Some(([], s))
    else if s == "" then None
    else if IsSpace(s[0]) then ReadSome(s[1..], n)
    else if s[0] == '#' then ReadSome(s[IndexOf(s, '\n')..], n)
    else
      var t := ReadTok(s);
      if t.None? then None
      else
        var more := ReadSome(t.value.1, n - 1);
        if more.None? then None else Some(([t.value.0] + more.value.0, more.value.1))
  }

  /** Nothing, a closing bracket, a comma or a blank, and then anything. */
  predicate Delimited(suffix: string) { suffix == "" || suffix[0] in ")]}, \n" }

  lemma {:induction false} SpacesRead(w: string, rest: string, n: nat)
    requires n > 0 && forall i :: 0 <= i < |w| ==> IsSpace(w[i])
    ensures ReadSome(w + rest, n) == ReadSome(rest, n)
  {
    if w == "" {
      assert w + rest == rest;
    } else {
      assert (w + rest)[0] == w[0] && (w + rest)[1..] == w[1..] + rest;
      SpacesRead(w[1..], rest, n);
    }
  }

  lemma {:induction false} CommentRead(text: string, rest: string, n: nat)
    requires n > 0 && '\n' !in text
    ensures ReadSome("# " + text + "\n" + rest, n) == ReadSome(rest, n)
  {
    var body, tail := "# " + text, "\n" + rest;
    var s := body + tail;
    assert s == "# " + text + "\n" + rest;
    assert '\n' !in body by { assert forall i :: 0 <= i < |body| ==> body[i] == if i < 2 then "# "[i] else text[i - 2]; }
    IndexOfStops(body, '\n', tail);
    assert s[0] == '#' && s[|body|..] == tail && tail[1..] == rest;
  }

  lemma {:induction false} TokenRead(t: Tok, rest: string, n: nat)
    requires n > 0 && Spellable(t) && Ends(t, rest) && ReadSome(rest, n - 1).Some?
    ensures var more := ReadSome(rest, n - 1).value;
            ReadSome(Spell(t) + rest, n) == Some(([t] + more.0, more.1))
  {
    TokRead(t, rest);
    SpellStart(t);
    assert (Spell(t) + rest)[0] == Spell(t)[0];
  }

  lemma {:induction false} EndsLonger(t: Tok, a: string, b: string)
    requires Ends(t, a) && (a != "" || Delimited(b))
    ensures Ends(t, a + b)
  {
    if a == "" {
      assert a + b == b;
    } else {
      assert (a + b)[0] == a[0];
    }
  }

  /** Pieces that end in a token, with any delimited text behind them: their tokens are read and the
      reader stops exactly at that text. */
  lemma {:induction false} PiecesRead(ps: seq<Piece>, suffix: string)
    requires WellSpaced(ps) && (ps != [] ==> ps[|ps| - 1].T?) && Delimited(suffix)
    ensures ReadSome(Render(ps) + suffix, |Toks(ps)|) == Some((Toks(ps), suffix))
    ensures ps != [] ==> |Toks(ps)| > 0
    decreases |ps|
  {
    if ps == [] {
      assert Render(ps) + suffix == suffix;
    } else {
      assert ps == [ps[0]] + ps[1..];
      RestSpaced(ps);
      PiecesRead(ps[1..], suffix);
      PieceRead(ps[0], ps[1..], suffix);
      TextRegrouped(PieceText(ps[0]), Render(ps[1..]), suffix);
    }
  }

  lemma {:induction false} TextRegrouped(a: string, b: string, c: string)
    ensures (a + b) + c == a + (b + c)
  {
  }

  lemma {:induction false} RestSpaced(ps: seq<Piece>)
    requires WellSpaced(ps) && ps != []
    ensures WellSpaced(ps[1..]) && PieceOk(ps[0]) && (|ps| > 1 ==> MayTouch(ps[0], ps[1..][0]))
  {
    var rest := ps[1..];
    assert forall i :: 0 <= i < |rest| ==> rest[i] == ps[i + 1];
    if rest != [] { assert MayTouch(ps[0], ps[0 + 1]); }
  }

  /** One piece in front of pieces that read back. */
  lemma {:induction false} PieceRead(p: Piece, rest: seq<Piece>, suffix: string)
    requires PieceOk(p) && WellSpaced(rest) && (rest != [] ==> MayTouch(p, rest[0])) && Delimited(suffix)
    requires ReadSome(Render(rest) + suffix, |Toks(rest)|) == Some((Toks(rest), suffix))
    requires !p.T? ==> |Toks(rest)| > 0
    ensures ReadSome(PieceText(p) + (Render(rest) + suffix), |Toks([p] + rest)|) == Some((Toks([p] + rest), suffix))
  {
    var tail := Render(rest) + suffix;
    assert ([p] + rest)[1..] == rest;
    match p {
      case Ws(w) => SpacesRead(w, tail, |Toks(rest)|);
      case Cm(text) => CommentRead(text, tail, |Toks(rest)|);
      case T(t) =>
        TouchEnds(p, rest);
        if rest != [] { RenderedSomething(rest); }
        EndsLonger(t, Render(rest), suffix);
        TokenRead(t, tail, 1 + |Toks(rest)|);
    }
  }

  lemma {:induction false} RenderedSomething(ps: seq<Piece>)
    requires WellSpaced(ps) && ps != []
    ensures Render(ps) != ""
  {
    assert PieceOk(ps[0]);
    if ps[0].T? { SpellStart(ps[0].t); }
  }

  /** The text of a compiled predicate before any delimited text whatever: exactly its tokens are read,
      the reader stops where the text begins, and before any tokens that the loosest operator does not
      continue with they parse to exactly the compiled tree. */
  lemma {:induction false} PredicateRead(conditions: seq<Condition>, suffix: string)
    requires CompilePredicate(conditions).Ok? && Delimited(suffix)
    ensures var e := CompilePredicate(conditions).value;
            && ReadSome(Render(Show(e)) + suffix, |TE(e)|) == Some((TE(e), suffix))
            && forall more :: Stops(0, more) ==> ParseE(0, TE(e) + more) == Some((e, more))
  {
    var e := CompilePredicate(conditions).value;
    Emission.PredicateWritten(conditions);
    ExprTidy(e);
    PiecesRead(Show(e), suffix);
    ShowToks(e);
    forall more | Stops(0, more) ensures ParseE(0, TE(e) + more) == Some((e, more)) { ExprRead(0, e, more); }
  }
}
