/**
 Tokens of the VRL subset, their spelling, a lexer, and the proof that rendering any well-spaced
 sequence of tokens, blanks and comments and lexing it again restores exactly the tokens.
 */
module Lexer {
  import opened Common
  import opened Vrl
  import Decimals
  import Encoder

  datatype Word = KIf | KElse | KTrue | KFalse | KNull | KCaseSensitive | KMapKeys | KKey

  datatype Sym =
    | LParen | RParen | LBracket | RBracket | LBrace | RBrace
    | Comma | Colon | Bang | Bar
    | Assigns | Arrow | BinOp(op: Op)

  datatype Tok =
    | TWord(w: Word)
    | TName(n: Name)
    | TFunc(f: Func)
    | TRoot(root: Root)
    | TNum(lexeme: string)
    | TStr(s: string)
    | TRegex(text: string)
    | TSym(sym: Sym)

  // ---------------------------------------------------------------- spelling

  function WordText(w: Word): string {
    match w
    case KIf => "if"
    case KElse => "else"
    case KTrue => "true"
    case KFalse => "false"
    case KNull => "null"
    case KCaseSensitive => "case_sensitive"
    case KMapKeys => "map_keys"
    case KKey => "k"
  }

  function NameText(n: Name): string {
    match n
    case Raw => "raw"
    case Ev => "ev"
    case ParseOk => "parse_ok"
    case SyslogOk => "syslog_ok"
    case CefOk => "cef_ok"
    case Body => "body"
    case Decision => "decision"
    case Reason => "reason"
    case Parsed => "parsed"
    case Perr => "perr"
    case Cef => "cef"
    case Cerr => "cerr"
    case Marker => "marker"
    case MatchedId => "matched_id"
    case MatchedVersion => "matched_version"
    case MatchedAction => "matched_action"
    case MatchedShadow => "matched_shadow"
    case MatchedRetain => "matched_retain"
    case ShadowChain => "shadow_chain"
    case SsEventId => "ss_event_id"
    case SsSeverity => "ss_severity"
    case SsHost => "ss_host"
    case SsName => "ss_name"
  }

  function FuncText(f: Func): string {
    match f
    case ToString => "to_string"
    case Get => "get"
    case ToFloat => "to_float"
    case Downcase => "downcase"
    case Includes => "includes"
    case Contains_ => "contains"
    case StartsWith_ => "starts_with"
    case EndsWith_ => "ends_with"
    case Match => "match"
    case IpCidrContains => "ip_cidr_contains"
    case ParseSyslog => "parse_syslog"
    case ParseCef => "parse_cef"
    case Find => "find"
    case Slice => "slice"
    case Set => "set"
    case Now => "now"
  }

  function SymText(sym: Sym): string {
    match sym
    case LParen => "("
    case RParen => ")"
    case LBracket => "["
    case RBracket => "]"
    case LBrace => "{"
    case RBrace => "}"
    case Comma => ","
    case Colon => ":"
    case Bang => "!"
    case Bar => "|"
    case Assigns => "="
    case Arrow => "->"
    case BinOp(op) =>
      match op
      case Coalesce => "??"
      case Or => "||"
      case And => "&&"
      case EqEq => "=="
      case NotEq => "!="
      case Lt => "<"
      case Le => "<="
      case Gt => ">"
      case Ge => ">="
  }

  function Spell(t: Tok): string {
    match t
    case TWord(w) => WordText(w)
    case TName(n) => NameText(n)
    case TFunc(f) => FuncText(f)
    case TRoot(root) => "." + RootText(root)
    case TNum(lexeme) => lexeme
    case TStr(s) => Encoder.Quote(s)
    case TRegex(text) => "r'" + text + "'"
    case TSym(sym) => SymText(sym)
  }

  // ---------------------------------------------------------------- lexing

  predicate IsWordChar(c: char) {
    'a' <= c <= 'z' || 'A' <= c <= 'Z' || '0' <= c <= '9' || c == '_'
  }

  predicate IsSpace(c: char) { c == ' ' || c == '\n' }

  function WordLen(s: string): (n: nat)
    ensures n <= |s|
  {
    if s == "" || !IsWordChar(s[0]) then 0 else 1 + WordLen(s[1..])
  }

  predicate IsNumChar(c: char) { Decimals.IsDigit(c) || c == '.' }

  function NumLen(s: string): (n: nat)
    ensures n <= |s|
  {
    if s == "" || !IsNumChar(s[0]) then 0 else 1 + NumLen(s[1..])
  }

  function ReadKeyword(s: string): Option<Tok> {
    if s == "if" then Some(TWord(KIf))
    else if s == "else" then Some(TWord(KElse))
    else if s == "true" then Some(TWord(KTrue))
    else if s == "false" then Some(TWord(KFalse))
    else if s == "null" then Some(TWord(KNull))
    else if s == "case_sensitive" then Some(TWord(KCaseSensitive))
    else if s == "map_keys" then Some(TWord(KMapKeys))
    else if s == "k" then Some(TWord(KKey))
    else None
  }

  function ReadName(s: string): Option<Tok> {
    if s == "raw" then Some(TName(Raw))
    else if s == "ev" then Some(TName(Ev))
    else if s == "parse_ok" then Some(TName(ParseOk))
    else if s == "syslog_ok" then Some(TName(SyslogOk))
    else if s == "cef_ok" then Some(TName(CefOk))
    else if s == "body" then Some(TName(Body))
    else if s == "decision" then Some(TName(Decision))
    else if s == "reason" then Some(TName(Reason))
    else if s == "parsed" then Some(TName(Parsed))
    else if s == "perr" then Some(TName(Perr))
    else if s == "cef" then Some(TName(Cef))
    else if s == "cerr" then Some(TName(Cerr))
    else if s == "marker" then Some(TName(Marker))
    else ReadLongName(s)
  }

  function ReadLongName(s: string): Option<Tok> {
    if s == "matched_id" then Some(TName(MatchedId))
    else if s == "matched_version" then Some(TName(MatchedVersion))
    else if s == "matched_action" then Some(TName(MatchedAction))
    else if s == "matched_shadow" then Some(TName(MatchedShadow))
    else if s == "matched_retain" then Some(TName(MatchedRetain))
    else if s == "shadow_chain" then Some(TName(ShadowChain))
    else if s == "ss_event_id" then Some(TName(SsEventId))
    else if s == "ss_severity" then Some(TName(SsSeverity))
    else if s == "ss_host" then Some(TName(SsHost))
    else if s == "ss_name" then Some(TName(SsName))
    else None
  }

  function ReadFunc(s: string): Option<Tok> {
    if s == "to_string" then Some(TFunc(ToString))
    else if s == "get" then Some(TFunc(Get))
    else if s == "to_float" then Some(TFunc(ToFloat))
    else if s == "downcase" then Some(TFunc(Downcase))
    else if s == "includes" then Some(TFunc(Includes))
    else if s == "contains" then Some(TFunc(Contains_))
    else if s == "starts_with" then Some(TFunc(StartsWith_))
    else if s == "ends_with" then Some(TFunc(EndsWith_))
    else if s == "match" then Some(TFunc(Match))
    else if s == "ip_cidr_contains" then Some(TFunc(IpCidrContains))
    else if s == "parse_syslog" then Some(TFunc(ParseSyslog))
    else if s == "parse_cef" then Some(TFunc(ParseCef))
    else if s == "find" then Some(TFunc(Find))
    else if s == "slice" then Some(TFunc(Slice))
    else if s == "set" then Some(TFunc(Set))
    else if s == "now" then Some(TFunc(Now))
    else None
  }

  function ReadWord(s: string): Option<Tok> {
    if ReadKeyword(s).Some? then ReadKeyword(s)
    else if ReadFunc(s).Some? then ReadFunc(s)
    else ReadName(s)
  }

  function ReadRoot(s: string): Option<Tok> {
    if s == "message" then Some(TRoot(Message)) else if s == "ss" then Some(TRoot(Ss)) else None
  }

  /** The longest symbol at the start of `s`. */
  function ReadSym(s: string): (r: Option<(Sym, nat)>)
    requires s != ""
    ensures r.Some? ==> 0 < r.value.1 <= |s|
  {
    var next := if |s| > 1 then s[1] else ' ';
    match s[0]
    case '(' => Some((LParen, 1))
    case ')' => Some((RParen, 1))
    case '[' => Some((LBracket, 1))
    case ']' => Some((RBracket, 1))
    case '{' => Some((LBrace, 1))
    case '}' => Some((RBrace, 1))
    case ',' => Some((Comma, 1))
    case ':' => Some((Colon, 1))
    case '!' => if next == '=' then Some((BinOp(NotEq), 2)) else Some((Bang, 1))
    case '|' => if next == '|' then Some((BinOp(Or), 2)) else Some((Bar, 1))
    case '=' => if next == '=' then Some((BinOp(EqEq), 2)) else Some((Assigns, 1))
    case '-' => if next == '>' then Some((Arrow, 2)) else None
    case '?' => if next == '?' then Some((BinOp(Coalesce), 2)) else None
    case '&' => if next == '&' then Some((BinOp(And), 2)) else None
    case '<' => if next == '=' then Some((BinOp(Le), 2)) else Some((BinOp(Lt), 1))
    case '>' => if next == '=' then Some((BinOp(Ge), 2)) else Some((BinOp(Gt), 1))
    case _ => None
  }

  /** Index of the first `c`, or the length. */
  function IndexOf(s: string, c: char): (n: nat)
    ensures n <= |s|
  {
    if s == "" || s[0] == c then 0 else 1 + IndexOf(s[1..], c)
  }

  function With(t: Option<Tok>, rest: string): Option<(Tok, string)> {
    if t.None? then None else Some((t.value, rest))
  }

  /** The token at the start of `s` and the text after it. */
  function ReadTok(s: string): (r: Option<(Tok, string)>)
    requires s != ""
    ensures r.Some? ==> |r.value.1| < |s|
  {
    if s[0] == '"' then
      var q := Encoder.Unquote(s[1..]);
      if q.None? then None else Some((TStr(q.value.0), q.value.1))
    else if s[0] == 'r' && |s| > 1 && s[1] == '\'' then
      var n := IndexOf(s[2..], '\'');
      if n == |s| - 2 then None else Some((TRegex(s[2..][..n]), s[2..][n + 1..]))
    else if Decimals.IsDigit(s[0]) then
      Some((TNum(s[..NumLen(s)]), s[NumLen(s)..]))
    else if s[0] == '-' && |s| > 1 && Decimals.IsDigit(s[1]) then
      Some((TNum(s[..1 + NumLen(s[1..])]), s[1 + NumLen(s[1..])..]))
    else if IsWordChar(s[0]) then
      With(ReadWord(s[..WordLen(s)]), s[WordLen(s)..])
    else if s[0] == '.' then
      With(ReadRoot(s[1..][..WordLen(s[1..])]), s[1..][WordLen(s[1..])..])
    else
      var sym := ReadSym(s);
      if sym.None? then None else Some((TSym(sym.value.0), s[sym.value.1..]))
  }

  /** Blanks and comments separate tokens and are dropped; a comment ends at its newline. */
  function Lex(s: string): Option<seq<Tok>>
    decreases |s|
  {
    if s == "" then Some([])
    else if IsSpace(s[0]) then Lex(s[1..])
    else if s[0] == '#' then Lex(s[IndexOf(s, '\n')..])
    else
      var t := ReadTok(s);
      if t.None? then None
      else
        var rest := Lex(t.value.1);
        if rest.None? then None else Some([t.value.0] + rest.value)
  }

  // ---------------------------------------------------------------- every spelling is read back

  lemma {:induction false} KeywordRead(w: Word)
    ensures ReadWord(WordText(w)) == Some(TWord(w))
  {
    var s := WordText(w);
    assert s[0] == s[0];
    if |s| > 1 { assert s[1] == s[1]; }
  }

  lemma {:induction false} FuncRead(f: Func)
    ensures ReadWord(FuncText(f)) == Some(TFunc(f))
  {
    var s := FuncText(f);
    assert s[0] == s[0] && s[1] == s[1] && s[2] == s[2];
  }

  lemma {:induction false} NameIsNotKeyword(n: Name)
    ensures ReadKeyword(NameText(n)) == None && ReadFunc(NameText(n)) == None
  {
    var s := NameText(n);
    assert s[0] == s[0] && s[1] == s[1];
    if |s| > 2 { assert s[2] == s[2]; }
  }

  lemma {:induction false} NameRead(n: Name)
    ensures ReadWord(NameText(n)) == Some(TName(n))
  {
    NameIsNotKeyword(n);
    var s := NameText(n);
    assert s[0] == s[0] && s[1] == s[1];
    if |s| > 4 { assert s[3] == s[3] && s[4] == s[4]; }
    if |s| > 8 { assert s[8] == s[8]; }
  }

  predicate WordChars(s: string) {
    s != "" && !Decimals.IsDigit(s[0]) && forall i :: 0 <= i < |s| ==> IsWordChar(s[i])
  }

  lemma {:induction false} KeywordChars(w: Word)
    ensures WordChars(WordText(w))
  {
  }

  lemma {:induction false} FuncChars(f: Func)
    ensures WordChars(FuncText(f))
  {
  }

  predicate IsLong(n: Name) {
    n.MatchedId? || n.MatchedVersion? || n.MatchedAction? || n.MatchedShadow? || n.MatchedRetain? ||
    n.ShadowChain? || n.SsEventId? || n.SsSeverity? || n.SsHost? || n.SsName?
  }

  lemma {:induction false} ShortNameChars(n: Name)
    requires !IsLong(n)
    ensures WordChars(NameText(n))
  {
  }

  lemma {:induction false} LongNameChars(n: Name)
    requires IsLong(n)
    ensures WordChars(NameText(n))
  {
  }

  lemma {:induction false} NameChars(n: Name)
    ensures WordChars(NameText(n))
  {
    if IsLong(n) { LongNameChars(n); } else { ShortNameChars(n); }
  }

  lemma {:induction false} WordLenStops(s: string, rest: string)
    requires forall i :: 0 <= i < |s| ==> IsWordChar(s[i])
    requires rest == "" || !IsWordChar(rest[0])
    ensures WordLen(s + rest) == |s|
  {
    if s == "" {
      assert s + rest == rest;
    } else {
      assert (s + rest)[0] == s[0] && (s + rest)[1..] == s[1..] + rest;
      WordLenStops(s[1..], rest);
    }
  }

  lemma {:induction false} NumLenStops(s: string, rest: string)
    requires forall i :: 0 <= i < |s| ==> IsNumChar(s[i])
    requires rest == "" || !IsNumChar(rest[0])
    ensures NumLen(s + rest) == |s|
  {
    if s == "" {
      assert s + rest == rest;
    } else {
      assert (s + rest)[0] == s[0] && (s + rest)[1..] == s[1..] + rest;
      NumLenStops(s[1..], rest);
    }
  }

  lemma {:induction false} IndexOfStops(s: string, c: char, rest: string)
    requires c !in s && rest != "" && rest[0] == c
    ensures IndexOf(s + rest, c) == |s|
  {
    if s == "" {
      assert s + rest == rest;
    } else {
      assert (s + rest)[0] == s[0] && (s + rest)[1..] == s[1..] + rest;
      IndexOfStops(s[1..], c, rest);
    }
  }

  /** Numerals and regex literals carry their text; the text must be spellable. */
  predicate Spellable(t: Tok) {
    match t
    case TNum(lexeme) => Decimals.IsNumeral(lexeme)
    case TRegex(text) => '\'' !in text
    case _ => true
  }

  predicate IsWordLike(t: Tok) { t.TWord? || t.TName? || t.TFunc? || t.TRoot? }

  /** What may follow a token's text without being taken for part of it. */
  predicate Ends(t: Tok, rest: string) {
    rest == "" ||
    if IsWordLike(t) then !IsWordChar(rest[0]) && rest[0] != '\''
    else if t.TNum? then !IsNumChar(rest[0])
    else if t == TSym(Bar) then rest[0] != '|'
    else if t in {TSym(Bang), TSym(Assigns), TSym(BinOp(Lt)), TSym(BinOp(Gt))} then rest[0] != '='
    else true
  }

  lemma {:induction false} WordRead(t: Tok, rest: string)
    requires t.TWord? || t.TName? || t.TFunc?
    requires Ends(t, rest)
    ensures ReadTok(Spell(t) + rest) == Some((t, rest))
  {
    var w := Spell(t);
    var s := w + rest;
    match t {
      case TWord(k) => KeywordRead(k); KeywordChars(k);
      case TFunc(f) => FuncRead(f); FuncChars(f);
      case TName(n) => NameRead(n); NameChars(n);
    }
    WordTextRead(w, t, rest);
  }

  lemma {:induction false} WordTextRead(w: string, t: Tok, rest: string)
    requires WordChars(w) && ReadWord(w) == Some(t)
    requires rest == "" || (!IsWordChar(rest[0]) && rest[0] != '\'')
    ensures ReadTok(w + rest) == Some((t, rest))
  {
    var s := w + rest;
    WordLenStops(w, rest);
    assert s[0] == w[0] && s[..|w|] == w && s[|w|..] == rest;
    if |w| > 1 { assert s[1] == w[1]; }
  }

  lemma {:induction false} RootRead(root: Root, rest: string)
    requires Ends(TRoot(root), rest)
    ensures ReadTok(Spell(TRoot(root)) + rest) == Some((TRoot(root), rest))
  {
    var w := RootText(root);
    var s := "." + w + rest;
    assert s[0] == '.' && s[1..] == w + rest;
    WordLenStops(w, rest);
    assert (w + rest)[..|w|] == w && (w + rest)[|w|..] == rest;
    assert w[0] == w[0];
  }

  lemma {:induction false} NumeralChars(u: string)
    requires Decimals.IsNumeral(u) && Decimals.Unsigned(u) == u
    ensures u != "" && Decimals.IsDigit(u[0]) && forall i :: 0 <= i < |u| ==> IsNumChar(u[i])
  {
    var p := Decimals.PointAt(u);
    Decimals.FirstPoint(u);
    assert u[0] == u[..p][0];
    forall i | 0 <= i < |u|
      ensures IsNumChar(u[i])
    {
      if i < p { assert u[i] == u[..p][i]; }
      else if i > p { assert u[i] == u[p + 1..][i - p - 1]; }
    }
  }

  lemma {:induction false} NumberRead(lexeme: string, rest: string)
    requires Decimals.IsNumeral(lexeme) && Ends(TNum(lexeme), rest)
    ensures ReadTok(lexeme + rest) == Some((TNum(lexeme), rest))
  {
    var s := lexeme + rest;
    if Decimals.Unsigned(lexeme) == lexeme {
      NumeralChars(lexeme);
      NumLenStops(lexeme, rest);
      assert s[0] == lexeme[0] && s[..|lexeme|] == lexeme && s[|lexeme|..] == rest;
    } else {
      var u := lexeme[1..];
      assert u[0] != '-' by { assert u[0] == u[..Decimals.PointAt(u)][0]; }
      NumeralChars(u);
      NumLenStops(u, rest);
      assert s[0] == '-' && s[1..] == u + rest && s[1] == u[0];
      assert s[..|lexeme|] == lexeme && s[|lexeme|..] == rest;
    }
  }

  lemma {:induction false} StringRead(v: string, rest: string)
    ensures ReadTok(Spell(TStr(v)) + rest) == Some((TStr(v), rest))
  {
    var s := Encoder.Quote(v) + rest;
    Encoder.QuotedRead(v, rest);
    assert s[0] == '"' && s[1..] == Encoder.Escape(v) + ("\"" + rest);
  }

  lemma {:induction false} RegexRead(text: string, rest: string)
    requires '\'' !in text
    ensures ReadTok(Spell(TRegex(text)) + rest) == Some((TRegex(text), rest))
  {
    var tail := "'" + rest;
    var s := Spell(TRegex(text)) + rest;
    IndexOfStops(text, '\'', tail);
    assert s[0] == 'r' && s[1] == '\'' && s[2..] == text + tail;
    assert (text + tail)[..|text|] == text && (text + tail)[|text| + 1..] == rest;
  }

  lemma {:induction false} SymRead(sym: Sym, rest: string)
    requires Ends(TSym(sym), rest)
    ensures ReadTok(SymText(sym) + rest) == Some((TSym(sym), rest))
  {
    var s := SymText(sym) + rest;
    assert s[0] == SymText(sym)[0];
    if |SymText(sym)| == 2 {
      assert s[1] == SymText(sym)[1] && s[2..] == rest;
    } else {
      assert s[1..] == rest;
      if rest != "" { assert s[1] == rest[0]; }
    }
  }

  lemma {:induction false} TokRead(t: Tok, rest: string)
    requires Spellable(t) && Ends(t, rest)
    ensures ReadTok(Spell(t) + rest) == Some((t, rest))
  {
    match t
    case TWord(_) => WordRead(t, rest);
    case TName(_) => WordRead(t, rest);
    case TFunc(_) => WordRead(t, rest);
    case TRoot(root) => RootRead(root, rest);
    case TNum(lexeme) => NumberRead(lexeme, rest);
    case TStr(v) => StringRead(v, rest);
    case TRegex(text) => RegexRead(text, rest);
    case TSym(sym) => SymRead(sym, rest);
  }

  // ---------------------------------------------------------------- rendering

  datatype Piece = T(t: Tok) | Ws(s: string) | Cm(text: string)

  function PieceText(p: Piece): string {
    match p
    case T(t) => Spell(t)
    case Ws(s) => s
    case Cm(text) => "# " + text + "\n"
  }

  function Render(ps: seq<Piece>): string {
    if ps == [] then "" else PieceText(ps[0]) + Render(ps[1..])
  }

  function Toks(ps: seq<Piece>): seq<Tok> {
    if ps == [] then []
    else if ps[0].T? then [ps[0].t] + Toks(ps[1..])
    else Toks(ps[1..])
  }

  predicate PieceOk(p: Piece) {
    match p
    case T(t) => Spellable(t)
    case Ws(s) => s != "" && forall i :: 0 <= i < |s| ==> IsSpace(s[i])
    case Cm(text) => '\n' !in text
  }

  /** Which pieces may touch: words need a symbol after them, operators a blank. */
  predicate MayTouch(p: Piece, q: Piece) {
    if !p.T? || !q.T? then true
    else if IsWordLike(p.t) || p.t.TNum? then q.t.TSym?
    else if !p.t.TSym? then true
    else if p.t.sym.Bang? then q.t !in {TSym(Assigns), TSym(BinOp(EqEq))}
    else if p.t.sym.Bar? then q.t !in {TSym(Bar), TSym(BinOp(Or))}
    else !(p.t.sym.Assigns? || p.t.sym.Arrow? || p.t.sym.BinOp?)
  }

  ghost predicate WellSpaced(ps: seq<Piece>) {
    && (forall i :: 0 <= i < |ps| ==> PieceOk(ps[i]))
    && (forall i {:trigger ps[i]} :: 0 <= i < |ps| - 1 ==> MayTouch(ps[i], ps[i + 1]))
  }

  lemma {:induction false} SpellStart(t: Tok)
    requires Spellable(t)
    ensures var s := Spell(t);
            && s != "" && !IsSpace(s[0]) && s[0] != '#'
            && (t.TSym? ==> !IsWordChar(s[0]) && s[0] != '\'' && !IsNumChar(s[0]))
            && (t !in {TSym(Assigns), TSym(BinOp(EqEq))} ==> s[0] != '=')
            && (t !in {TSym(Bar), TSym(BinOp(Or))} ==> s[0] != '|')
  {
    match t {
      case TWord(k) => KeywordChars(k);
      case TFunc(f) => FuncChars(f);
      case TName(n) => NameChars(n);
      case TRoot(root) =>
      case TNum(lexeme) =>
        if Decimals.Unsigned(lexeme) == lexeme {
          NumeralChars(lexeme);
        }
      case TStr(v) =>
      case TRegex(text) =>
      case TSym(sym) =>
    }
  }

  lemma {:induction false} TouchEnds(p: Piece, ps: seq<Piece>)
    requires p.T? && PieceOk(p) && WellSpaced(ps) && (ps != [] ==> MayTouch(p, ps[0]))
    ensures Ends(p.t, Render(ps))
  {
    if ps != [] {
      var q := ps[0];
      var s := Render(ps);
      assert s == PieceText(q) + Render(ps[1..]);
      if q.T? { SpellStart(q.t); }
      assert PieceText(q) != "" && s[0] == PieceText(q)[0];
    }
  }

  lemma {:induction false} SpacesSkipped(w: string, rest: string)
    requires forall i :: 0 <= i < |w| ==> IsSpace(w[i])
    ensures Lex(w + rest) == Lex(rest)
  {
    if w == "" {
      assert w + rest == rest;
    } else {
      assert (w + rest)[0] == w[0] && (w + rest)[1..] == w[1..] + rest;
      SpacesSkipped(w[1..], rest);
    }
  }

  /** A comment's text has no effect, because it cannot hold a newline. */
  lemma {:induction false} CommentSkipped(text: string, rest: string)
    requires '\n' !in text
    ensures Lex("# " + text + "\n" + rest) == Lex(rest)
  {
    var body, tail := "# " + text, "\n" + rest;
    var s := body + tail;
    assert s == "# " + text + "\n" + rest;
    assert '\n' !in body by { assert forall i :: 0 <= i < |body| ==> body[i] == if i < 2 then "# "[i] else text[i - 2]; }
    IndexOfStops(body, '\n', tail);
    assert s[0] == '#' && s[|body|..] == tail && tail[1..] == rest;
  }

  lemma {:induction false} TokLexed(t: Tok, rest: string)
    requires Spellable(t) && Ends(t, rest) && Lex(rest).Some?
    ensures Lex(Spell(t) + rest) == Some([t] + Lex(rest).value)
  {
    var s := Spell(t) + rest;
    TokRead(t, rest);
    SpellStart(t);
    assert s[0] == Spell(t)[0];
  }

  /** The text of any well-spaced sequence lexes to exactly its tokens. */
  lemma {:induction false} LexRender(ps: seq<Piece>)
    requires WellSpaced(ps)
    ensures Lex(Render(ps)) == Some(Toks(ps))
    decreases |ps|
  {
    if ps != [] {
      var p, rest := ps[0], ps[1..];
      var tail := Render(rest);
      assert WellSpaced(rest) by {
        assert forall i :: 0 <= i < |rest| ==> rest[i] == ps[i + 1];
      }
      LexRender(rest);
      assert PieceOk(p);
      match p {
        case Ws(w) => SpacesSkipped(w, tail);
        case Cm(text) =>
          CommentSkipped(text, tail);
          assert Render(ps) == "# " + text + "\n" + tail;
        case T(t) =>
          if rest != [] { assert MayTouch(ps[0], ps[0 + 1]); }
          TouchEnds(p, rest);
          TokLexed(t, tail);
      }
    }
  }
}
