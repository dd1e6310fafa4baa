/**
 Globs, the regular expressions they are translated to, and why the two accept the same text.

 The translation is checked at the level of text: the emitted expression is read by a small
 regular-expression reader and matched as an anchored expression.
 */
module Globs {
  import opened Common

  const MAX_GLOB_LEN := 512
  const REGEX_META := ".^$+()[]{}|\\*?"

  // ---------------------------------------------------------------- what a glob means

  function Fold(c: char, ci: bool): char {
    if ci then LowerChar(c) else c
  }

  /** `*` stands for any run of characters other than a newline, `?` for one such character. */
  ghost predicate GlobMatches(p: string, t: string, ci: bool)
    decreases |p|
  {
    if p == "" then t == ""
    else if p[0] == '*' then
      exists k :: 0 <= k <= |t| && '\n' !in t[..k] && GlobMatches(p[1..], t[k..], ci)
    else
      && t != ""
      && (if p[0] == '?' then t[0] != '\n' else Fold(p[0], ci) == Fold(t[0], ci))
      && GlobMatches(p[1..], t[1..], ci)
  }

  /** What one character of a glob may stand for. */
  predicate PieceFits(c: char, piece: string, ci: bool) {
    if c == '*' then '\n' !in piece
    else |piece| == 1 && if c == '?' then piece[0] != '\n'
                         else piece[0] == c || (ci && LowerChar(piece[0]) == LowerChar(c))
  }

  function Concat(pieces: seq<string>): string {
    if pieces == [] then "" else pieces[0] + Concat(pieces[1..])
  }

  /** The text cut into one piece for each character of the glob. */
  predicate Covers(p: string, t: string, ci: bool, pieces: seq<string>) {
    |pieces| == |p| && Concat(pieces) == t && forall i :: 0 <= i < |p| ==> PieceFits(p[i], pieces[i], ci)
  }

  lemma {:induction false} CoversMore(p: string, t: string, ci: bool, pieces: seq<string>, k: nat)
    requires p != "" && k <= |t| && Covers(p[1..], t[k..], ci, pieces) && PieceFits(p[0], t[..k], ci)
    ensures Covers(p, t, ci, [t[..k]] + pieces)
  {
    var more := [t[..k]] + pieces;
    assert more[1..] == pieces && t == t[..k] + t[k..];
    forall i | 0 <= i < |p| ensures PieceFits(p[i], more[i], ci) {
      if i > 0 { assert p[i] == p[1..][i - 1] && more[i] == pieces[i - 1]; }
    }
  }

  lemma {:induction false} CoversRest(p: string, t: string, ci: bool, pieces: seq<string>)
    requires p != "" && Covers(p, t, ci, pieces)
    ensures var k := |pieces[0]|;
            && k <= |t| && pieces[0] == t[..k] && PieceFits(p[0], t[..k], ci)
            && Covers(p[1..], t[k..], ci, pieces[1..])
  {
    assert t == pieces[0] + Concat(pieces[1..]);
    forall i | 0 <= i < |p| - 1 ensures PieceFits(p[1..][i], pieces[1..][i], ci) {
      assert PieceFits(p[i + 1], pieces[i + 1], ci);
    }
  }

  /** A glob accepts a text exactly when the text can be cut into pieces that its characters stand for. */
  lemma {:induction false} GlobCovers(p: string, t: string, ci: bool)
    ensures GlobMatches(p, t, ci) <==> exists pieces :: Covers(p, t, ci, pieces)
    decreases |p|
  {
    if p == "" {
      if t == "" { assert Covers(p, t, ci, []); }
    } else {
      if pieces :| Covers(p, t, ci, pieces) {
        CoversRest(p, t, ci, pieces);
        GlobCovers(p[1..], t[|pieces[0]|..], ci);
      }
      if GlobMatches(p, t, ci) {
        var k := if p[0] != '*' then 1
                 else var k :| 0 <= k <= |t| && '\n' !in t[..k] && GlobMatches(p[1..], t[k..], ci); k;
        GlobCovers(p[1..], t[k..], ci);
        var pieces :| Covers(p[1..], t[k..], ci, pieces);
        CoversMore(p, t, ci, pieces, k);
      }
    }
  }

  // ---------------------------------------------------------------- the translation

  predicate IsControl(c: char) { c < ' ' || c == '\U{7f}' }

  function HexDigit(n: nat): char
    requires n < 16
  {
    "0123456789abcdef"[n]
  }

  /** Two lower-case hexadecimal digits. */
  function Hex2(c: char): (h: string)
    requires c as int < 256
  {
    [HexDigit(c as int / 16), HexDigit(c as int % 16)]
  }

  function GlobPiece(c: char): string {
    if c == '*' then ".*"
    else if c == '?' then "."
    else if c == '\'' then "\\x27"
    else if c in REGEX_META then ['\\', c]
    else if IsControl(c) then "\\x" + Hex2(c)
    else [c]
  }

  function GlobBody(p: string): string {
    if p == "" then "" else GlobPiece(p[0]) + GlobBody(p[1..])
  }

  function GlobToRegex(p: string, ci: bool): Result<string> {
    if |p| > MAX_GLOB_LEN then Refused(GlobTooLong)
    else Ok((if ci then "(?i)" else "") + ("^" + (GlobBody(p) + "$")))
  }

  lemma {:induction false} GlobBodySnoc(p: string, c: char)
    ensures GlobBody(p + [c]) == GlobBody(p) + GlobPiece(c)
  {
    if p == "" {
      assert p + [c] == [c];
    } else {
      assert (p + [c])[1..] == p[1..] + [c];
      GlobBodySnoc(p[1..], c);
    }
  }

  /** The loop that appends one piece per character of the pattern. */
  method GlobToRegexLoop(pattern: string, caseInsensitive: bool) returns (r: Result<string>)
    ensures r == GlobToRegex(pattern, caseInsensitive)
  {
    if |pattern| > MAX_GLOB_LEN { return Refused(GlobTooLong); }
    var out := "^";
    for i := 0 to |pattern|
      invariant out == "^" + GlobBody(pattern[..i])
    {
      GlobBodySnoc(pattern[..i], pattern[i]);
      TakeSnoc(pattern, i);
      out := out + GlobPiece(pattern[i]);
    }
    assert pattern[..|pattern|] == pattern;
    r := Ok((if caseInsensitive then "(?i)" else "") + (out + "$"));
    assert out + "$" == "^" + (GlobBody(pattern) + "$");
  }

  function EncodeRegexLiteral(regex: string): Result<string> {
    if '\'' in regex || '\n' in regex || '\r' in regex then Refused(UnsafeRegex)
    else Ok("r'" + regex + "'")
  }

  // ---------------------------------------------------------------- reading and matching regexes

  /** One position of an expression: a character or any character, once or any number of times. */
  datatype Atom = Exactly(c: char) | AnyChar
  datatype Item = Item(atom: Atom, star: bool)
  datatype Re = Re(ci: bool, items: seq<Item>)

  function HexValue(c: char): Option<nat> {
    if '0' <= c <= '9' then Some(c as int - '0' as int)
    else if 'a' <= c <= 'f' then Some(c as int - 'a' as int + 10)
    else None
  }

  /** The first atom of `s` and the text after it; None where an atom cannot start. */
  function ReadAtom(s: string): (r: Option<(Atom, string)>)
    ensures r.Some? ==> |r.value.1| < |s|
  {
    if s == "" then None
    else if s[0] == '\\' then
      if |s| < 2 then None
      else if s[1] == 'x' then
        if |s| < 4 || HexValue(s[2]).None? || HexValue(s[3]).None? then None
        else Some((Exactly((16 * HexValue(s[2]).value + HexValue(s[3]).value) as char), s[4..]))
      else if s[1] in REGEX_META then Some((Exactly(s[1]), s[2..]))
      else None
    else if s[0] == '.' then Some((AnyChar, s[1..]))
    else if s[0] in REGEX_META then None
    else Some((Exactly(s[0]), s[1..]))
  }

  /** Items up to the closing `$`, which must be the end of the text. */
  function ReadItems(s: string): Option<seq<Item>>
    decreases |s|
  {
    if s == "$" then Some([])
    else
      var a := ReadAtom(s);
      if a.None? then None
      else
        var star := a.value.1 != "" && a.value.1[0] == '*';
        var rest := ReadItems(if star then a.value.1[1..] else a.value.1);
        if rest.None? then None else Some([Item(a.value.0, star)] + rest.value)
  }

  function ReadRegex(s: string): Option<Re> {
    var ci := StartsWith(s, "(?i)");
    var t := if ci then s[4..] else s;
    if t == "" || t[0] != '^' then None
    else
      var items := ReadItems(t[1..]);
      if items.None? then None else Some(Re(ci, items.value))
  }

  predicate AtomMatches(a: Atom, c: char, ci: bool) {
    match a
    case AnyChar => c != '\n'
    case Exactly(d) => Fold(d, ci) == Fold(c, ci)
  }

  /** Anchored matching, one character of the text at a time. */
  predicate ItemsMatch(items: seq<Item>, t: string, ci: bool)
    decreases |items| + |t|
  {
    if items == [] then t == ""
    else if items[0].star then
      || ItemsMatch(items[1..], t, ci)
      || (t != "" && AtomMatches(items[0].atom, t[0], ci) && ItemsMatch(items, t[1..], ci))
    else t != "" && AtomMatches(items[0].atom, t[0], ci) && ItemsMatch(items[1..], t[1..], ci)
  }

  function RegexMatches(regex: string, t: string): Option<bool> {
    var re := ReadRegex(regex);
    if re.None? then None else Some(ItemsMatch(re.value.items, t, re.value.ci))
  }

  // ---------------------------------------------------------------- the translation is read back

  function GlobItem(c: char): Item {
    if c == '*' then Item(AnyChar, true)
    else if c == '?' then Item(AnyChar, false)
    else Item(Exactly(c), false)
  }

  function GlobItems(p: string): seq<Item> {
    if p == "" then [] else [GlobItem(p[0])] + GlobItems(p[1..])
  }

  lemma {:induction false} HexRead(n: nat)
    requires n < 16
    ensures HexValue(HexDigit(n)) == Some(n)
  {
    var d := HexDigit(n);
    assert d == "0123456789abcdef"[n];
    assert n < 10 ==> d as int == '0' as int + n;
    assert n >= 10 ==> d as int == 'a' as int + (n - 10);
  }

  /** Each translated character reads back as one item, whatever follows, unless that is a star. */
  lemma {:induction false} PieceRead(c: char, rest: string)
    ensures c == '*' ==> ReadAtom(GlobPiece(c) + rest) == Some((AnyChar, "*" + rest))
    ensures c != '*' ==> ReadAtom(GlobPiece(c) + rest) == Some((GlobItem(c).atom, rest))
  {
    var s := GlobPiece(c) + rest;
    if c == '*' {
      assert s[0] == '.' && s[1..] == "*" + rest;
    } else if c == '?' {
      assert s[1..] == rest;
    } else if c == '\'' {
      assert s[0] == '\\' && s[1] == 'x' && s[2] == '2' && s[3] == '7' && s[4..] == rest;
    } else if c in REGEX_META {
      assert s[0] == '\\' && s[1] == c && s[2..] == rest;
    } else if IsControl(c) {
      HexRead(c as int / 16);
      HexRead(c as int % 16);
      assert s[0] == '\\' && s[1] == 'x' && s[2] == HexDigit(c as int / 16)
          && s[3] == HexDigit(c as int % 16) && s[4..] == rest;
      assert 16 * (c as int / 16) + c as int % 16 == c as int;
    } else {
      assert s[0] == c && s[1..] == rest;
    }
  }

  lemma {:induction false} PieceStart(c: char)
    ensures GlobPiece(c) != "" && GlobPiece(c)[0] != '*' && GlobPiece(c)[0] != '$'
  {
  }

  lemma {:induction false} BodyRead(p: string)
    ensures GlobBody(p) + "$" != "" && (GlobBody(p) + "$")[0] != '*'
    ensures ReadItems(GlobBody(p) + "$") == Some(GlobItems(p))
  {
    if p != "" {
      var rest := GlobBody(p[1..]) + "$";
      var s := GlobBody(p) + "$";
      assert s == GlobPiece(p[0]) + rest;
      PieceStart(p[0]);
      assert s[0] == GlobPiece(p[0])[0];
      BodyRead(p[1..]);
      PieceRead(p[0], rest);
      if p[0] == '*' { assert ("*" + rest)[1..] == rest; }
    } else {
      assert GlobBody(p) + "$" == "$";
    }
  }

  lemma {:induction false} PrefixRead(body: string, ci: bool)
    ensures ReadRegex((if ci then "(?i)" else "") + ("^" + body)) ==
            var items := ReadItems(body);
            if items.None? then None else Some(Re(ci, items.value))
  {
    var t := "^" + body;
    var s := (if ci then "(?i)" else "") + t;
    assert t[0] == '^' && t[1..] == body;
    if ci {
      assert s[..4] == "(?i)" && s[4..] == t;
    } else {
      assert s == t;
      if |s| >= 4 { assert s[..4][0] != "(?i)"[0]; }
    }
  }

  lemma {:induction false} RegexRead(p: string, ci: bool)
    requires |p| <= MAX_GLOB_LEN
    ensures ReadRegex(GlobToRegex(p, ci).value) == Some(Re(ci, GlobItems(p)))
  {
    BodyRead(p);
    PrefixRead(GlobBody(p) + "$", ci);
  }

  // ---------------------------------------------------------------- and means the same

  /** The star takes `k` newline-free characters and the rest matches. */
  predicate Takes(rest: seq<Item>, t: string, k: int, ci: bool) {
    0 <= k <= |t| && '\n' !in t[..k] && ItemsMatch(rest, t[k..], ci)
  }

  lemma {:induction false} TakesMore(rest: seq<Item>, t: string, k: nat, ci: bool)
    requires t != ""
    ensures Takes(rest, t, k + 1, ci) <==> t[0] != '\n' && Takes(rest, t[1..], k, ci)
  {
    var u := t[1..];
    if k <= |u| {
      assert t[k + 1..] == u[k..];
      assert t[..k + 1] == [t[0]] + u[..k];
    }
  }

  /** Matching a starred "any character" is choosing how many newline-free characters it takes. */
  lemma {:induction false} StarSplits(items: seq<Item>, t: string, ci: bool)
    requires items != [] && items[0] == Item(AnyChar, true)
    ensures ItemsMatch(items, t, ci) <==> exists k :: Takes(items[1..], t, k, ci)
    decreases |t|
  {
    var rest := items[1..];
    TakesNone(rest, t, ci);
    if t != "" {
      StarSplits(items, t[1..], ci);
      if k: nat :| Takes(rest, t[1..], k, ci) { TakesMore(rest, t, k, ci); }
      if k :| Takes(rest, t, k, ci) && k > 0 { TakesMore(rest, t, k - 1, ci); }
    }
  }

  lemma {:induction false} TakesNone(rest: seq<Item>, t: string, ci: bool)
    ensures Takes(rest, t, 0, ci) <==> ItemsMatch(rest, t, ci)
    ensures t == "" ==> forall k :: Takes(rest, t, k, ci) ==> k == 0
  {
    assert t[0..] == t;
  }

  lemma {:induction false} ItemsMeanGlob(p: string, t: string, ci: bool)
    ensures ItemsMatch(GlobItems(p), t, ci) <==> GlobMatches(p, t, ci)
    decreases |p|
  {
    if p != "" {
      var items := GlobItems(p);
      assert items[1..] == GlobItems(p[1..]);
      if p[0] == '*' {
        StarSplits(items, t, ci);
        forall k | 0 <= k <= |t|
          ensures Takes(items[1..], t, k, ci) <==> '\n' !in t[..k] && GlobMatches(p[1..], t[k..], ci)
        {
          ItemsMeanGlob(p[1..], t[k..], ci);
        }
      } else if t != "" {
        ItemsMeanGlob(p[1..], t[1..], ci);
      }
    }
  }

  /** The emitted expression, read as a regular expression, accepts exactly what the glob accepts. */
  lemma {:induction false} GlobPreserved(p: string, t: string, ci: bool)
    requires |p| <= MAX_GLOB_LEN
    ensures RegexMatches(GlobToRegex(p, ci).value, t) == Some(GlobMatches(p, t, ci))
  {
    RegexRead(p, ci);
    ItemsMeanGlob(p, t, ci);
  }

  // ---------------------------------------------------------------- and stays inside its literal

  predicate Quotable(s: string) {
    forall i :: 0 <= i < |s| ==> s[i] != '\'' && !IsControl(s[i])
  }

  lemma {:induction false} BodyQuotable(p: string)
    ensures Quotable(GlobBody(p))
  {
    if p != "" {
      if IsControl(p[0]) && p[0] !in REGEX_META {
        HexRead(p[0] as int / 16);
        HexRead(p[0] as int % 16);
      }
      assert Quotable(GlobPiece(p[0]));
      BodyQuotable(p[1..]);
    }
  }

  /** No glob makes the literal wrapper refuse, and the literal's only closing quote is its last
      character. */
  lemma {:induction false} GlobLiteralCloses(p: string, ci: bool)
    requires |p| <= MAX_GLOB_LEN
    ensures var lit := EncodeRegexLiteral(GlobToRegex(p, ci).value);
            && lit.Ok? && |lit.value| >= 3
            && lit.value[..2] == "r'" && lit.value[|lit.value| - 1] == '\''
            && '\'' !in lit.value[2..|lit.value| - 1]
            && '\n' !in lit.value && '\r' !in lit.value
  {
    BodyQuotable(p);
    var s := GlobToRegex(p, ci).value;
    assert Quotable(s);
    var lit := "r'" + s + "'";
    assert lit[2..|lit| - 1] == s;
  }
}
