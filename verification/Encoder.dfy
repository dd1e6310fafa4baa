/** The typed encoder: how user text becomes string literals, path segments and comments. */
module Encoder {
  import opened Common
  import Globs

  const MAX_STRING_LEN := 4096
  const MAX_LIST_LEN := 1024
  const MAX_FIELD_LEN := 256

  // ---------------------------------------------------------------- string literals

  function HexShort(n: nat): string
    requires n < 256
  {
    if n < 16 then [Globs.HexDigit(n)] else [Globs.HexDigit(n / 16), Globs.HexDigit(n % 16)]
  }

  function EscapeChar(c: char): string {
    if c == '\\' then "\\\\"
    else if c == '"' then "\\\""
    else if c == '\n' then "\\n"
    else if c == '\r' then "\\r"
    else if c == '\t' then "\\t"
    else if Globs.IsControl(c) then "\\u{" + HexShort(c as int) + "}"
    else [c]
  }

  function Escape(s: string): string {
    if s == "" then "" else EscapeChar(s[0]) + Escape(s[1..])
  }

  function Quote(s: string): string {
    "\"" + Escape(s) + "\""
  }

  function EncodeString(s: string): Result<string> {
    if |s| > MAX_STRING_LEN then Refused(StringTooLong) else Ok(Quote(s))
  }

  lemma {:induction false} EscapeSnoc(s: string, c: char)
    ensures Escape(s + [c]) == Escape(s) + EscapeChar(c)
  {
    if s == "" {
      assert s + [c] == [c];
    } else {
      assert (s + [c])[1..] == s[1..] + [c];
      EscapeSnoc(s[1..], c);
    }
  }

  lemma {:induction false} EscapeLoopStep(value: string, i: nat, out: string)
    requires i < |value| && out == "\"" + Escape(value[..i])
    ensures out + EscapeChar(value[i]) == "\"" + Escape(value[..i + 1])
  {
    EscapeSnoc(value[..i], value[i]);
    TakeSnoc(value, i);
    assert out + EscapeChar(value[i]) == "\"" + (Escape(value[..i]) + EscapeChar(value[i]));
  }

  /** The loop that appends one escape per character. */
  method EncodeStringLoop(value: string) returns (r: Result<string>)
    ensures r == EncodeString(value)
  {
    if |value| > MAX_STRING_LEN { return Refused(StringTooLong); }
    var out := "\"";
    for i := 0 to |value|
      invariant out == "\"" + Escape(value[..i])
    {
      EscapeLoopStep(value, i, out);
      out := out + EscapeChar(value[i]);
    }
    assert value[..|value|] == value;
    r := Ok(out + "\"");
  }

  // ---------------------------------------------------------------- reading a string literal

  predicate IsScalarValue(n: nat) { n < 0xD800 || 0xE000 <= n < 0x11_0000 }

  /** Hexadecimal digits up to the closing brace. */
  function ReadCode(s: string, acc: nat): (r: Option<(nat, string)>)
    ensures r.Some? ==> |r.value.1| < |s|
  {
    if s == "" then None
    else if s[0] == '}' then Some((acc, s[1..]))
    else if Globs.HexValue(s[0]).Some? then ReadCode(s[1..], 16 * acc + Globs.HexValue(s[0]).value)
    else None
  }

  /** One character of a literal and the text after it; a bare quote is not one. */
  function ReadChar(s: string): (r: Option<(char, string)>)
    ensures r.Some? ==> |r.value.1| < |s|
  {
    if s == "" || s[0] == '"' then None
    else if s[0] != '\\' then Some((s[0], s[1..]))
    else if |s| < 2 then None
    else if s[1] == '\\' || s[1] == '"' then Some((s[1], s[2..]))
    else if s[1] == 'n' then Some(('\n', s[2..]))
    else if s[1] == 'r' then Some(('\r', s[2..]))
    else if s[1] == 't' then Some(('\t', s[2..]))
    else if s[1] == 'u' && |s| > 3 && s[2] == '{' && s[3] != '}' then
      var code := ReadCode(s[3..], 0);
      if code.None? || !IsScalarValue(code.value.0) then None
      else Some((code.value.0 as char, code.value.1))
    else None
  }

  /** What follows an opening quote: the contents and the text after the closing quote. */
  function Unquote(s: string): (r: Option<(string, string)>)
    ensures r.Some? ==> |r.value.1| < |s|
    decreases |s|
  {
    if s != "" && s[0] == '"' then Some(("", s[1..]))
    else
      var c := ReadChar(s);
      if c.None? then None
      else
        var rest := Unquote(c.value.1);
        if rest.None? then None else Some(([c.value.0] + rest.value.0, rest.value.1))
  }

  lemma {:induction false} DigitRead(n: nat, rest: string, acc: nat)
    requires n < 16
    ensures ReadCode([Globs.HexDigit(n)] + rest, acc) == ReadCode(rest, 16 * acc + n)
  {
    Globs.HexRead(n);
    assert ([Globs.HexDigit(n)] + rest)[1..] == rest;
  }

  lemma {:induction false} HexShortRead(n: nat, rest: string)
    requires n < 256
    ensures var h := HexShort(n) + "}" + rest;
            h[0] != '}' && ReadCode(h, 0) == Some((n, rest))
  {
    var h, close := HexShort(n) + "}" + rest, "}" + rest;
    assert close[1..] == rest;
    if n < 16 {
      Globs.HexRead(n);
      DigitRead(n, close, 0);
      assert h == [Globs.HexDigit(n)] + close;
    } else {
      TwoDigitsRead(n / 16, n % 16, close);
      TwoInFront(Globs.HexDigit(n / 16), Globs.HexDigit(n % 16), rest);
    }
  }

  lemma {:induction false} TwoInFront(a: char, b: char, rest: string)
    ensures [a, b] + "}" + rest == [a] + ([b] + ("}" + rest))
  {
  }

  lemma {:induction false} TwoDigitsRead(a: nat, b: nat, close: string)
    requires a < 16 && b < 16
    ensures ReadCode([Globs.HexDigit(a)] + ([Globs.HexDigit(b)] + close), 0) == ReadCode(close, 16 * a + b)
    ensures Globs.HexDigit(a) != '}'
  {
    Globs.HexRead(a);
    DigitRead(a, [Globs.HexDigit(b)] + close, 0);
    DigitRead(b, close, a);
  }

  lemma {:induction false} EscapeCharRead(c: char, rest: string)
    ensures EscapeChar(c) != "" && EscapeChar(c)[0] != '"'
    ensures ReadChar(EscapeChar(c) + rest) == Some((c, rest))
  {
    var s := EscapeChar(c) + rest;
    if c == '\\' || c == '"' || c == '\n' || c == '\r' || c == '\t' {
      assert s[0] == '\\' && s[1] == EscapeChar(c)[1] && s[2..] == rest;
    } else if Globs.IsControl(c) {
      ControlRead(c, rest);
    } else {
      assert s[0] == c && s[1..] == rest;
    }
  }

  lemma {:induction false} ControlRead(c: char, rest: string)
    requires Globs.IsControl(c)
    ensures ReadChar("\\u{" + HexShort(c as int) + "}" + rest) == Some((c, rest))
  {
    var h := HexShort(c as int) + "}" + rest;
    var s := "\\u{" + h;
    HexShortRead(c as int, rest);
    assert "\\u{" + HexShort(c as int) + "}" + rest == s;
    assert s[0] == '\\' && s[1] == 'u' && s[2] == '{' && s[3] == h[0] && s[3..] == h;
  }

  lemma {:induction false} EscapeHead(s: string, close: string)
    requires s != ""
    ensures Escape(s) + close == EscapeChar(s[0]) + (Escape(s[1..]) + close)
  {
  }

  lemma {:induction false} UnquoteStep(e: string, c: char, u: string)
    requires e != "" && e[0] != '"' && ReadChar(e + u) == Some((c, u)) && Unquote(u).Some?
    ensures Unquote(e + u) == Some(([c] + Unquote(u).value.0, Unquote(u).value.1))
  {
    assert (e + u)[0] == e[0];
  }

  /** Whatever the contents, the literal closes exactly where it was closed and restores them. */
  lemma {:induction false} QuotedRead(s: string, rest: string)
    ensures Unquote(Escape(s) + ("\"" + rest)) == Some((s, rest))
    decreases |s|
  {
    var close := "\"" + rest;
    if s == "" {
      assert Escape(s) + close == close && close[1..] == rest;
    } else {
      var e, u := EscapeChar(s[0]), Escape(s[1..]) + close;
      EscapeCharRead(s[0], u);
      QuotedRead(s[1..], rest);
      UnquoteStep(e, s[0], u);
      EscapeHead(s, close);
      assert s == [s[0]] + s[1..];
    }
  }

  // ---------------------------------------------------------------- field paths

  /** Python's `split(".")`. */
  function Split(s: string): (r: seq<string>)
    ensures |r| > 0
  {
    if s == "" then [""]
    else
      var rest := Split(s[1..]);
      if s[0] == '.' then [""] + rest else [[s[0]] + rest[0]] + rest[1..]
  }

  function Join(segments: seq<string>): string
    requires |segments| > 0
  {
    if |segments| == 1 then segments[0] else segments[0] + "." + Join(segments[1..])
  }

  predicate NoDots(segments: seq<string>) {
    forall i :: 0 <= i < |segments| ==> '.' !in segments[i]
  }

  lemma {:induction false} SplitHead(head: string, rest: string)
    requires '.' !in head
    ensures Split(head + "." + rest) == [head] + Split(rest)
  {
    var s := head + "." + rest;
    if head == "" {
      assert s[0] == '.' && s[1..] == rest;
    } else {
      assert s[0] == head[0] && s[1..] == head[1..] + "." + rest;
      assert head[0] != '.';
      SplitHead(head[1..], rest);
      assert head == [head[0]] + head[1..];
    }
  }

  lemma {:induction false} SplitWhole(s: string)
    requires '.' !in s
    ensures Split(s) == [s]
  {
    if s != "" {
      assert s[0] != '.';
      SplitWhole(s[1..]);
      assert s == [s[0]] + s[1..];
    }
  }

  /** A dot separates segments and nothing else does: splitting undoes joining. */
  lemma {:induction false} SplitJoin(segments: seq<string>)
    requires |segments| > 0 && NoDots(segments)
    ensures Split(Join(segments)) == segments
  {
    if |segments| == 1 {
      SplitWhole(segments[0]);
    } else {
      SplitJoin(segments[1..]);
      SplitHead(segments[0], Join(segments[1..]));
    }
  }

  lemma {:induction false} SplitNoDots(s: string)
    ensures NoDots(Split(s)) && Join(Split(s)) == s
  {
    if s != "" {
      SplitNoDots(s[1..]);
      var r, rest := Split(s), Split(s[1..]);
      if s[0] == '.' {
        assert r[1..] == rest;
        assert "" + "." + s[1..] == s;
      } else {
        assert r[1..] == rest[1..];
        assert r[0] + "." == [s[0]] + (rest[0] + ".");
      }
    }
  }

  function PathSegments(field: string): Result<seq<string>> {
    if field == "" then Refused(EmptyField)
    else if |field| > MAX_FIELD_LEN then Refused(FieldTooLong)
    else if "" in Split(field) then Refused(EmptySegment)
    else Ok(Split(field))
  }

  // ---------------------------------------------------------------- comments

  function Flatten(s: string): (r: string)
    ensures |r| == |s|
    ensures '\n' !in r && '\r' !in r
  {
    if s == "" then ""
    else [if s[0] == '\n' || s[0] == '\r' then ' ' else s[0]] + Flatten(s[1..])
  }

  /** The text after `# `: one line of at most 200 characters, whatever the input. */
  function CommentText(text: string): (r: string)
    ensures '\n' !in r && '\r' !in r && |r| <= 200
  {
    var flat := Flatten(text);
    if |flat| > 200 then
      assert forall c :: c in flat[..197] ==> c in flat;
      flat[..197] + "..."
    else flat
  }

  lemma {:induction false} FlattenAt(s: string, i: nat)
    requires i < |s|
    ensures Flatten(s)[i] == if s[i] == '\n' || s[i] == '\r' then ' ' else s[i]
  {
    if i > 0 { FlattenAt(s[1..], i - 1); }
  }

  /** A comment shows its text character by character, line breaks as blanks; a text of more than 200
      characters ends in three dots after the first 197. */
  lemma {:induction false} CommentShows(text: string)
    ensures |CommentText(text)| == if |text| > 200 then 200 else |text|
    ensures |text| > 200 ==> CommentText(text)[197..] == "..."
    ensures forall i :: 0 <= i < |text| && (|text| > 200 ==> i < 197) ==>
              CommentText(text)[i] == if text[i] == '\n' || text[i] == '\r' then ' ' else text[i]
  {
    forall i | 0 <= i < |text| ensures Flatten(text)[i] == if text[i] == '\n' || text[i] == '\r' then ' ' else text[i] {
      FlattenAt(text, i);
    }
  }
}
