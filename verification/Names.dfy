/** Ids for new rules: a slug of the name, and a numbered search for one that is not taken. */
module Names {
  import opened Common
  import opened Rules
  import Decimals

  const MAX_SLUG := 48
  const MAX_ID := 63
  const SUFFIX_LIMIT := 100_000_000_000_000

  predicate IsSlugChar(c: char) { 'a' <= c <= 'z' || '0' <= c <= '9' }

  /** The id pattern: a letter or digit, then up to 62 letters, digits and dashes. */
  predicate IsRuleId(s: string) {
    && 1 <= |s| <= MAX_ID && IsSlugChar(s[0])
    && forall i :: 0 <= i < |s| ==> IsSlugChar(s[i]) || s[i] == '-'
  }

  /** Every run of other characters becomes one dash. `inRun` says that a dash has just been written. */
  function Squeeze(s: string, inRun: bool): string {
    if s == "" then ""
    else if IsSlugChar(s[0]) then [s[0]] + Squeeze(s[1..], false)
    else (if inRun then "" else "-") + Squeeze(s[1..], true)
  }

  function StripLeft(s: string): string {
    if s != "" && s[0] == '-' then StripLeft(s[1..]) else s
  }

  function StripRight(s: string): string {
    if s != "" && s[|s| - 1] == '-' then StripRight(s[..|s| - 1]) else s
  }

  function Cut(s: string, n: nat): string { if |s| > n then s[..n] else s }

  function Slugify(name: string): string {
    var slug := Cut(StripRight(StripLeft(Squeeze(Lower(name), false))), MAX_SLUG);
    if slug == "" then "rule" else slug
  }

  predicate SlugChars(s: string) { forall i :: 0 <= i < |s| ==> IsSlugChar(s[i]) || s[i] == '-' }

  lemma {:induction false} SqueezeChars(s: string, inRun: bool)
    ensures SlugChars(Squeeze(s, inRun))
  {
    if s != "" { SqueezeChars(s[1..], !IsSlugChar(s[0])); }
  }

  lemma {:induction false} StripLeftChars(s: string)
    requires SlugChars(s)
    ensures SlugChars(StripLeft(s)) && (StripLeft(s) != "" ==> StripLeft(s)[0] != '-')
  {
    if s != "" && s[0] == '-' { StripLeftChars(s[1..]); }
  }

  lemma {:induction false} StripRightPrefix(s: string)
    ensures StripRight(s) <= s
  {
    if s != "" && s[|s| - 1] == '-' { StripRightPrefix(s[..|s| - 1]); }
  }

  /** The slug of any name at all is a rule id, and leaves room for a dash and a number. */
  lemma {:induction false} SlugIsRuleId(name: string)
    ensures IsRuleId(Slugify(name)) && |Slugify(name)| <= MAX_SLUG
  {
    var squeezed := Squeeze(Lower(name), false);
    SqueezeChars(Lower(name), false);
    StripLeftChars(squeezed);
    StripRightPrefix(StripLeft(squeezed));
  }

  /** The letters and digits of a text, in order. */
  function SlugCharsOf(s: string): string {
    if s == "" then "" else (if IsSlugChar(s[0]) then [s[0]] else []) + SlugCharsOf(s[1..])
  }

  predicate SingleDashes(s: string) { forall i :: 0 <= i < |s| - 1 ==> s[i] != '-' || s[i + 1] != '-' }

  lemma {:induction false} SqueezeKeeps(s: string, inRun: bool)
    ensures SlugCharsOf(Squeeze(s, inRun)) == SlugCharsOf(s)
  {
    if s != "" {
      var first := IsSlugChar(s[0]);
      var rest := Squeeze(s[1..], !first);
      SqueezeKeeps(s[1..], !first);
      if first {
        SlugCharsCons(s[0], rest);
      } else if !inRun {
        SlugCharsCons('-', rest);
      } else {
        assert Squeeze(s, inRun) == "" + rest == rest;
      }
    }
  }

  lemma {:induction false} SlugCharsCons(c: char, s: string)
    ensures SlugCharsOf([c] + s) == (if IsSlugChar(c) then [c] else []) + SlugCharsOf(s)
  {
    assert ([c] + s)[0] == c && ([c] + s)[1..] == s;
  }

  lemma {:induction false} SqueezeDashes(s: string, inRun: bool)
    ensures SingleDashes(Squeeze(s, inRun))
    ensures inRun && Squeeze(s, inRun) != "" ==> Squeeze(s, inRun)[0] != '-'
  {
    if s != "" { SqueezeDashes(s[1..], !IsSlugChar(s[0])); }
  }

  lemma {:induction false} StripLeftKeeps(s: string)
    ensures SlugCharsOf(StripLeft(s)) == SlugCharsOf(s) && (SingleDashes(s) ==> SingleDashes(StripLeft(s)))
  {
    if s != "" && s[0] == '-' { StripLeftKeeps(s[1..]); }
  }

  lemma {:induction false} SlugCharsSnoc(s: string, c: char)
    ensures SlugCharsOf(s + [c]) == SlugCharsOf(s) + if IsSlugChar(c) then [c] else []
  {
    if s == "" {
      assert s + [c] == [c] && [c][1..] == "";
    } else {
      var first, last := if IsSlugChar(s[0]) then [s[0]] else [], if IsSlugChar(c) then [c] else [];
      assert (s + [c])[0] == s[0] && (s + [c])[1..] == s[1..] + [c];
      SlugCharsSnoc(s[1..], c);
      assert first + (SlugCharsOf(s[1..]) + last) == first + SlugCharsOf(s[1..]) + last;
    }
  }

  lemma {:induction false} StripRightKeeps(s: string)
    ensures SlugCharsOf(StripRight(s)) == SlugCharsOf(s)
    ensures StripRight(s) != "" ==> StripRight(s)[|StripRight(s)| - 1] != '-'
  {
    if s != "" && s[|s| - 1] == '-' {
      var front := s[..|s| - 1];
      StripRightKeeps(front);
      SlugCharsSnoc(front, '-');
      assert s == front + ['-'];
    }
  }

  /** A slug is its name's letters and digits, lower-cased and in order, with single dashes in between;
      only a name that is too long or has none of them loses anything. */
  lemma {:induction false} SlugKeepsName(name: string)
    ensures var whole := StripRight(StripLeft(Squeeze(Lower(name), false)));
            && SlugCharsOf(whole) == SlugCharsOf(Lower(name)) && SingleDashes(Slugify(name))
            && (0 < |whole| <= MAX_SLUG ==> Slugify(name) == whole)
            && (whole == "" <==> SlugCharsOf(Lower(name)) == "")
  {
    var squeezed := Squeeze(Lower(name), false);
    var left := StripLeft(squeezed);
    SqueezeKeeps(Lower(name), false);
    SqueezeDashes(Lower(name), false);
    SqueezeChars(Lower(name), false);
    StripLeftKeeps(squeezed);
    StripLeftChars(squeezed);
    StripRightKeeps(left);
    StripRightPrefix(left);
    if StripRight(left) != "" { assert IsSlugChar(StripRight(left)[0]); }
  }

  /** The runs of letters and digits in a text. */
  function Words(s: string): seq<string> {
    if s == "" then []
    else if !IsSlugChar(s[0]) then Words(s[1..])
    else if |s| == 1 || !IsSlugChar(s[1]) || Words(s[1..]) == [] then [[s[0]]] + Words(s[1..])
    else [[s[0]] + Words(s[1..])[0]] + Words(s[1..])[1..]
  }

  /** Words with a dash between any two. */
  function Dashed(words: seq<string>): string {
    if words == [] then ""
    else if |words| == 1 then words[0]
    else words[0] + "-" + Dashed(words[1..])
  }

  predicate IsWord(s: string) { s != "" && forall i :: 0 <= i < |s| ==> IsSlugChar(s[i]) }

  lemma {:induction false} WordsAre(s: string)
    ensures forall i :: 0 <= i < |Words(s)| ==> IsWord(Words(s)[i])
    ensures s != "" && (IsSlugChar(s[0]) || IsSlugChar(s[|s| - 1])) ==> Words(s) != []
  {
    if s != "" {
      WordsAre(s[1..]);
      if |s| > 1 { assert s[1..][|s| - 2] == s[|s| - 1]; }
    }
  }

  lemma {:induction false} DashedEnds(words: seq<string>)
    requires words != [] && forall i :: 0 <= i < |words| ==> IsWord(words[i])
    ensures var d := Dashed(words); d != "" && IsSlugChar(d[0]) && IsSlugChar(d[|d| - 1])
  {
    assert IsWord(words[0]);
    if |words| > 1 { DashedEnds(words[1..]); }
  }

  lemma {:induction false} DashedFirst(c: char, words: seq<string>)
    requires words != []
    ensures Dashed([[c] + words[0]] + words[1..]) == [c] + Dashed(words)
  {
    var more := [[c] + words[0]] + words[1..];
    assert more[1..] == words[1..];
    if |words| > 1 { assert [c] + words[0] + "-" + Dashed(words[1..]) == [c] + (words[0] + "-" + Dashed(words[1..])); }
  }

  lemma {:induction false} DashedMore(c: char, words: seq<string>)
    requires words != []
    ensures Dashed([[c]] + words) == [c] + ("-" + Dashed(words))
  {
    assert ([[c]] + words)[1..] == words;
  }

  function Trail(s: string): string { if s != "" && !IsSlugChar(s[|s| - 1]) then "-" else "" }

  function Lead(s: string, inRun: bool): string { if s != "" && !IsSlugChar(s[0]) && !inRun then "-" else "" }

  /** Squeezing leaves the words with dashes between, and at most one dash on either side. */
  lemma {:induction false} SqueezeWords(s: string, inRun: bool)
    ensures Words(s) == [] ==> Squeeze(s, inRun) == Lead(s, inRun)
    ensures Words(s) != [] ==> Squeeze(s, inRun) == Lead(s, inRun) + (Dashed(Words(s)) + Trail(s))
  {
    if s != "" {
      var c, t := s[0], s[1..];
      SqueezeWords(t, !IsSlugChar(c));
      assert s == [c] + t;
      if IsSlugChar(c) { SqueezeWord(c, t, inRun); } else { SqueezeOther(c, t, inRun); }
    }
  }

  lemma {:induction false} SqueezeOther(c: char, t: string, inRun: bool)
    requires !IsSlugChar(c)
    requires Words(t) == [] ==> Squeeze(t, true) == Lead(t, true)
    requires Words(t) != [] ==> Squeeze(t, true) == Lead(t, true) + (Dashed(Words(t)) + Trail(t))
    ensures var s := [c] + t;
            && Words(s) == Words(t) && (Words(t) == [] ==> Squeeze(s, inRun) == Lead(s, inRun))
            && (Words(t) != [] ==> Squeeze(s, inRun) == Lead(s, inRun) + (Dashed(Words(t)) + Trail(s)))
  {
    var s := [c] + t;
    assert s[1..] == t && s[0] == c;
    WordsAre(t);
    if t != "" { assert t[|t| - 1] == s[|s| - 1]; }
    if Words(t) != [] { assert "" + (Dashed(Words(t)) + Trail(t)) == Dashed(Words(t)) + Trail(t); }
  }

  lemma {:induction false} WordStarts(c: char, t: string, inRun: bool)
    requires IsSlugChar(c)
    ensures var s := [c] + t;
            && Squeeze(s, inRun) == [c] + Squeeze(t, false) && Trail(s) == Trail(t)
            && Words(s) == (if t != "" && IsSlugChar(t[0]) && Words(t) != [] then [[c] + Words(t)[0]] + Words(t)[1..]
                            else [[c]] + Words(t))
  {
    var s := [c] + t;
    assert s[1..] == t;
    if t != "" { assert s[1] == t[0] && s[|s| - 1] == t[|t| - 1]; }
  }

  lemma {:induction false} SqueezeWord(c: char, t: string, inRun: bool)
    requires IsSlugChar(c)
    requires Words(t) == [] ==> Squeeze(t, false) == Lead(t, false)
    requires Words(t) != [] ==> Squeeze(t, false) == Lead(t, false) + (Dashed(Words(t)) + Trail(t))
    ensures var s := [c] + t; Words(s) != [] && Squeeze(s, inRun) == Dashed(Words(s)) + Trail(s)
  {
    WordStarts(c, t, inRun);
    WordsAre(t);
    if Words(t) == [] {
      assert [[c]] + [] == [[c]];
    } else if IsSlugChar(t[0]) {
      DashedFirst(c, Words(t));
      Glued([c], Dashed(Words(t)), Trail(t));
    } else {
      DashedMore(c, Words(t));
      Glued([c], "-" + Dashed(Words(t)), Trail(t));
      Glued("-", Dashed(Words(t)), Trail(t));
    }
  }

  lemma {:induction false} Glued(a: string, b: string, c: string)
    ensures a + (b + c) == (a + b) + c && "" + c == c
  {
  }

  lemma {:induction false} Stripped(lead: string, core: string, trail: string)
    requires lead in {"", "-"} && trail in {"", "-"}
    requires core != "" && IsSlugChar(core[0]) && IsSlugChar(core[|core| - 1])
    ensures StripRight(StripLeft(lead + (core + trail))) == core
  {
    assert (core + trail)[0] == core[0];
    StrippedLeft(lead, core + trail);
    StrippedRight(core, trail);
  }

  lemma {:induction false} StrippedLeft(lead: string, rest: string)
    requires lead in {"", "-"} && rest != "" && rest[0] != '-'
    ensures StripLeft(lead + rest) == rest
  {
    assert StripLeft(rest) == rest;
    if lead == "" { assert lead + rest == rest; } else { assert (lead + rest)[1..] == rest; }
  }

  lemma {:induction false} StrippedRight(core: string, trail: string)
    requires trail in {"", "-"} && core != "" && core[|core| - 1] != '-'
    ensures StripRight(core + trail) == core
  {
    assert StripRight(core) == core;
    if trail == "" { assert core + trail == core; } else { assert (core + trail)[..|core|] == core; }
  }

  /** A slug is the words of the lower-cased name with dashes between, cut to 48 characters; a name
      without words has the slug `rule`. */
  lemma {:induction false} SlugIsWords(name: string)
    ensures Words(Lower(name)) == [] ==> Slugify(name) == "rule"
    ensures Words(Lower(name)) != [] ==>
              var whole := Dashed(Words(Lower(name))); Slugify(name) == if |whole| > 48 then whole[..48] else whole
  {
    var s := Lower(name);
    SqueezeWords(s, false);
    WordsAre(s);
    if Words(s) == [] {
      assert "-"[1..] == "" && StripLeft("-") == "" && StripLeft("") == "" && StripRight("") == "";
    } else {
      DashedEnds(Words(s));
      Stripped(Lead(s, false), Dashed(Words(s)), Trail(s));
    }
  }

  // ---------------------------------------------------------------- the search

  /** The n-th id tried: the slug itself, then the slug with 2, 3 and so on. */
  function Candidate(base: string, n: nat): string {
    if n == 0 then base else Cut(base + "-" + Decimals.Digits(n + 1), MAX_ID)
  }

  predicate Taken(rules: seq<Rule>, id: string) {
    exists i :: 0 <= i < |rules| && rules[i].id == id
  }

  /** The first candidate from the n-th on that is free, giving up after `tries` more. */
  function FirstFree(rules: seq<Rule>, base: string, n: nat, tries: nat): string
    decreases tries
  {
    if tries == 0 || !Taken(rules, Candidate(base, n)) then Candidate(base, n)
    else FirstFree(rules, base, n + 1, tries - 1)
  }

  function FreshId(rules: seq<Rule>, name: string): string {
    FirstFree(rules, Slugify(name), 0, |rules|)
  }

  lemma {:induction false} DigitsShort(n: nat, k: nat)
    requires n < Decimals.Pow10(k) && k > 0
    ensures 1 <= |Decimals.Digits(n)| <= k
    ensures forall i :: 0 <= i < |Decimals.Digits(n)| ==> IsSlugChar(Decimals.Digits(n)[i])
  {
    if n >= 10 {
      assert n / 10 < Decimals.Pow10(k - 1);
      DigitsShort(n / 10, k - 1);
    }
  }

  /** Below the limit nothing is cut off, so a candidate is an id and tells its number. */
  lemma {:induction false} CandidateIsRuleId(base: string, n: nat)
    requires IsRuleId(base) && |base| <= MAX_SLUG && n + 1 < SUFFIX_LIMIT
    ensures IsRuleId(Candidate(base, n))
    ensures n > 0 ==> Candidate(base, n) == base + "-" + Decimals.Digits(n + 1)
  {
    assert Decimals.Pow10(14) == SUFFIX_LIMIT;
    DigitsShort(n + 1, 14);
  }

  lemma {:induction false} CandidatesDistinct(base: string, m: nat, n: nat)
    requires IsRuleId(base) && |base| <= MAX_SLUG && m < n && n + 1 < SUFFIX_LIMIT
    ensures Candidate(base, m) != Candidate(base, n)
  {
    CandidateIsRuleId(base, m);
    CandidateIsRuleId(base, n);
    if m == 0 {
      assert |Candidate(base, n)| > |base|;
    } else if Candidate(base, m) == Candidate(base, n) {
      var k := |base| + 1;
      assert Candidate(base, m)[k..] == Decimals.Digits(m + 1) && Candidate(base, n)[k..] == Decimals.Digits(n + 1);
      Decimals.DigitsRead(m + 1);
      Decimals.DigitsRead(n + 1);
    }
  }

  /** Every candidate has the form of an id, cut off or not. */
  lemma {:induction false} FreshIdForm(rules: seq<Rule>, name: string)
    ensures IsRuleId(FreshId(rules, name))
  {
    SlugIsRuleId(name);
    FirstFreeForm(rules, Slugify(name), 0, |rules|);
  }

  lemma {:induction false} FirstFreeForm(rules: seq<Rule>, base: string, n: nat, tries: nat)
    requires IsRuleId(base) && |base| <= MAX_SLUG
    ensures IsRuleId(FirstFree(rules, base, n, tries))
    decreases tries
  {
    var digits := Decimals.Digits(n + 1);
    forall i | 0 <= i < |digits| ensures IsSlugChar(digits[i]) { assert Decimals.IsDigit(digits[i]); }
    if tries > 0 { FirstFreeForm(rules, base, n + 1, tries - 1); }
  }

  lemma {:induction false} TakenSnoc(rules: seq<Rule>, r: Rule, id: string)
    ensures Taken(rules + [r], id) <==> Taken(rules, id) || id == r.id
  {
    var more := rules + [r];
    assert more[|rules|] == r;
    if Taken(rules, id) {
      var i :| 0 <= i < |rules| && rules[i].id == id;
      assert more[i].id == id;
    }
  }

  ghost predicate AllTaken(rules: seq<Rule>, base: string, n: nat) {
    forall k :: 0 <= k < n ==> Taken(rules, Candidate(base, k))
  }

  /** Distinct candidates that are all taken are no more than the rules. */
  lemma {:induction false} Pigeonhole(rules: seq<Rule>, base: string, n: nat)
    requires IsRuleId(base) && |base| <= MAX_SLUG && n < SUFFIX_LIMIT && AllTaken(rules, base, n)
    ensures n <= |rules|
  {
    var ids := set i | 0 <= i < |rules| :: rules[i].id;
    IdCount(rules);
    TriedCount(base, n);
    assert Tried(base, n) <= ids;
    SubsetSize(Tried(base, n), ids);
  }

  lemma {:induction false} SubsetSize(a: set<string>, b: set<string>)
    requires a <= b
    ensures |a| <= |b|
  {
    assert |b - a| == |b| - |a| by { assert b == a + (b - a); }
  }

  lemma {:induction false} IdCount(rules: seq<Rule>)
    ensures |set i | 0 <= i < |rules| :: rules[i].id| <= |rules|
  {
    var ids := set i | 0 <= i < |rules| :: rules[i].id;
    if rules == [] {
      assert ids == {};
    } else {
      var last := |rules| - 1;
      var rest := set i | 0 <= i < last :: rules[..last][i].id;
      IdCount(rules[..last]);
      assert rest == set i | 0 <= i < |rules[..last]| :: rules[..last][i].id;
      assert ids == rest + {rules[last].id};
    }
  }

  ghost function Tried(base: string, n: nat): set<string> { set k | 0 <= k < n :: Candidate(base, k) }

  lemma {:induction false} TriedGrows(base: string, n: nat)
    ensures Tried(base, n + 1) == Tried(base, n) + {Candidate(base, n)}
  {
  }

  lemma {:induction false} TriedOnce(base: string, n: nat)
    requires IsRuleId(base) && |base| <= MAX_SLUG && n + 1 < SUFFIX_LIMIT
    ensures Candidate(base, n) !in Tried(base, n)
  {
    forall k | 0 <= k < n ensures Candidate(base, k) != Candidate(base, n) { CandidatesDistinct(base, k, n); }
  }

  lemma {:induction false} TriedCount(base: string, n: nat)
    requires IsRuleId(base) && |base| <= MAX_SLUG && n < SUFFIX_LIMIT
    ensures |Tried(base, n)| == n
  {
    if n == 0 {
      assert Tried(base, n) == {};
    } else {
      TriedCount(base, n - 1);
      TriedGrows(base, n - 1);
      TriedOnce(base, n - 1);
    }
  }

  /** A taken candidate sends the search to the next one, and never past the number of rules. */
  lemma {:induction false} SearchStep(rules: seq<Rule>, base: string, n: nat)
    requires IsRuleId(base) && |base| <= MAX_SLUG && |rules| + 1 < SUFFIX_LIMIT
    requires n <= |rules| && AllTaken(rules, base, n) && Taken(rules, Candidate(base, n))
    ensures n < |rules| && AllTaken(rules, base, n + 1)
    ensures FirstFree(rules, base, n, |rules| - n) == FirstFree(rules, base, n + 1, |rules| - (n + 1))
  {
    Pigeonhole(rules, base, n + 1);
  }

  lemma {:induction false} FirstFreeIsFree(rules: seq<Rule>, base: string, n: nat)
    requires IsRuleId(base) && |base| <= MAX_SLUG && |rules| + 1 < SUFFIX_LIMIT
    requires n <= |rules| && AllTaken(rules, base, n)
    ensures !Taken(rules, FirstFree(rules, base, n, |rules| - n))
    ensures IsRuleId(FirstFree(rules, base, n, |rules| - n))
    decreases |rules| - n
  {
    if Taken(rules, Candidate(base, n)) {
      SearchStep(rules, base, n);
      FirstFreeIsFree(rules, base, n + 1);
    } else {
      CandidateIsRuleId(base, n);
    }
  }

  /** For every name the search ends on an unused id of the right form. */
  lemma {:induction false} FreshIdIsFree(rules: seq<Rule>, name: string)
    requires |rules| + 1 < SUFFIX_LIMIT
    ensures !Taken(rules, FreshId(rules, name)) && IsRuleId(FreshId(rules, name))
  {
    SlugIsRuleId(name);
    FirstFreeIsFree(rules, Slugify(name), 0);
  }

  /** The n-th candidate, counting from 2, below the limit. */
  function Numbered(base: string, n: nat): string { base + "-" + Decimals.Digits(n) }

  lemma {:induction false} NumberedCandidate(base: string, n: nat)
    requires IsRuleId(base) && |base| <= MAX_SLUG && 2 <= n < SUFFIX_LIMIT
    ensures Candidate(base, n - 1) == Numbered(base, n)
  {
    CandidateIsRuleId(base, n - 1);
  }

  /** The search ends on the candidate with the smallest number that is free. */
  lemma {:induction false} SmallestFree(rules: seq<Rule>, base: string, n: nat, tries: nat) returns (k: nat)
    requires IsRuleId(base) && |base| <= MAX_SLUG && |rules| + 1 < SUFFIX_LIMIT
    requires n + tries == |rules| && AllTaken(rules, base, n)
    ensures n <= k <= |rules| && AllTaken(rules, base, k) && !Taken(rules, Candidate(base, k))
    ensures FirstFree(rules, base, n, tries) == Candidate(base, k)
    decreases tries
  {
    if Taken(rules, Candidate(base, n)) {
      SearchStep(rules, base, n);
      k := SmallestFree(rules, base, n + 1, tries - 1);
    } else {
      k := n;
      FreeNow(rules, base, n, tries);
    }
  }

  lemma {:induction false} FreeNow(rules: seq<Rule>, base: string, n: nat, tries: nat)
    requires !Taken(rules, Candidate(base, n))
    ensures FirstFree(rules, base, n, tries) == Candidate(base, n)
  {
  }

  /** A name whose slug is free gets its slug. Any other gets its slug with the smallest number from 2
      on that is free. */
  lemma {:induction false} FreshIdNamed(rules: seq<Rule>, name: string) returns (n: nat)
    requires |rules| + 1 < SUFFIX_LIMIT
    ensures !Taken(rules, Slugify(name)) ==> FreshId(rules, name) == Slugify(name)
    ensures Taken(rules, Slugify(name)) ==>
              && 2 <= n <= |rules| + 1
              && FreshId(rules, name) == Slugify(name) + "-" + Decimals.Digits(n)
              && !Taken(rules, Slugify(name) + "-" + Decimals.Digits(n))
              && forall m :: 2 <= m < n ==> Taken(rules, Numbered(Slugify(name), m))
  {
    var base := Slugify(name);
    SlugIsRuleId(name);
    var k := SmallestFree(rules, base, 0, |rules|);
    n := k + 1;
    if Taken(rules, base) {
      assert Candidate(base, 0) == base;
      NumberedCandidate(base, n);
      forall m | 2 <= m < n ensures Taken(rules, Numbered(base, m)) { NumberedCandidate(base, m); }
    }
  }

  /** The probing loop. It stops within one probe more than there are rules. */
  method UniqueId(rules: seq<Rule>, name: string) returns (candidate: string, ghost probes: nat)
    requires |rules| + 1 < SUFFIX_LIMIT
    ensures candidate == FreshId(rules, name)
    ensures !Taken(rules, candidate) && IsRuleId(candidate)
    ensures probes <= |rules| + 1
  {
    var base := Slugify(name);
    SlugIsRuleId(name);
    candidate := base;
    var suffix := 2;
    probes := 1;
    while Taken(rules, candidate)
      invariant suffix == probes + 1 && 1 <= probes <= |rules| + 1
      invariant candidate == Candidate(base, probes - 1) && AllTaken(rules, base, probes - 1)
      invariant FreshId(rules, name) == FirstFree(rules, base, probes - 1, |rules| - (probes - 1))
      decreases |rules| + 1 - probes
    {
      SearchStep(rules, base, probes - 1);
      candidate := Cut(base + "-" + Decimals.Digits(suffix), MAX_ID);
      suffix := suffix + 1;
      probes := probes + 1;
    }
    FreshIdIsFree(rules, name);
  }
}
