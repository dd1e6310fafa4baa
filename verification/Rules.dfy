/** The rule model: conditions, rules, chains, and the order in which rules are tried. */
module Rules {
  import opened Common
  import Decimals
  import Encoder

  datatype Scalar = SStr(s: string) | SBool(b: bool) | SInt(i: int) | SFloat(f: Decimals.Float)

  datatype CondValue = NoValue | One(v: Scalar) | Many(vs: seq<Scalar>)

  datatype Operator =
    | EQ | NE | IN | NOT_IN | CONTAINS | STARTS_WITH | ENDS_WITH | GLOB | CIDR
    | LT | LTE | GT | GTE | EXISTS | NOT_EXISTS

  datatype Action = FORWARD | DROP

  datatype Condition = Condition(field: string, operator: Operator, value: CondValue, caseSensitive: bool)

  datatype Rule = Rule(
    id: string,
    name: string,
    description: string,
    enabled: bool,
    order: nat,
    action: Action,
    conditions: seq<Condition>,
    output: string,
    retainPayload: bool,
    shadow: bool,
    version: int)

  datatype Chain = Chain(rules: seq<Rule>, defaultAction: Action, shadowMode: bool)

  function ActionText(a: Action): string {
    match a case FORWARD => "forward" case DROP => "drop"
  }

  // ---------------------------------------------------------------- field names

  /** What Python's `strip` removes. */
  predicate IsBlankChar(c: char) {
    var n := c as int;
    || 0x9 <= n <= 0xD || 0x1C <= n <= 0x20 || n == 0x85 || n == 0xA0 || n == 0x1680
    || 0x2000 <= n <= 0x200A || n == 0x2028 || n == 0x2029 || n == 0x202F || n == 0x205F || n == 0x3000
  }

  function TrimLeft(s: string): (r: string)
    ensures |r| <= |s|
  {
    if s != "" && IsBlankChar(s[0]) then TrimLeft(s[1..]) else s
  }

  function TrimRight(s: string): (r: string)
    ensures |r| <= |s|
  {
    if s != "" && IsBlankChar(s[|s| - 1]) then TrimRight(s[..|s| - 1]) else s
  }

  function Trim(s: string): string { TrimRight(TrimLeft(s)) }

  function NormalizeSegments(segments: seq<string>): (r: seq<string>)
    ensures |r| == |segments|
  {
    if segments == [] then [] else [Lower(Trim(segments[0]))] + NormalizeSegments(segments[1..])
  }

  /** Field names are trimmed and lower-cased per segment; an empty segment is refused. */
  function NormalizeField(v: string): Result<string> {
    var segments := NormalizeSegments(Encoder.Split(Trim(v)));
    if "" in segments then Refused(EmptySegment) else Ok(Encoder.Join(segments))
  }

  lemma {:induction false} TrimLeftSuffix(s: string)
    ensures TrimLeft(s) == s[|s| - |TrimLeft(s)|..]
  {
    if s != "" && IsBlankChar(s[0]) { TrimLeftSuffix(s[1..]); }
  }

  lemma {:induction false} TrimRightPrefix(s: string)
    ensures TrimRight(s) == s[..|TrimRight(s)|]
  {
    if s != "" && IsBlankChar(s[|s| - 1]) { TrimRightPrefix(s[..|s| - 1]); }
  }

  lemma {:induction false} NormalizedNoDot(s: string)
    requires '.' !in s
    ensures '.' !in Lower(Trim(s)) && |Lower(Trim(s))| <= |s|
  {
    TrimLeftSuffix(s);
    TrimRightPrefix(TrimLeft(s));
    var t := Trim(s);
    LowerAt(t);
    assert forall c :: c in t ==> c in s;
    forall i | 0 <= i < |t| ensures Lower(t)[i] != '.' { assert t[i] in s; }
  }

  lemma {:induction false} NormalizedSegments(segments: seq<string>)
    requires Encoder.NoDots(segments)
    ensures Encoder.NoDots(NormalizeSegments(segments))
    ensures segments != [] ==>
              |Encoder.Join(NormalizeSegments(segments))| <= |Encoder.Join(segments)|
  {
    if segments != [] {
      NormalizedNoDot(segments[0]);
      NormalizedSegments(segments[1..]);
      assert NormalizeSegments(segments)[1..] == NormalizeSegments(segments[1..]);
    }
  }

  /** A field name that passed the boundary is never refused by the path encoder, and the path it
      gets is its own non-empty, dot-free segments. */
  lemma {:induction false} NormalizedFieldEncodes(v: string)
    requires 1 <= |v| <= Encoder.MAX_FIELD_LEN && NormalizeField(v).Ok?
    ensures var f := NormalizeField(v).value;
            && Encoder.PathSegments(f) == Ok(NormalizeSegments(Encoder.Split(Trim(v))))
            && "" !in Encoder.Split(f) && Encoder.Join(Encoder.Split(f)) == f
  {
    var raw := Encoder.Split(Trim(v));
    var segments := NormalizeSegments(raw);
    Encoder.SplitNoDots(Trim(v));
    NormalizedSegments(raw);
    Encoder.SplitJoin(segments);
    TrimLeftSuffix(v);
    TrimRightPrefix(TrimLeft(v));
    assert segments[0] != "";
    assert Encoder.Join(segments) != "";
  }

  predicate BareEnds(s: string) {
    s != "" ==> !IsBlankChar(s[0]) && !IsBlankChar(s[|s| - 1])
  }

  lemma {:induction false} TrimBares(s: string)
    ensures BareEnds(Trim(s)) && (BareEnds(s) ==> Trim(s) == s)
  {
    TrimLeftBares(s);
    TrimRightBares(TrimLeft(s));
    TrimRightPrefix(TrimLeft(s));
  }

  lemma {:induction false} TrimLeftBares(s: string)
    ensures TrimLeft(s) != "" ==> !IsBlankChar(TrimLeft(s)[0])
  {
    if s != "" && IsBlankChar(s[0]) { TrimLeftBares(s[1..]); }
  }

  lemma {:induction false} TrimRightBares(s: string)
    ensures TrimRight(s) != "" ==> !IsBlankChar(TrimRight(s)[|TrimRight(s)| - 1])
  {
    if s != "" && IsBlankChar(s[|s| - 1]) { TrimRightBares(s[..|s| - 1]); }
  }

  predicate AllBlank(s: string) { forall c :: c in s ==> IsBlankChar(c) }

  lemma {:induction false} TrimLeftMeans(s: string) returns (before: string)
    ensures s == before + TrimLeft(s) && AllBlank(before)
  {
    before := "";
    if s != "" && IsBlankChar(s[0]) {
      var rest := TrimLeftMeans(s[1..]);
      before := [s[0]] + rest;
      assert s == [s[0]] + s[1..];
    }
  }

  lemma {:induction false} TrimRightMeans(s: string) returns (after: string)
    ensures s == TrimRight(s) + after && AllBlank(after)
  {
    after := "";
    if s != "" && IsBlankChar(s[|s| - 1]) {
      var rest := TrimRightMeans(s[..|s| - 1]);
      after := rest + [s[|s| - 1]];
      assert s == s[..|s| - 1] + [s[|s| - 1]];
    }
  }

  /** Trimming takes blanks from either side until there are none. */
  lemma {:induction false} TrimMeans(s: string) returns (before: string, after: string)
    ensures s == before + Trim(s) + after && AllBlank(before) && AllBlank(after) && BareEnds(Trim(s))
    ensures Trim(s) == "" <==> AllBlank(s)
  {
    before := TrimLeftMeans(s);
    after := TrimRightMeans(TrimLeft(s));
    TrimBares(s);
    Framed(s, before, TrimLeft(s), Trim(s), after);
  }

  lemma {:induction false} Framed(s: string, before: string, t: string, core: string, after: string)
    requires s == before + t && t == core + after
    requires AllBlank(before) && AllBlank(after) && BareEnds(core)
    ensures s == before + core + after
    ensures core == "" <==> AllBlank(s)
  {
    assert before + (core + after) == before + core + after;
    if core != "" { assert s[|before|] == core[0]; }
  }

  lemma {:induction false} SegmentsAt(segments: seq<string>, i: nat)
    requires i < |segments|
    ensures NormalizeSegments(segments)[i] == Lower(Trim(segments[i]))
  {
    if i > 0 {
      assert NormalizeSegments(segments)[1..] == NormalizeSegments(segments[1..]);
      SegmentsAt(segments[1..], i - 1);
    }
  }

  /** A field name is refused exactly when one of its segments is blank. Otherwise it keeps its segments,
      each trimmed and lower-cased. */
  lemma {:induction false} NormalizeMeans(v: string)
    requires 1 <= |v| <= Encoder.MAX_FIELD_LEN
    ensures var raw := Encoder.Split(Trim(v));
            && (NormalizeField(v).Ok? <==> forall i :: 0 <= i < |raw| ==> !AllBlank(raw[i]))
            && (NormalizeField(v).Ok? ==>
                  var segments := Encoder.Split(NormalizeField(v).value);
                  |segments| == |raw| && forall i :: 0 <= i < |raw| ==> segments[i] == Lower(Trim(raw[i])))
  {
    var raw := Encoder.Split(Trim(v));
    var segments := NormalizeSegments(raw);
    forall i | 0 <= i < |raw| ensures segments[i] == Lower(Trim(raw[i])) && (segments[i] == "" <==> AllBlank(raw[i])) {
      SegmentsAt(raw, i);
      var before, after := TrimMeans(raw[i]);
      LowerAt(Trim(raw[i]));
    }
    if NormalizeField(v).Ok? { NormalizedFieldEncodes(v); }
  }

  predicate Normal(segment: string) { segment != "" && BareEnds(segment) && Lower(segment) == segment }

  lemma {:induction false} SegmentsNormal(segments: seq<string>)
    requires "" !in NormalizeSegments(segments)
    ensures forall i :: 0 <= i < |segments| ==> Normal(NormalizeSegments(segments)[i])
  {
    if segments != [] {
      var t := Trim(segments[0]);
      TrimBares(segments[0]);
      LowerAt(t);
      LowerIdempotent(t);
      assert NormalizeSegments(segments)[0] == Lower(t);
      assert NormalizeSegments(segments)[1..] == NormalizeSegments(segments[1..]);
      SegmentsNormal(segments[1..]);
    }
  }

  lemma {:induction false} NormalFixed(segments: seq<string>)
    requires forall i :: 0 <= i < |segments| ==> Normal(segments[i])
    ensures NormalizeSegments(segments) == segments
  {
    if segments != [] {
      assert Normal(segments[0]);
      TrimBares(segments[0]);
      NormalFixed(segments[1..]);
    }
  }

  lemma {:induction false} JoinEnds(segments: seq<string>)
    requires segments != [] && forall i :: 0 <= i < |segments| ==> Normal(segments[i])
    ensures Encoder.Join(segments) != "" && BareEnds(Encoder.Join(segments))
  {
    assert Normal(segments[0]);
    if |segments| > 1 { JoinEnds(segments[1..]); }
  }

  /** Normalising a stored field name again changes nothing, so a row that is read back stays valid. */
  lemma {:induction false} NormalizeIdempotent(v: string)
    requires NormalizeField(v).Ok?
    ensures NormalizeField(NormalizeField(v).value) == NormalizeField(v)
  {
    var raw := Encoder.Split(Trim(v));
    var segments := NormalizeSegments(raw);
    Encoder.SplitNoDots(Trim(v));
    NormalizedSegments(raw);
    Encoder.SplitJoin(segments);
    SegmentsNormal(raw);
    JoinEnds(segments);
    TrimBares(Encoder.Join(segments));
    NormalFixed(segments);
  }

  // ---------------------------------------------------------------- the schema check

  predicate IsNumericOp(op: Operator) { op in {LT, LTE, GT, GTE} }

  /** What the model accepts of a condition's value; `validCidr` is the address library's verdict. */
  predicate ShapeOk(c: Condition, validCidr: string -> bool) {
    match c.operator
    case EXISTS => c.value.NoValue?
    case NOT_EXISTS => c.value.NoValue?
    case IN => c.value.Many? && c.value.vs != []
    case NOT_IN => c.value.Many? && c.value.vs != []
    case EQ => c.value.One?
    case NE => c.value.One?
    case LT => c.value.One? && !c.value.v.SStr?
    case LTE => c.value.One? && !c.value.v.SStr?
    case GT => c.value.One? && !c.value.v.SStr?
    case GTE => c.value.One? && !c.value.v.SStr?
    case CONTAINS => c.value.One? && c.value.v.SStr?
    case STARTS_WITH => c.value.One? && c.value.v.SStr?
    case ENDS_WITH => c.value.One? && c.value.v.SStr?
    case GLOB => c.value.One? && c.value.v.SStr? && |c.value.v.s| <= 512
    case CIDR => c.value.One? && c.value.v.SStr? && validCidr(c.value.v.s)
  }

  /** A condition as the model stores it: a normalised field and a value of the right shape. */
  predicate ConditionOk(c: Condition, validCidr: string -> bool) {
    1 <= |c.field| <= Encoder.MAX_FIELD_LEN && NormalizeField(c.field) == Ok(c.field) && ShapeOk(c, validCidr)
  }

  predicate ConditionsOk(cs: seq<Condition>, validCidr: string -> bool) {
    1 <= |cs| <= 64 && forall i :: 0 <= i < |cs| ==> ConditionOk(cs[i], validCidr)
  }

  // ---------------------------------------------------------------- unique ids

  ghost predicate UniqueIds(rules: seq<Rule>) {
    forall i, j :: 0 <= i < j < |rules| ==> rules[i].id != rules[j].id
  }

  /** The duplicate check: walk the rules once, remembering the ids already seen. */
  method CheckUnique(rules: seq<Rule>) returns (ok: bool)
    ensures ok <==> UniqueIds(rules)
  {
    var seen: set<string> := {};
    for i := 0 to |rules|
      invariant seen == set j | 0 <= j < i :: rules[j].id
      invariant UniqueIds(rules[..i])
    {
      if rules[i].id in seen {
        var j :| 0 <= j < i && rules[j].id == rules[i].id;
        return false;
      }
      seen := seen + {rules[i].id};
    }
    assert rules[..|rules|] == rules;
    return true;
  }

  // ---------------------------------------------------------------- evaluation order

  /** The order of (order, id) pairs. */
  predicate Before(a: Rule, b: Rule) {
    a.order < b.order || (a.order == b.order && StringLe(a.id, b.id))
  }

  ghost predicate Sorted(rules: seq<Rule>) {
    forall i, j :: 0 <= i < j < |rules| ==> Before(rules[i], rules[j])
  }

  function Insert(r: Rule, rules: seq<Rule>): seq<Rule> {
    if rules == [] || Before(r, rules[0]) then [r] + rules
    else [rules[0]] + Insert(r, rules[1..])
  }

  function Sort(rules: seq<Rule>): seq<Rule> {
    if rules == [] then [] else Insert(rules[0], Sort(rules[1..]))
  }

  function Enabled(rules: seq<Rule>): seq<Rule> {
    if rules == [] then []
    else (if rules[0].enabled then [rules[0]] else []) + Enabled(rules[1..])
  }

  /** Enabled rules in evaluation order. */
  function Active(chain: Chain): seq<Rule> {
    Sort(Enabled(chain.rules))
  }

  /** What comes first is tried first: the smaller order, then the id that stands first in a dictionary. */
  lemma {:induction false} BeforeMeans(a: Rule, b: Rule)
    ensures Before(a, b) <==>
              a.order < b.order || (a.order == b.order && (a.id == b.id || ComesFirst(a.id, b.id)))
  {
    StringLeMeans(a.id, b.id);
  }

  /** Of any two active rules the one tried earlier has the smaller order, or the same order and an id
      that stands first in a dictionary. */
  lemma {:induction false} ActiveInOrder(chain: Chain, i: nat, j: nat)
    requires UniqueIds(chain.rules) && i < j < |Active(chain)|
    ensures var a, b := Active(chain)[i], Active(chain)[j];
            a.order < b.order || (a.order == b.order && ComesFirst(a.id, b.id))
  {
    ActiveUnique(chain);
    assert Before(Active(chain)[i], Active(chain)[j]);
    BeforeMeans(Active(chain)[i], Active(chain)[j]);
  }

  lemma {:induction false} EnabledMembers(rules: seq<Rule>)
    ensures forall r :: r in Enabled(rules) <==> r in rules && r.enabled
    ensures UniqueIds(rules) ==> UniqueIds(Enabled(rules))
  {
    if rules != [] {
      var rest := Enabled(rules[1..]);
      EnabledMembers(rules[1..]);
      assert rules == [rules[0]] + rules[1..];
      if UniqueIds(rules) && rules[0].enabled {
        forall i | 0 <= i < |rest| ensures rest[i].id != rules[0].id {
          assert rest[i] in rules[1..];
        }
      }
    }
  }

  lemma {:induction false} BeforeTransitive(a: Rule, b: Rule, c: Rule)
    requires Before(a, b) && Before(b, c)
    ensures Before(a, c)
  {
    if a.order == b.order == c.order { StringLeTransitive(a.id, b.id, c.id); }
  }

  lemma {:induction false} SortedCons(r: Rule, rules: seq<Rule>)
    requires Sorted(rules) && forall i :: 0 <= i < |rules| ==> Before(r, rules[i])
    ensures Sorted([r] + rules)
  {
  }

  lemma {:induction false} InsertAfter(first: Rule, r: Rule, rules: seq<Rule>, rest: seq<Rule>)
    requires multiset(rest) == multiset(rules) + multiset{r} && Before(first, r)
    requires forall i :: 0 <= i < |rules| ==> Before(first, rules[i])
    ensures forall i :: 0 <= i < |rest| ==> Before(first, rest[i])
  {
    forall i | 0 <= i < |rest| ensures Before(first, rest[i]) {
      assert rest[i] in multiset(rest);
      assert rest[i] == r || rest[i] in multiset(rules);
    }
  }

  lemma {:induction false} InsertSorts(r: Rule, rules: seq<Rule>)
    requires Sorted(rules)
    ensures Sorted(Insert(r, rules))
    ensures multiset(Insert(r, rules)) == multiset(rules) + multiset{r}
  {
    if rules != [] {
      assert rules == [rules[0]] + rules[1..];
      if Before(r, rules[0]) {
        forall i | 0 <= i < |rules| ensures Before(r, rules[i]) {
          if i > 0 { BeforeTransitive(r, rules[0], rules[i]); }
        }
      } else {
        var rest := Insert(r, rules[1..]);
        InsertSorts(r, rules[1..]);
        StringLeTotal(r.id, rules[0].id);
        InsertAfter(rules[0], r, rules[1..], rest);
        SortedCons(rules[0], rest);
      }
    }
  }

  lemma {:induction false} SortSorts(rules: seq<Rule>)
    ensures Sorted(Sort(rules))
    ensures multiset(Sort(rules)) == multiset(rules)
  {
    if rules != [] {
      SortSorts(rules[1..]);
      InsertSorts(rules[0], Sort(rules[1..]));
      assert rules == [rules[0]] + rules[1..];
    }
  }

  lemma {:induction false} SameIdSameRule(rules: seq<Rule>, a: Rule, b: Rule)
    requires UniqueIds(rules) && a in rules && b in rules && a.id == b.id
    ensures a == b
  {
  }

  lemma {:induction false} HeadsAgree(a: seq<Rule>, b: seq<Rule>)
    requires Sorted(a) && Sorted(b) && multiset(a) == multiset(b) && UniqueIds(a) && a != []
    ensures b != [] && a[0] == b[0]
  {
    assert a[0] in multiset(b);
    assert b[0] in multiset(a);
    var j :| 0 <= j < |b| && b[j] == a[0];
    var k :| 0 <= k < |a| && a[k] == b[0];
    if j > 0 && k > 0 {
      StringLeTotal(a[0].id, a[0].id);
      assert Before(b[0], b[j]) && Before(a[0], a[k]);
      StringLeAntisymmetric(a[0].id, b[0].id);
    }
  }

  /** With unique ids there is only one sorted arrangement. */
  lemma {:induction false} SortedUnique(a: seq<Rule>, b: seq<Rule>)
    requires Sorted(a) && Sorted(b) && multiset(a) == multiset(b) && UniqueIds(a)
    ensures a == b
  {
    if a == [] {
      assert |b| == |multiset(b)| == |multiset(a)|;
    } else {
      HeadsAgree(a, b);
      RestMultiset(a);
      RestMultiset(b);
      SortedUnique(a[1..], b[1..]);
    }
  }

  lemma {:induction false} RestMultiset(a: seq<Rule>)
    requires a != []
    ensures multiset(a[1..]) == multiset(a) - multiset{a[0]} && a == [a[0]] + a[1..]
  {
    assert a == [a[0]] + a[1..];
  }

  /** The evaluation order depends only on which enabled rules there are: permuting the chain, or
      adding and removing disabled rules, leaves it unchanged. */
  lemma {:induction false} ActiveCanonical(a: Chain, b: Chain)
    requires UniqueIds(a.rules) && multiset(Enabled(a.rules)) == multiset(Enabled(b.rules))
    ensures Active(a) == Active(b)
  {
    EnabledMembers(a.rules);
    SortSorts(Enabled(a.rules));
    SortSorts(Enabled(b.rules));
    ActiveUnique(a);
    SortedUnique(Active(a), Active(b));
  }

  /** Sorting keeps ids unique. */
  lemma {:induction false} ActiveUnique(chain: Chain)
    requires UniqueIds(chain.rules)
    ensures UniqueIds(Active(chain))
    ensures forall r :: r in Active(chain) <==> r in chain.rules && r.enabled
    ensures Sorted(Active(chain))
  {
    var rules, sorted := Enabled(chain.rules), Active(chain);
    EnabledMembers(chain.rules);
    SortSorts(rules);
    assert forall r :: r in sorted <==> r in multiset(sorted);
    assert forall r :: r in rules <==> r in multiset(rules);
    SortedIdsUnique(rules, sorted);
  }

  lemma {:induction false} SortedIdsUnique(a: seq<Rule>, b: seq<Rule>)
    requires UniqueIds(a) && multiset(a) == multiset(b)
    ensures UniqueIds(b)
  {
    forall i, j | 0 <= i < j < |b|
      ensures b[i].id != b[j].id
    {
      if b[i].id == b[j].id {
        assert b[i] in multiset(a) && b[j] in multiset(a);
        SameIdSameRule(a, b[i], b[j]);
        CountTwice(b, i, j);
        CountOnce(a, b[i]);
      }
    }
  }

  lemma {:induction false} CountTwice(b: seq<Rule>, i: nat, j: nat)
    requires i < j < |b| && b[i] == b[j]
    ensures multiset(b)[b[i]] >= 2
  {
    assert b == b[..j] + b[j..];
    assert b[i] in b[..j] && b[j] in b[j..];
    assert multiset(b) == multiset(b[..j]) + multiset(b[j..]);
  }

  lemma {:induction false} CountOnce(a: seq<Rule>, r: Rule)
    requires UniqueIds(a) && r in a
    ensures multiset(a)[r] == 1
  {
    assert a == [a[0]] + a[1..];
    assert multiset(a) == multiset{a[0]} + multiset(a[1..]);
    if a[0] == r {
      assert forall k :: 0 <= k < |a[1..]| ==> a[1..][k].id != a[0].id;
    } else {
      CountOnce(a[1..], r);
    }
  }
}
