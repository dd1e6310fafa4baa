/** Results, errors and the small text functions shared by the rule model and the VRL subset. */
module Common {

  datatype Option<+T> = None | Some(value: T)

  function Default<A>(r: Option<A>, other: A): A { if r.Some? then r.value else other }

  /** Why a value, a rule, a chain or a bundle is refused. */
  datatype Error =
    | StringTooLong
    | ListTooLong
    | IntegerOutOfRange
    | NonFiniteFloat
    | NumberTooLong
    | NotEncodable
    | EmptyField
    | FieldTooLong
    | EmptySegment
    | GlobTooLong
    | UnsafeRegex
    | WrongValueShape
    | NoConditions
    | NoSuchRule
    | InvalidRule
    | GateFailed
    | NoVector
    | NoSuchVersion

  datatype Result<+T> = Ok(value: T) | Refused(error: Error) {
    predicate IsFailure() { Refused? }

    function PropagateFailure<U>(): Result<U>
      requires Refused?
    {
      Refused(error)
    }

    function Extract(): T
      requires Ok?
    {
      value
    }
  }

  /** The one character fold used both when rules are written and when VRL lower-cases text. */
  function LowerChar(c: char): char {
    if 'A' <= c <= 'Z' then (c as int + 32) as char else c
  }

  function Lower(s: string): string {
    if s == "" then "" else [LowerChar(s[0])] + Lower(s[1..])
  }

  lemma {:induction false} LowerAt(s: string)
    ensures |Lower(s)| == |s|
    ensures forall i :: 0 <= i < |s| ==> Lower(s)[i] == LowerChar(s[i])
  {
    if s != "" { LowerAt(s[1..]); }
  }

  lemma {:induction false} LowerIdempotent(s: string)
    ensures Lower(Lower(s)) == Lower(s)
  {
    var t := Lower(s);
    LowerAt(s);
    LowerAt(t);
    assert forall i :: 0 <= i < |s| ==> Lower(t)[i] == t[i];
  }

  /** Folding is the alphabet, letter by letter, and nothing else. */
  lemma {:induction false} LowerCharMeans(c: char)
    ensures forall i :: 0 <= i < 26 && c == "ABCDEFGHIJKLMNOPQRSTUVWXYZ"[i] ==>
              LowerChar(c) == "abcdefghijklmnopqrstuvwxyz"[i]
    ensures c !in "ABCDEFGHIJKLMNOPQRSTUVWXYZ" ==> LowerChar(c) == c
  {
    var upper, lower := "ABCDEFGHIJKLMNOPQRSTUVWXYZ", "abcdefghijklmnopqrstuvwxyz";
    assert forall i :: 0 <= i < 26 ==> upper[i] as int == 'A' as int + i && lower[i] as int == 'a' as int + i;
    if 'A' <= c <= 'Z' { assert upper[c as int - 'A' as int] == c; }
  }

  predicate StartsWith(s: string, prefix: string) {
    |prefix| <= |s| && s[..|prefix|] == prefix
  }

  predicate EndsWith(s: string, suffix: string) {
    |suffix| <= |s| && s[|s| - |suffix|..] == suffix
  }

  predicate Contains(s: string, needle: string) {
    exists i {:trigger s[i..]} :: 0 <= i <= |s| && StartsWith(s[i..], needle)
  }

  predicate Splits(s: string, a: string, t: string, b: string) { s == a + t + b }

  /** The three text tests, as ways to take the text apart. */
  lemma {:induction false} TextTestsMean(s: string, t: string)
    ensures StartsWith(s, t) <==> exists b :: Splits(s, "", t, b)
    ensures EndsWith(s, t) <==> exists a :: Splits(s, a, t, "")
    ensures Contains(s, t) <==> exists a, b :: Splits(s, a, t, b)
  {
    StartsMeans(s, t);
    EndsMeans(s, t);
    ContainsMeans(s, t);
  }

  lemma {:induction false} StartsMeans(s: string, t: string)
    ensures StartsWith(s, t) <==> exists b :: Splits(s, "", t, b)
  {
    if StartsWith(s, t) { assert Splits(s, "", t, s[|t|..]); }
    if b :| Splits(s, "", t, b) { assert "" + t == t && s[..|t|] == t; }
  }

  lemma {:induction false} EndsMeans(s: string, t: string)
    ensures EndsWith(s, t) <==> exists a :: Splits(s, a, t, "")
  {
    if EndsWith(s, t) { assert Splits(s, s[..|s| - |t|], t, ""); }
    if a :| Splits(s, a, t, "") { assert s == a + t; }
  }

  lemma {:induction false} ContainsMeans(s: string, t: string)
    ensures Contains(s, t) <==> exists a, b :: Splits(s, a, t, b)
  {
    if Contains(s, t) {
      var i :| 0 <= i <= |s| && StartsWith(s[i..], t);
      assert s == s[..i] + s[i..] && s[i..] == t + s[i..][|t|..];
      assert Splits(s, s[..i], t, s[i..][|t|..]);
    }
    if a, b :| Splits(s, a, t, b) {
      assert s == a + (t + b);
      assert s[|a|..] == t + b;
    }
  }

  /** The lexicographic order of strings by code point. */
  predicate StringLe(a: string, b: string) {
    if a == "" then true
    else if b == "" then false
    else a[0] < b[0] || (a[0] == b[0] && StringLe(a[1..], b[1..]))
  }

  /** `k` is the first place where the two differ: there `a` has the smaller character, or has ended. */
  predicate DiffersAt(a: string, b: string, k: int) {
    0 <= k <= |a| && k < |b| && a[..k] == b[..k] && (k == |a| || a[k] < b[k])
  }

  /** In a dictionary `a` stands before `b`. */
  ghost predicate ComesFirst(a: string, b: string) { exists k :: DiffersAt(a, b, k) }

  lemma {:induction false} DiffersLater(a: string, b: string, k: nat)
    requires a != "" && b != ""
    ensures DiffersAt(a, b, k + 1) <==> a[0] == b[0] && DiffersAt(a[1..], b[1..], k)
  {
    if k < |a| && k + 1 < |b| {
      assert a[..k + 1] == [a[0]] + a[1..][..k] && b[..k + 1] == [b[0]] + b[1..][..k];
    }
  }

  /** The order is the dictionary's. */
  lemma {:induction false} StringLeMeans(a: string, b: string)
    ensures StringLe(a, b) <==> a == b || ComesFirst(a, b)
  {
    if a == "" {
      if b != "" { assert DiffersAt(a, b, 0); }
    } else if b != "" {
      StringLeMeans(a[1..], b[1..]);
      assert a[0] < b[0] <==> DiffersAt(a, b, 0);
      if k: nat :| DiffersAt(a[1..], b[1..], k) { DiffersLater(a, b, k); }
      if k: nat :| DiffersAt(a, b, k) && k > 0 { DiffersLater(a, b, k - 1); }
      assert a == [a[0]] + a[1..] && b == [b[0]] + b[1..];
    }
  }

  lemma {:induction false} StringLeTotal(a: string, b: string)
    ensures StringLe(a, b) || StringLe(b, a)
  {
    if a != "" && b != "" { StringLeTotal(a[1..], b[1..]); }
  }

  lemma {:induction false} StringLeAntisymmetric(a: string, b: string)
    requires StringLe(a, b) && StringLe(b, a)
    ensures a == b
  {
    if a != "" && b != "" {
      StringLeAntisymmetric(a[1..], b[1..]);
      assert a == [a[0]] + a[1..] && b == [b[0]] + b[1..];
    }
  }

  lemma {:induction false} StringLeTransitive(a: string, b: string, c: string)
    requires StringLe(a, b) && StringLe(b, c)
    ensures StringLe(a, c)
  {
    if a != "" && b != "" && c != "" && a[0] == b[0] == c[0] {
      StringLeTransitive(a[1..], b[1..], c[1..]);
    }
  }

  /** The step of a loop over a sequence: one more element taken, the rest still to come. */
  lemma {:induction false} TakeSnoc<A>(s: seq<A>, i: nat)
    requires i < |s|
    ensures s[..i + 1] == s[..i] + [s[i]]
    ensures s == s[..i + 1] + s[i + 1..]
  {
  }
}
