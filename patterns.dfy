/** The anchored regular expressions the query validators test, all of the shape
    `^C1{m1,n1}C2{m2,n2}...$` for character classes `Ci`: a backtracking matcher and
    its characterisation by a split of the string. */
module Patterns {
  import opened Js

  /** The character classes the validators use. */
  datatype CharClass =
    | Digit        // \d and [0-9]
    | Letter       // [a-zA-Z]
    | Alphanumeric // [a-zA-Z0-9]
    | Upper        // [A-Z]

  predicate InClass(c: char, cls: CharClass)
  {
    match cls
    case Digit => IsDigit(c)
    case Letter => IsAsciiLetter(c)
    case Alphanumeric => IsAsciiLetter(c) || IsDigit(c)
    case Upper => IsUpperAscii(c)
  }

  predicate AllIn(s: string, cls: CharClass)
  {
    forall i :: 0 <= i < |s| ==> InClass(s[i], cls)
  }

  /** `C{min,max}`; `C?` is `C{0,1}`. */
  datatype Term = Term(cls: CharClass, min: nat, max: nat)

  /** `RegExp.prototype.test` for `^p$`: the first term takes `k` characters, `min <= k <= max`,
      and the rest of the pattern must match the rest of the string. */
  function Test(p: seq<Term>, s: string): bool
    decreases |p|, 1, 0
  {
    if p == [] then s == [] else TestFrom(p, s, p[0].min)
  }

  /** Whether the first term can take `k` or more characters and the rest still match. */
  function TestFrom(p: seq<Term>, s: string, k: nat): bool
    requires p != []
    decreases |p|, 0, p[0].max + 1 - k
  {
    if k > p[0].max || k > |s| then false
    else (AllIn(s[..k], p[0].cls) && Test(p[1..], s[k..])) || TestFrom(p, s, k + 1)
  }

  /** The matcher's search for `k` is complete: some admissible count works. */
  lemma {:induction false} TestFromSplit(p: seq<Term>, s: string, k: nat)
    requires p != []
    ensures TestFrom(p, s, k) <==>
      exists j :: k <= j <= p[0].max && j <= |s| && AllIn(s[..j], p[0].cls) && Test(p[1..], s[j..])
    decreases p[0].max + 1 - k
  {
    if !(k > p[0].max || k > |s|) {
      TestFromSplit(p, s, k + 1);
      if exists j :: k <= j <= p[0].max && j <= |s| && AllIn(s[..j], p[0].cls) && Test(p[1..], s[j..]) {
        var j :| k <= j <= p[0].max && j <= |s| && AllIn(s[..j], p[0].cls) && Test(p[1..], s[j..]);
        if j != k {
          assert TestFrom(p, s, k + 1);
        }
      }
    }
  }

  /** A one-term pattern matches exactly the strings of admissible length in its class. */
  lemma OneTerm(t: Term, s: string)
    ensures Test([t], s) <==> t.min <= |s| <= t.max && AllIn(s, t.cls)
  {
    TestFromSplit([t], s, t.min);
    assert [t][1..] == [];
    assert s[..|s|] == s;
  }

  /** A pattern `A{m,n}B?` matches exactly the strings that are `m`..`n` characters of
      `A`, followed by at most one character of `B`. */
  lemma TwoTerms(a: Term, b: Term, s: string)
    requires b.min == 0 && b.max == 1
    ensures Test([a, b], s) <==>
      exists j :: a.min <= j <= a.max && j <= |s| && AllIn(s[..j], a.cls) &&
                  (j == |s| || (j == |s| - 1 && InClass(s[j], b.cls)))
  {
    TestFromSplit([a, b], s, a.min);
    assert [a, b][1..] == [b];
    forall j | 0 <= j <= |s|
      ensures Test([b], s[j..]) <==> j == |s| || (j == |s| - 1 && InClass(s[j], b.cls))
    {
      OneTerm(b, s[j..]);
    }
  }

  /** `/^\d{5}$/`, the bus stop code. */
  const StopCodePattern := [Term(Digit, 5, 5)]

  /** A bus stop code is exactly five decimal digits. */
  lemma StopCodeShape(s: string)
    ensures Test(StopCodePattern, s) <==> |s| == 5 && AllIn(s, Digit)
  {
    OneTerm(Term(Digit, 5, 5), s);
  }
}
