/** Sequence and string vocabulary shared by the pipeline stages and the API handlers:
    JavaScript's `filter`, `slice(0, n)`, `join`, `split`, `includes` and the
    first-occurrence de-duplication that `new Set(...)` performs. */
module Common {

  datatype Option<T> = None | Some(value: T)

  /** The validators' `{ valid: true, value }` and `{ valid: false, error }` objects. */
  datatype Validation<T> = Valid(value: T) | Invalid(error: string)

  // ---------------------------------------------------------------------------
  // Sequences

  /** `a` can be obtained from `b` by deleting elements (order is kept). */
  predicate IsSubsequence<T(==)>(a: seq<T>, b: seq<T>)
    decreases |b|
  {
    a == [] ||
    (b != [] && ((a[0] == b[0] && IsSubsequence(a[1..], b[1..])) || IsSubsequence(a, b[1..])))
  }

  /** `Array.prototype.filter`. */
  function Filter<T>(s: seq<T>, p: T -> bool): (r: seq<T>)
    ensures |r| <= |s|
    ensures forall x :: x in r ==> x in s && p(x)
  {
    if s == [] then [] else (if p(s[0]) then [s[0]] else []) + Filter(s[1..], p)
  }

  /** `Array.prototype.map`. */
  function Map<T, U>(s: seq<T>, f: T -> U): (r: seq<U>)
    ensures |r| == |s|
    ensures forall i :: 0 <= i < |s| ==> r[i] == f(s[i])
  {
    seq(|s|, i requires 0 <= i < |s| => f(s[i]))
  }

  lemma MapFour<T, U>(a: T, b: T, c: T, d: T, f: T -> U)
    ensures Map([a, b, c, d], f) == [f(a), f(b), f(c), f(d)]
  {
  }

  lemma MapMembers<T, U>(s: seq<T>, f: T -> U, y: U)
    ensures y in Map(s, f) <==> exists i :: 0 <= i < |s| && f(s[i]) == y
  {
    if exists i :: 0 <= i < |s| && f(s[i]) == y {
      var i :| 0 <= i < |s| && f(s[i]) == y;
      assert Map(s, f)[i] == y;
    }
  }

  /** `s.map(f)` with a callback that may throw (`None`): the whole map throws as soon as
      one call does. */
  function MapAll<T, U>(s: seq<T>, f: T -> Option<U>): (r: Option<seq<U>>)
    ensures r.Some? <==> forall i :: 0 <= i < |s| ==> f(s[i]).Some?
    ensures r.Some? ==> |r.value| == |s| && forall i :: 0 <= i < |s| ==> r.value[i] == f(s[i]).value
  {
    if s == [] then Some([])
    else
      var h := f(s[0]);
      var t := MapAll(s[1..], f);
      assert forall i :: 1 <= i < |s| ==> s[1..][i - 1] == s[i];
      if h.None? || t.None? then None else Some([h.value] + t.value)
  }

  lemma {:induction false} FilterKeeps<T>(s: seq<T>, p: T -> bool, x: T)
    requires x in s && p(x)
    ensures x in Filter(s, p)
  {
    if s[0] != x {
      FilterKeeps(s[1..], p, x);
    }
  }

  lemma {:induction false} FilterSnoc<T>(s: seq<T>, p: T -> bool, x: T)
    ensures Filter(s + [x], p) == Filter(s, p) + (if p(x) then [x] else [])
  {
    if s != [] {
      assert (s + [x])[1..] == s[1..] + [x];
      FilterSnoc(s[1..], p, x);
    }
  }

  lemma {:induction false} FilterIsSubsequence<T>(s: seq<T>, p: T -> bool)
    ensures IsSubsequence(Filter(s, p), s)
  {
    if s != [] {
      FilterIsSubsequence(s[1..], p);
      if p(s[0]) {
        assert Filter(s, p) == [s[0]] + Filter(s[1..], p);
        assert Filter(s, p)[1..] == Filter(s[1..], p);
      } else {
        assert Filter(s, p) == Filter(s[1..], p);
      }
    }
  }

  lemma {:induction false} FilterAll<T>(s: seq<T>, p: T -> bool)
    requires forall x :: x in s ==> p(x)
    ensures Filter(s, p) == s
  {
    if s != [] {
      FilterAll(s[1..], p);
    }
  }

  lemma {:induction false} SubsequenceTransitive<T>(a: seq<T>, b: seq<T>, c: seq<T>)
    requires IsSubsequence(a, b) && IsSubsequence(b, c)
    ensures IsSubsequence(a, c)
    decreases |c|
  {
    if a != [] {
      if b != [] && a[0] == b[0] && IsSubsequence(a[1..], b[1..]) {
        if b[0] == c[0] && IsSubsequence(b[1..], c[1..]) {
          SubsequenceTransitive(a[1..], b[1..], c[1..]);
        } else {
          SubsequenceTransitive(a, b, c[1..]);
        }
      } else {
        if b[0] == c[0] && IsSubsequence(b[1..], c[1..]) {
          SubsequenceTransitive(a, b[1..], c[1..]);
        } else {
          SubsequenceTransitive(a, b, c[1..]);
        }
      }
    }
  }

  /** `s.slice(0, n)` for a non-negative `n`. */
  function Take<T>(s: seq<T>, n: nat): (r: seq<T>)
    ensures |r| == if n < |s| then n else |s|
    ensures r <= s
  {
    if n < |s| then s[..n] else s
  }

  lemma TakeIsSubsequence<T>(s: seq<T>, n: nat)
    ensures IsSubsequence(Take(s, n), s)
  {
    PrefixIsSubsequence(Take(s, n), s);
  }

  lemma {:induction false} PrefixIsSubsequence<T>(a: seq<T>, b: seq<T>)
    requires a <= b
    ensures IsSubsequence(a, b)
  {
    if a != [] {
      PrefixIsSubsequence(a[1..], b[1..]);
    }
  }

  /** The keys carried by the elements of `s`. */
  function KeysOf<T, K>(s: seq<T>, key: T -> K): set<K>
  {
    set i | 0 <= i < |s| :: key(s[i])
  }

  /** Keeps, in order, the first element of `s` for each key: a `Set` of seen keys
      consulted inside `filter`, or `[...new Set(s)]` when the key is the element. */
  function DistinctBy<T, K(==)>(s: seq<T>, key: T -> K): (r: seq<T>)
    ensures forall x :: x in r ==> x in s
    ensures KeysOf(r, key) == KeysOf(s, key)
    ensures forall i, j :: 0 <= i < j < |r| ==> key(r[i]) != key(r[j])
  {
    if s == [] then []
    else
      var init := s[..|s| - 1];
      var r := DistinctBy(init, key);
      assert KeysOf(s, key) == KeysOf(init, key) + {key(s[|s| - 1])} by {
        assert forall i :: 0 <= i < |init| ==> init[i] == s[i];
      }
      if key(s[|s| - 1]) in KeysOf(init, key) then r
      else
        var r' := r + [s[|s| - 1]];
        assert KeysOf(r', key) == KeysOf(r, key) + {key(s[|s| - 1])} by {
          assert forall i :: 0 <= i < |r| ==> r'[i] == r[i];
          assert r'[|r|] == s[|s| - 1];
          forall k | k in KeysOf(r', key) ensures k in KeysOf(r, key) + {key(s[|s| - 1])} {
            var i :| 0 <= i < |r'| && key(r'[i]) == k;
            if i < |r| { assert key(r[i]) == k; }
          }
        }
        r'
  }

  lemma {:induction false} DistinctByIsSubsequence<T, K>(s: seq<T>, key: T -> K)
    ensures IsSubsequence(DistinctBy(s, key), s)
    decreases |s|
  {
    if s != [] {
      var init := s[..|s| - 1];
      DistinctByIsSubsequence(init, key);
      SubsequenceAppend(DistinctBy(init, key), init, s[|s| - 1]);
      assert init + [s[|s| - 1]] == s;
      if key(s[|s| - 1]) in KeysOf(init, key) {
        SubsequenceExtend(DistinctBy(init, key), init, [s[|s| - 1]]);
      }
    }
  }

  /** The keys of a filtered list are the keys of the elements that pass. */
  lemma FilterKeysOf<T, K>(s: seq<T>, p: T -> bool, key: T -> K)
    ensures KeysOf(Filter(s, p), key) == set x | x in s && p(x) :: key(x)
  {
    var r := Filter(s, p);
    forall k | k in KeysOf(r, key) ensures k in (set x | x in s && p(x) :: key(x)) {
      var i :| 0 <= i < |r| && key(r[i]) == k;
      assert r[i] in r;
    }
    forall k | k in (set x | x in s && p(x) :: key(x)) ensures k in KeysOf(r, key) {
      var x :| x in s && p(x) && key(x) == k;
      FilterKeeps(s, p, x);
      var i :| 0 <= i < |r| && r[i] == x;
    }
  }

  /** No element occurs twice. */
  predicate Distinct<T(==)>(s: seq<T>)
  {
    forall i, j :: 0 <= i < j < |s| ==> s[i] != s[j]
  }

  function Elements<T>(s: seq<T>): set<T>
  {
    set x | x in s
  }

  /** The keys of `DistinctBy`'s result, in order: each key of `s` exactly once. */
  lemma DistinctKeys<T, K>(s: seq<T>, key: T -> K)
    ensures Distinct(Map(DistinctBy(s, key), key))
    ensures Elements(Map(DistinctBy(s, key), key)) == KeysOf(s, key)
  {
    var r := DistinctBy(s, key);
    var ks := Map(r, key);
    forall k | k in ks ensures k in KeysOf(r, key) {
      var i :| 0 <= i < |ks| && ks[i] == k;
    }
  }

  /** When each result of a throwing map carries the key of its input, the keys of the
      results are the keys of the inputs, in order. */
  lemma MapAllKeys<T, U, K>(s: seq<T>, f: T -> Option<U>, key: T -> K, resultKey: U -> K)
    requires MapAll(s, f).Some?
    requires forall x :: f(x).Some? ==> resultKey(f(x).value) == key(x)
    ensures Map(MapAll(s, f).value, resultKey) == Map(s, key)
  {
  }

  /** When each result of a throwing map carries its input, the results list the inputs. */
  lemma MapAllSelf<T, U>(s: seq<T>, f: T -> Option<U>, resultKey: U -> T)
    requires MapAll(s, f).Some?
    requires forall x :: f(x).Some? ==> resultKey(f(x).value) == x
    ensures Map(MapAll(s, f).value, resultKey) == s
  {
  }

  lemma ConcatSnoc<T>(parts: seq<seq<T>>, last: seq<T>)
    ensures Concat(parts + [last]) == Concat(parts) + last
  {
    assert (parts + [last])[..|parts|] == parts;
  }

  lemma MapSnoc<T, U>(s: seq<T>, x: T, f: T -> U)
    ensures Map(s + [x], f) == Map(s, f) + [f(x)]
  {
  }

  /** Filtering a list without repeats gives a list without repeats. */
  lemma {:induction false} FilterDistinct<T>(s: seq<T>, p: T -> bool)
    requires Distinct(s)
    ensures Distinct(Filter(s, p))
  {
    if s != [] {
      var t := s[1..];
      assert forall i, j :: 0 <= i < j < |t| ==> t[i] == s[i + 1] && t[j] == s[j + 1];
      FilterDistinct(t, p);
      var rest := Filter(t, p);
      if p(s[0]) {
        var r := [s[0]] + rest;
        assert Filter(s, p) == r;
        forall i, j | 0 <= i < j < |r| ensures r[i] != r[j] {
          if i > 0 {
            assert r[i] == rest[i - 1] && r[j] == rest[j - 1];
            assert rest[i - 1] != rest[j - 1];
          } else {
            assert r[j] == rest[j - 1];
            assert rest[j - 1] in rest;
          }
        }
      }
    }
  }

  /** Filtering distributes over concatenation. */
  lemma {:induction false} FilterAppend<T>(a: seq<T>, b: seq<T>, p: T -> bool)
    ensures Filter(a + b, p) == Filter(a, p) + Filter(b, p)
  {
    if a != [] {
      assert (a + b)[1..] == a[1..] + b;
      FilterAppend(a[1..], b, p);
    } else {
      assert a + b == b;
    }
  }

  /** The index of the first element of `s` carrying key `k`. */
  function FirstIndex<T, K(==)>(s: seq<T>, key: T -> K, k: K): (i: nat)
    requires k in KeysOf(s, key)
    ensures i < |s| && key(s[i]) == k
    ensures forall j :: 0 <= j < i ==> key(s[j]) != k
    decreases |s|
  {
    var init := s[..|s| - 1];
    if k in KeysOf(init, key) then FirstIndex(init, key, k)
    else
      assert forall j :: 0 <= j < |init| ==> init[j] == s[j] && key(init[j]) in KeysOf(init, key);
      |s| - 1
  }

  /** `DistinctBy` keeps, for each key, the element at its first index, and lists the keys
      in the order of their first appearance. */
  lemma {:induction false} DistinctByFirst<T, K>(s: seq<T>, key: T -> K)
    ensures forall i :: 0 <= i < |DistinctBy(s, key)| ==>
      key(DistinctBy(s, key)[i]) in KeysOf(s, key) &&
      DistinctBy(s, key)[i] == s[FirstIndex(s, key, key(DistinctBy(s, key)[i]))]
    ensures forall i, j :: 0 <= i < j < |DistinctBy(s, key)| ==>
      FirstIndex(s, key, key(DistinctBy(s, key)[i])) < FirstIndex(s, key, key(DistinctBy(s, key)[j]))
    decreases |s|
  {
    if s != [] {
      var init := s[..|s| - 1];
      var x := s[|s| - 1];
      var r0 := DistinctBy(init, key);
      var r := DistinctBy(s, key);
      DistinctByFirst(init, key);
      assert forall j :: 0 <= j < |init| ==> init[j] == s[j];
      assert KeysOf(init, key) <= KeysOf(s, key);
      forall i | 0 <= i < |r0|
        ensures key(r0[i]) in KeysOf(init, key)
        ensures FirstIndex(s, key, key(r0[i])) == FirstIndex(init, key, key(r0[i])) < |init|
      {
      }
      forall i, j | 0 <= i < j < |r0|
        ensures FirstIndex(s, key, key(r0[i])) < FirstIndex(s, key, key(r0[j]))
      {
        assert FirstIndex(init, key, key(r0[i])) < FirstIndex(init, key, key(r0[j]));
      }
      if key(x) !in KeysOf(init, key) {
        assert r == r0 + [x];
        assert key(x) in KeysOf(s, key);
        assert FirstIndex(s, key, key(x)) == |s| - 1;
        forall i, j | 0 <= i < j < |r|
          ensures FirstIndex(s, key, key(r[i])) < FirstIndex(s, key, key(r[j]))
        {
          assert r[i] == r0[i];
          if j < |r0| {
            assert r[j] == r0[j];
          }
        }
      } else {
        assert r == r0;
      }
    }
  }

  /** The first element of `s` carrying a given key is the one `DistinctBy` keeps. */
  lemma {:induction false} DistinctByKeepsFirst<T, K>(s: seq<T>, key: T -> K, i: nat)
    requires i < |s| && key(s[i]) !in KeysOf(s[..i], key)
    ensures s[i] in DistinctBy(s, key)
    decreases |s|
  {
    var init := s[..|s| - 1];
    if i < |s| - 1 {
      assert init[..i] == s[..i];
      DistinctByKeepsFirst(init, key, i);
    } else {
      assert init == s[..i];
    }
  }

  lemma {:induction false} SubsequenceAppend<T>(a: seq<T>, b: seq<T>, x: T)
    requires IsSubsequence(a, b)
    ensures IsSubsequence(a + [x], b + [x])
    decreases |b|
  {
    if a == [] {
      SubsequenceReflexive([x]);
      SubsequencePrepend([x], b, [x]);
      assert a + [x] == [x];
    } else if a[0] == b[0] && IsSubsequence(a[1..], b[1..]) {
      SubsequenceAppend(a[1..], b[1..], x);
      assert (a + [x])[1..] == a[1..] + [x];
      assert (b + [x])[1..] == b[1..] + [x];
    } else {
      SubsequenceAppend(a, b[1..], x);
      assert (b + [x])[1..] == b[1..] + [x];
    }
  }

  lemma {:induction false} SubsequenceReflexive<T>(a: seq<T>)
    ensures IsSubsequence(a, a)
  {
    if a != [] {
      SubsequenceReflexive(a[1..]);
    }
  }

  lemma {:induction false} SubsequencePrepend<T>(a: seq<T>, b: seq<T>, c: seq<T>)
    requires IsSubsequence(a, c)
    ensures IsSubsequence(a, b + c)
    decreases |b|
  {
    if b == [] {
      assert b + c == c;
    } else {
      SubsequencePrepend(a, b[1..], c);
      assert (b + c)[1..] == b[1..] + c;
    }
  }

  lemma {:induction false} SubsequenceExtend<T>(a: seq<T>, b: seq<T>, c: seq<T>)
    requires IsSubsequence(a, b)
    ensures IsSubsequence(a, b + c)
    decreases |b|
  {
    if a != [] {
      if a[0] == b[0] && IsSubsequence(a[1..], b[1..]) {
        SubsequenceExtend(a[1..], b[1..], c);
      } else {
        SubsequenceExtend(a, b[1..], c);
      }
      assert (b + c)[1..] == b[1..] + c;
    }
  }

  lemma {:induction false} SubsequenceConcat<T>(a: seq<T>, b: seq<T>, c: seq<T>, d: seq<T>)
    requires IsSubsequence(a, b) && IsSubsequence(c, d)
    ensures IsSubsequence(a + c, b + d)
    decreases |b|
  {
    if a == [] {
      SubsequencePrepend(c, b, d);
      assert a + c == c;
    } else if a[0] == b[0] && IsSubsequence(a[1..], b[1..]) {
      SubsequenceConcat(a[1..], b[1..], c, d);
      assert (a + c)[1..] == a[1..] + c;
      assert (b + d)[1..] == b[1..] + d;
    } else {
      SubsequenceConcat(a, b[1..], c, d);
      assert (b + d)[1..] == b[1..] + d;
    }
  }

  lemma AppendAssoc<T>(a: seq<T>, b: seq<T>, c: seq<T>)
    ensures (a + b) + c == a + (b + c)
  {
  }

  /** `s.reverse()` on a copy. */
  function Reverse<T>(s: seq<T>): (r: seq<T>)
    ensures |r| == |s|
    ensures forall i :: 0 <= i < |s| ==> r[i] == s[|s| - 1 - i]
  {
    if s == [] then [] else [s[|s| - 1]] + Reverse(s[..|s| - 1])
  }

  /** `pairs.reduce((acc, [k, v]) => { acc[k] = v; return acc; }, {})`: every key of the
      pairs, bound to the value of its last pair. */
  function Assign<K(==), V>(pairs: seq<(K, V)>): map<K, V>
  {
    if pairs == [] then map[]
    else Assign(pairs[..|pairs| - 1])[pairs[|pairs| - 1].0 := pairs[|pairs| - 1].1]
  }

  lemma {:induction false} AssignKeys<K, V>(pairs: seq<(K, V)>, k: K)
    ensures k in Assign(pairs) <==> exists i :: 0 <= i < |pairs| && pairs[i].0 == k
  {
    if pairs != [] {
      var init := pairs[..|pairs| - 1];
      AssignKeys(init, k);
      if k in Assign(init) {
        var i :| 0 <= i < |init| && init[i].0 == k;
        assert pairs[i] == init[i];
      }
      if exists i :: 0 <= i < |pairs| && pairs[i].0 == k {
        var i :| 0 <= i < |pairs| && pairs[i].0 == k;
        if i < |init| {
          assert init[i] == pairs[i];
        }
      }
    }
  }

  lemma {:induction false} AssignLast<K, V>(pairs: seq<(K, V)>, i: nat)
    requires i < |pairs| && forall j :: i < j < |pairs| ==> pairs[j].0 != pairs[i].0
    ensures pairs[i].0 in Assign(pairs) && Assign(pairs)[pairs[i].0] == pairs[i].1
  {
    var init := pairs[..|pairs| - 1];
    if i < |pairs| - 1 {
      assert init[i] == pairs[i];
      forall j | i < j < |init| ensures init[j].0 != init[i].0 {
        assert init[j] == pairs[j];
      }
      AssignLast(init, i);
    }
  }

  /** `[].concat(...parts)`: the in-order concatenation of the parts. */
  function Concat<T>(parts: seq<seq<T>>): (r: seq<T>)
  {
    if parts == [] then [] else Concat(parts[..|parts| - 1]) + parts[|parts| - 1]
  }

  lemma {:induction false} ConcatLength<T>(parts: seq<seq<T>>, total: nat)
    requires total == SumLengths(parts)
    ensures |Concat(parts)| == total
  {
    if parts != [] {
      ConcatLength(parts[..|parts| - 1], SumLengths(parts[..|parts| - 1]));
    }
  }

  function SumLengths<T>(parts: seq<seq<T>>): nat
  {
    if parts == [] then 0 else SumLengths(parts[..|parts| - 1]) + |parts[|parts| - 1]|
  }

  // ---------------------------------------------------------------------------
  // Strings

  /** `/^-/.test(s)`: the sentinel prefix of a withdrawn stop or service. */
  predicate IsWithdrawn(s: string)
  {
    |s| > 0 && s[0] == '-'
  }

  /** `s.includes(sub)`. */
  predicate Includes(s: string, sub: string)
    decreases |s|
  {
    sub <= s || (s != [] && Includes(s[1..], sub))
  }

  lemma {:induction false} IncludesAt(s: string, sub: string, i: nat)
    requires i + |sub| <= |s| && s[i..i + |sub|] == sub
    ensures Includes(s, sub)
    decreases i
  {
    if i > 0 {
      assert s[1..][i - 1..i - 1 + |sub|] == sub;
      IncludesAt(s[1..], sub, i - 1);
    }
  }

  /** `parts.join(sep)`. */
  function Join(parts: seq<string>, sep: string): string
  {
    if parts == [] then ""
    else if |parts| == 1 then parts[0]
    else parts[0] + sep + Join(parts[1..], sep)
  }

  function IndexOf(s: string, c: char): (i: nat)
    requires c in s
    ensures i < |s| && s[i] == c && c !in s[..i]
  {
    if s[0] == c then 0 else 1 + IndexOf(s[1..], c)
  }

  function LastIndexOf(s: string, c: char): (i: nat)
    requires c in s
    ensures i < |s| && s[i] == c && c !in s[i + 1..]
  {
    if s[|s| - 1] == c then |s| - 1 else LastIndexOf(s[..|s| - 1], c)
  }

  /** `s.split(c)` for a one-character separator. */
  function Split(s: string, c: char): (r: seq<string>)
    ensures |r| >= 1
    ensures forall p :: p in r ==> c !in p
    decreases |s|
  {
    if c !in s then [s]
    else
      var i := IndexOf(s, c);
      [s[..i]] + Split(s[i + 1..], c)
  }

  lemma AroundIndex<T>(s: seq<T>, i: nat)
    requires i < |s|
    ensures s == s[..i] + [s[i]] + s[i + 1..]
  {
  }

  lemma JoinCons(p: string, rest: seq<string>, sep: string)
    requires |rest| >= 1
    ensures Join([p] + rest, sep) == p + sep + Join(rest, sep)
  {
    assert ([p] + rest)[1..] == rest;
  }

  /** Joining the pieces with the separator gives the string back. */
  lemma {:induction false} JoinSplit(s: string, c: char)
    ensures Join(Split(s, c), [c]) == s
    decreases |s|
  {
    if c in s {
      var i := IndexOf(s, c);
      var rest := Split(s[i + 1..], c);
      assert Split(s, c) == [s[..i]] + rest;
      JoinSplit(s[i + 1..], c);
      JoinCons(s[..i], rest, [c]);
      AroundIndex(s, i);
    }
  }

  lemma {:induction false} IndexOfFirst(p: string, c: char, rest: string)
    requires c !in p
    ensures IndexOf(p + [c] + rest, c) == |p|
  {
    if p != [] {
      assert (p + [c] + rest)[1..] == p[1..] + [c] + rest;
      IndexOfFirst(p[1..], c, rest);
    }
  }

  /** Four comma-free parts joined by commas split back into themselves. */
  lemma SplitFour(a: string, b: string, c: string, d: string)
    requires ',' !in a && ',' !in b && ',' !in c && ',' !in d
    ensures Split(Join([a, b, c, d], ","), ',') == [a, b, c, d]
  {
    SplitJoin([a, b, c, d], ',');
    assert ([a, b, c, d])[1..] == [b, c, d];
  }

  /** Splitting a join at a separator that occurs in no part gives the parts back. */
  lemma {:induction false} SplitJoin(parts: seq<string>, c: char)
    requires |parts| >= 1 && forall i :: 0 <= i < |parts| ==> c !in parts[i]
    ensures Split(Join(parts, [c]), c) == parts
  {
    if |parts| > 1 {
      var s := Join(parts, [c]);
      var p := parts[0];
      assert parts == [p] + parts[1..];
      JoinCons(p, parts[1..], [c]);
      assert s[|p|] == c;
      IndexOfFirst(p, c, Join(parts[1..], [c]));
      var i := IndexOf(s, c);
      assert s[..i] == p;
      assert s[i + 1..] == Join(parts[1..], [c]);
      SplitJoin(parts[1..], c);
    } else {
      assert parts == [parts[0]];
    }
  }
}
