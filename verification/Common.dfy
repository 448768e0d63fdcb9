/** Shared vocabulary: optional values, and sums over sequences with the few laws the proofs need. */
module Common {

  datatype Option<+T> = None | Some(value: T)

  function Max(a: int, b: int): int { if a < b then b else a }

  function Abs(a: int): int { if a < 0 then -a else a }

  /** dict.get(key, default) */
  function GetOr<K, V>(m: map<K, V>, k: K, default: V): V { if k in m then m[k] else default }

  /** The sum of `f` over `s`, from the front: a history grows at its end. */
  function Sum<T>(f: T -> int, s: seq<T>): int
  {
    if s == [] then 0 else Sum(f, s[..|s| - 1]) + f(s[|s| - 1])
  }

  lemma SumSnoc<T>(f: T -> int, s: seq<T>, x: T)
    ensures Sum(f, s + [x]) == Sum(f, s) + f(x)
  {
    assert (s + [x])[..|s|] == s;
  }

  lemma {:induction false} SumConcat<T>(f: T -> int, s: seq<T>, t: seq<T>)
    ensures Sum(f, s + t) == Sum(f, s) + Sum(f, t)
  {
    if t == [] {
      assert s + t == s;
    } else {
      var u, x := t[..|t| - 1], t[|t| - 1];
      assert s + t == (s + u) + [x];
      SumSnoc(f, s + u, x);
      SumConcat(f, s, u);
    }
  }

  lemma SumOne<T>(f: T -> int, x: T)
    ensures Sum(f, [x]) == f(x)
  {
    assert [x][..0] == [];
  }

  /** Cutting the element at `k` out of `s`. */
  function Without<T>(s: seq<T>, k: nat): (r: seq<T>)
    requires k < |s|
    ensures |r| == |s| - 1
  {
    s[..k] + s[k + 1..]
  }

  lemma WithoutMembers<T>(s: seq<T>, k: nat)
    requires k < |s|
    ensures multiset(s) == multiset(Without(s, k)) + multiset{s[k]}
    ensures forall x :: x in s <==> x in Without(s, k) || x == s[k]
  {
    assert s == s[..k] + [s[k]] + s[k + 1..];
  }

  lemma SumMiddle<T>(f: T -> int, s: seq<T>, x: T, t: seq<T>)
    ensures Sum(f, s + [x] + t) == Sum(f, s + t) + f(x)
  {
    hide Sum;
    SumConcat(f, s + [x], t);
    SumSnoc(f, s, x);
    SumConcat(f, s, t);
  }

  lemma Split<T>(s: seq<T>, k: nat)
    requires k < |s|
    ensures s == s[..k] + [s[k]] + s[k + 1..]
  {
  }

  lemma SumWithout<T>(f: T -> int, s: seq<T>, k: nat)
    requires k < |s|
    ensures Sum(f, s) == Sum(f, Without(s, k)) + f(s[k])
  {
    Split(s, k);
    hide Sum;
    SumMiddle(f, s[..k], s[k], s[k + 1..]);
  }

  lemma SumUpdate<T>(f: T -> int, s: seq<T>, k: nat, x: T)
    requires k < |s|
    ensures Sum(f, s[k := x]) == Sum(f, s) - f(s[k]) + f(x)
  {
    SumWithout(f, s, k);
    SumWithout(f, s[k := x], k);
    assert Without(s[k := x], k) == Without(s, k);
  }

  lemma SameMembers<T>(s: seq<T>, t: seq<T>)
    requires multiset(s) == multiset(t)
    ensures |s| == |t|
    ensures forall x :: x in s <==> x in t
  {
    assert |multiset(s)| == |multiset(t)|;
    forall x ensures x in s <==> x in t {
      assert x in s <==> x in multiset(s);
      assert x in t <==> x in multiset(t);
    }
  }

  lemma SameTails<T>(s: seq<T>, t: seq<T>)
    requires s != [] && t != [] && s[0] == t[0] && multiset(s) == multiset(t)
    ensures multiset(s[1..]) == multiset(t[1..])
  {
    assert s == [s[0]] + s[1..] && t == [t[0]] + t[1..];
    assert multiset(s[1..]) == multiset(s) - multiset{s[0]};
    assert multiset(t[1..]) == multiset(t) - multiset{t[0]};
  }

  /** A sum does not depend on the order of its terms. */
  lemma {:induction false} SumPermutation<T>(f: T -> int, s: seq<T>, t: seq<T>)
    requires multiset(s) == multiset(t)
    ensures Sum(f, s) == Sum(f, t)
    decreases |s|
  {
    SameMembers(s, t);
    if s != [] {
      var n := |s| - 1;
      assert s[n] in multiset(s);
      assert s[n] in t;
      var k :| 0 <= k < |t| && t[k] == s[n];
      assert s == s[..n] + [s[n]];
      WithoutMembers(t, k);
      assert multiset(s[..n]) == multiset(s) - multiset{s[n]} == multiset(Without(t, k));
      SumPermutation(f, s[..n], Without(t, k));
      SumWithout(f, t, k);
    }
  }

  lemma {:induction false} SumEqual<T>(f: T -> int, g: T -> int, s: seq<T>)
    requires forall x | x in s :: f(x) == g(x)
    ensures Sum(f, s) == Sum(g, s)
  {
    if s != [] { SumEqual(f, g, s[..|s| - 1]); }
  }

  lemma {:induction false} SumAtMost<T>(f: T -> int, g: T -> int, s: seq<T>)
    requires forall x | x in s :: f(x) <= g(x)
    ensures Sum(f, s) <= Sum(g, s)
  {
    if s != [] { SumAtMost(f, g, s[..|s| - 1]); }
  }

  lemma {:induction false} SumPlus<T>(f: T -> int, g: T -> int, h: T -> int, s: seq<T>)
    requires forall x | x in s :: h(x) == f(x) + g(x)
    ensures Sum(h, s) == Sum(f, s) + Sum(g, s)
  {
    if s != [] { SumPlus(f, g, h, s[..|s| - 1]); }
  }

  lemma {:induction false} SumConst<T>(f: T -> int, c: int, s: seq<T>)
    requires forall x | x in s :: f(x) == c
    ensures Sum(f, s) == c * |s|
  {
    if s != [] { SumConst(f, c, s[..|s| - 1]); }
  }

  predicate Distinct<T(==)>(s: seq<T>) { forall i, j | 0 <= i < j < |s| :: s[i] != s[j] }

  /** Two functions that differ at one element of a duplicate-free sequence. */
  lemma {:induction false} SumDiffer<T>(f: T -> int, g: T -> int, s: seq<T>, x: T)
    requires Distinct(s) && x in s
    requires forall y | y in s && y != x :: f(y) == g(y)
    ensures Sum(g, s) == Sum(f, s) - f(x) + g(x)
  {
    var k :| 0 <= k < |s| && s[k] == x;
    SumWithout(f, s, k);
    SumWithout(g, s, k);
    forall y | y in Without(s, k) ensures f(y) == g(y) {
      assert y in s && y != x;
    }
    SumEqual(f, g, Without(s, k));
  }

  /** `f` with `d` added at `x`. */
  function Bump<T(==)>(f: T -> int, x: T, d: int): T -> int { (y: T) => f(y) + if y == x then d else 0 }

  lemma SumBump<T>(f: T -> int, x: T, d: int, s: seq<T>)
    requires Distinct(s) && x in s
    ensures Sum(Bump(f, x, d), s) == Sum(f, s) + d
  {
    SumDiffer(f, Bump(f, x, d), s, x);
  }

  lemma BumpTwice<T>(f: T -> int, x: T, d: int, y: T, e: int, s: seq<T>, g: T -> int)
    requires Distinct(s) && x in s && y in s
    requires forall z | z in s :: g(z) == Bump(Bump(f, x, d), y, e)(z)
    ensures Sum(g, s) == Sum(f, s) + d + e
  {
    SumBump(f, x, d, s);
    SumBump(Bump(f, x, d), y, e, s);
    SumEqual(Bump(Bump(f, x, d), y, e), g, s);
  }
}
