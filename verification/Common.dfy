/** Small definitions every other module uses: an option type, truncated subtraction, and sums
    over sequences. */
module Common {

  const U64_MAX: nat := 0xFFFF_FFFF_FFFF_FFFF

  datatype Option<+T> = None | Some(value: T)

  function Min(a: int, b: int): int {
    if a <= b then a else b
  }

  function Max(a: int, b: int): int {
    if a >= b then a else b
  }

  /** `saturating_sub` on unsigned integers. */
  function Monus(a: nat, b: nat): nat {
    if a >= b then a - b else 0
  }

  /** `u64::saturating_add`. */
  function SatAdd(a: nat, b: nat): nat {
    if a + b <= U64_MAX then a + b else U64_MAX
  }

  function Minimum(s: seq<nat>): nat
    requires s != []
  {
    if |s| == 1 then s[0] else Min(Minimum(s[..|s| - 1]), s[|s| - 1])
  }

  predicate IsLeast(s: seq<nat>, m: nat) {
    m in s && forall x <- s :: m <= x
  }

  lemma {:induction false} LeastIsMinimum(s: seq<nat>, m: nat)
    requires IsLeast(s, m)
    ensures m == Minimum(s)
  {
    if |s| > 1 {
      var front, last := s[..|s| - 1], s[|s| - 1];
      MinimumIsLeast(front);
      assert Minimum(front) in s && last in s;
      assert m in front || m == last;
    }
  }

  lemma {:induction false} MinimumIsLeast(s: seq<nat>)
    requires s != []
    ensures IsLeast(s, Minimum(s))
  {
    if |s| > 1 {
      var front, last := s[..|s| - 1], s[|s| - 1];
      MinimumIsLeast(front);
      forall x | x in s ensures Minimum(s) <= x {
        assert x in front || x == last;
      }
    }
  }

  lemma LeastMore(s: seq<nat>, m: nat, x: nat)
    requires s == [] || IsLeast(s, m)
    ensures IsLeast(s + [x], if s == [] then x else Min(m, x))
  {
  }

  function Sum<T>(s: seq<T>, f: T -> int): int {
    if s == [] then 0 else Sum(s[..|s| - 1], f) + f(s[|s| - 1])
  }

  lemma SumSnoc<T>(s: seq<T>, x: T, f: T -> int)
    ensures Sum(s + [x], f) == Sum(s, f) + f(x)
  {
    assert (s + [x])[..|s|] == s;
  }

  lemma {:induction false} SumConcat<T>(s: seq<T>, t: seq<T>, f: T -> int)
    ensures Sum(s + t, f) == Sum(s, f) + Sum(t, f)
  {
    if t == [] {
      assert s + t == s;
    } else {
      assert (s + t)[..|s + t| - 1] == s + t[..|t| - 1];
      SumConcat(s, t[..|t| - 1], f);
    }
  }

  /** Replacing one element moves the sum by the difference of the two terms. */
  lemma {:induction false} SumUpdate<T>(s: seq<T>, i: nat, x: T, f: T -> int)
    requires i < |s|
    ensures Sum(s[i := x], f) == Sum(s, f) - f(s[i]) + f(x)
  {
    var n := |s| - 1;
    if i == n {
      assert s[i := x][..n] == s[..n];
    } else {
      assert s[i := x][..n] == s[..n][i := x];
      SumUpdate(s[..n], i, x, f);
    }
  }

  lemma {:induction false} SumBounds<T>(s: seq<T>, f: T -> int, i: nat)
    requires i < |s|
    requires forall x <- s :: f(x) >= 0
    ensures 0 <= f(s[i]) <= Sum(s, f)
  {
    var n := |s| - 1;
    if i < n {
      SumBounds(s[..n], f, i);
    } else {
      SumNonNegative(s[..n], f);
    }
  }

  lemma {:induction false} SumNonNegative<T>(s: seq<T>, f: T -> int)
    requires forall x <- s :: f(x) >= 0
    ensures Sum(s, f) >= 0
  {
    if s != [] {
      SumNonNegative(s[..|s| - 1], f);
    }
  }

  lemma {:induction false} SumZero<T>(s: seq<T>, f: T -> int)
    requires forall x <- s :: f(x) == 0
    ensures Sum(s, f) == 0
  {
    if s != [] {
      SumZero(s[..|s| - 1], f);
    }
  }
}
