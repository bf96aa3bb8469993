/** Shared vocabulary: an optional value, rounded division, and sums over a sequence. */
module Common {
  datatype Option<+T> = None | Some(value: T)

  function Min(a: int, b: int): (r: int) { if a < b then a else b }

  function Times(a: nat, b: nat): (r: nat) { a * b }

  function FloorDiv(a: nat, d: nat): (q: nat)
    requires d > 0
  {
    a / d
  }

  lemma DivFacts(a: nat, d: nat)
    requires d > 0
    ensures Times(d, FloorDiv(a, d)) <= a < Times(d, FloorDiv(a, d) + 1)
  {
  }

  lemma MulMono(d: nat, a: nat, b: nat)
    requires a <= b
    ensures Times(d, a) <= Times(d, b) && Times(a, d) <= Times(b, d)
  {
  }

  /** The rounded quotient stays below q exactly when q whole divisors do not fit. */
  lemma DivBelow(a: nat, d: nat, q: nat)
    requires d > 0
    ensures FloorDiv(a, d) < q <==> a < Times(d, q)
  {
    DivFacts(a, d);
    if FloorDiv(a, d) < q { MulMono(d, FloorDiv(a, d) + 1, q); } else { MulMono(d, q, FloorDiv(a, d)); }
  }

  function Sum<T>(s: seq<T>, f: T -> int): (r: int) {
    if s == [] then 0 else Sum(s[..|s| - 1], f) + f(s[|s| - 1])
  }

  lemma {:induction false} SumUpdate<T>(s: seq<T>, f: T -> int, i: nat, x: T)
    requires i < |s|
    ensures Sum(s[i := x], f) == Sum(s, f) - f(s[i]) + f(x)
    decreases |s|
  {
    var n := |s| - 1;
    if i == n { assert s[i := x][..n] == s[..n]; }
    else { SumUpdate(s[..n], f, i, x); assert s[i := x][..n] == s[..n][i := x]; }
  }

  lemma SumAppend<T>(s: seq<T>, f: T -> int, x: T)
    ensures Sum(s + [x], f) == Sum(s, f) + f(x)
  {
    assert (s + [x])[..|s|] == s;
  }

  lemma {:induction false} SumNegated<T>(s: seq<T>, f: T -> int, g: T -> int)
    requires forall i :: 0 <= i < |s| ==> g(s[i]) == -f(s[i])
    ensures Sum(s, g) == -Sum(s, f)
    decreases |s|
  {
    if s != [] { SumNegated(s[..|s| - 1], f, g); }
  }

  /** A sum of terms that all lie between two bounds. */
  lemma {:induction false} SumBounds<T>(s: seq<T>, f: T -> int, low: int, high: int)
    requires forall i :: 0 <= i < |s| ==> low <= f(s[i]) <= high
    ensures low * |s| <= Sum(s, f) <= high * |s|
    decreases |s|
  {
    if s != [] {
      var n := |s| - 1;
      forall i | 0 <= i < n ensures low <= f(s[..n][i]) <= high { assert s[..n][i] == s[i]; }
      SumBounds(s[..n], f, low, high);
      assert low * |s| == low * n + low && high * |s| == high * n + high;
    }
  }
}
