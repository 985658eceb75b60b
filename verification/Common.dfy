/** Small shared vocabulary: optional values, sums over sequences, and concatenation. */
module Common {

  datatype Option<+T> = None | Some(value: T)

  function Max(a: int, b: int): int {
    if a >= b then a else b
  }

  function Min(a: int, b: int): int {
    if a <= b then a else b
  }

  /** The sum of f over s.  The last element is outermost because tables grow at the end. */
  function Sum<T>(s: seq<T>, f: T -> int): int {
    if s == [] then 0 else Sum(s[..|s| - 1], f) + f(s[|s| - 1])
  }

  lemma SumSnoc<T>(s: seq<T>, x: T, f: T -> int)
    ensures Sum(s + [x], f) == Sum(s, f) + f(x)
  {
    assert (s + [x])[..|s|] == s;
  }

  lemma {:induction false} SumUpdate<T>(s: seq<T>, i: nat, x: T, f: T -> int)
    requires i < |s|
    ensures Sum(s[i := x], f) == Sum(s, f) - f(s[i]) + f(x)
  {
    var n := |s| - 1;
    if i == n {
      assert s[i := x][..n] == s[..n];
    } else {
      SumUpdate(s[..n], i, x, f);
      assert s[i := x][..n] == s[..n][i := x];
    }
  }

  /** Two functions that agree on every element have the same sum. */
  lemma {:induction false} SumAgree<T>(s: seq<T>, f: T -> int, g: T -> int)
    requires forall i :: 0 <= i < |s| ==> f(s[i]) == g(s[i])
    ensures Sum(s, f) == Sum(s, g)
  {
    if s != [] {
      SumAgree(s[..|s| - 1], f, g);
    }
  }

  /** A sum of nonnegative terms is at least each of its terms. */
  lemma {:induction false} SumAtLeast<T>(s: seq<T>, f: T -> int)
    requires forall i :: 0 <= i < |s| ==> f(s[i]) >= 0
    ensures Sum(s, f) >= 0
    ensures forall i :: 0 <= i < |s| ==> Sum(s, f) >= f(s[i])
  {
    if s != [] {
      SumAtLeast(s[..|s| - 1], f);
      assert forall i :: 0 <= i < |s| - 1 ==> s[..|s| - 1][i] == s[i];
    }
  }

  /** A sum of zeros is zero. */
  lemma {:induction false} SumZero<T>(s: seq<T>, f: T -> int)
    requires forall i :: 0 <= i < |s| ==> f(s[i]) == 0
    ensures Sum(s, f) == 0
  {
    if s != [] {
      SumZero(s[..|s| - 1], f);
    }
  }

  /** f and g differ at exactly one position of s. */
  lemma {:induction false} SumDiffersAt<T>(s: seq<T>, i: nat, f: T -> int, g: T -> int)
    requires i < |s|
    requires forall j :: 0 <= j < |s| && j != i ==> f(s[j]) == g(s[j])
    ensures Sum(s, f) - Sum(s, g) == f(s[i]) - g(s[i])
  {
    var n := |s| - 1;
    if i == n {
      SumAgree(s[..n], f, g);
    } else {
      SumDiffersAt(s[..n], i, f, g);
    }
  }

  /** All parts, one after the other. */
  function Concat<T>(parts: seq<seq<T>>): seq<T> {
    if parts == [] then [] else Concat(parts[..|parts| - 1]) + parts[|parts| - 1]
  }

  lemma {:induction false} ConcatAppend<T>(a: seq<seq<T>>, b: seq<seq<T>>)
    ensures Concat(a + b) == Concat(a) + Concat(b)
  {
    if b == [] {
      assert a + b == a;
    } else {
      var n := |b| - 1;
      ConcatAppend(a, b[..n]);
      assert (a + b)[..|a + b| - 1] == a + b[..n];
    }
  }
}
