/** Small shared vocabulary. */
module Basics {
  datatype Option<+T> = None | Some(value: T)

  function Min(a: int, b: int): int { if a <= b then a else b }

  function Max(a: int, b: int): int { if a >= b then a else b }

  function MinReal(a: real, b: real): real { if a <= b then a else b }

  /** Python's `abs` on a real. */
  function Abs(x: real): real { if x < 0.0 then -x else x }

  /** Python's `round(x)`: to the nearest integer, ties to the even one. */
  function RoundHalfEven(x: real): (n: int)
    ensures -0.5 <= n as real - x <= 0.5
    ensures Abs(n as real - x) == 0.5 ==> n % 2 == 0
  {
    var f := x.Floor;
    var d := x - f as real;
    if d < 0.5 || (d == 0.5 && f % 2 == 0) then f else f + 1
  }

  /** Within half a unit of an integer there is only one answer. */
  lemma RoundsTo(x: real, n: int)
    requires Abs(x - n as real) < 0.5
    ensures RoundHalfEven(x) == n
  {
    var r := RoundHalfEven(x);
    assert -1.0 < (r - n) as real < 1.0;
  }

  /** `a` is `b` with some elements left out. */
  predicate Subsequence<T(==)>(a: seq<T>, b: seq<T>) {
    || a == []
    || (b != []
        && (|| Subsequence(a, b[..|b| - 1])
            || (a[|a| - 1] == b[|b| - 1] && Subsequence(a[..|a| - 1], b[..|b| - 1]))))
  }

  /** Leaving out one more element. */
  lemma {:induction false} SubsequenceDrop<T>(before: seq<T>, x: T, behind: seq<T>, b: seq<T>)
    requires Subsequence(before + [x] + behind, b)
    ensures Subsequence(before + behind, b)
    decreases |b|
  {
    var a := before + [x] + behind;
    if b != [] {
      var b' := b[..|b| - 1];
      if Subsequence(a, b') {
        SubsequenceDrop(before, x, behind, b');
      } else if behind == [] {
        assert a[..|a| - 1] == before && before + behind == before;
      } else {
        var behind' := behind[..|behind| - 1];
        assert a[..|a| - 1] == before + [x] + behind';
        SubsequenceDrop(before, x, behind', b');
        assert (before + behind)[..|before + behind| - 1] == before + behind';
      }
    }
  }

  lemma {:induction false} SubsequenceConcat<T>(a: seq<T>, b: seq<T>, a': seq<T>, b': seq<T>)
    requires Subsequence(a, b) && Subsequence(a', b')
    ensures Subsequence(a + a', b + b')
    decreases |b'|
  {
    if b' == [] {
      assert a + a' == a && b + b' == b;
    } else {
      var whole, init := b + b', b'[..|b'| - 1];
      assert whole[..|whole| - 1] == b + init;
      if a' == [] || Subsequence(a', init) {
        SubsequenceConcat(a, b, a', init);
      } else {
        SubsequenceConcat(a, b, a'[..|a'| - 1], init);
        assert (a + a')[..|a + a'| - 1] == a + a'[..|a'| - 1];
      }
    }
  }
}
