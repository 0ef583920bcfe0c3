/** Small shared datatypes: a value that may be missing (NaN, None) and an operation that may raise. */
module Values {

  datatype Option<+T> = None | Some(value: T)

  datatype Result<+T, +E> = Ok(value: T) | Err(error: E)

  function Max(a: int, b: int): int {
    if a >= b then a else b
  }

  function MinReal(a: real, b: real): real {
    if a <= b then a else b
  }

  function MaxReal(a: real, b: real): real {
    if a >= b then a else b
  }

  function Abs(x: real): real {
    if x >= 0.0 then x else -x
  }

  /** The value, moved to the nearer end of an interval it lies outside of. */
  function Clip(x: real, low: real, high: real): real {
    MinReal(MaxReal(x, low), high)
  }

  /** The elements other than `x`, in order. */
  function Without<T(==)>(xs: seq<T>, x: T): seq<T> {
    if xs == [] then []
    else Without(xs[..|xs| - 1], x) + if xs[|xs| - 1] == x then [] else [xs[|xs| - 1]]
  }

  lemma {:induction false} WithoutOne<T>(xs: seq<T>, x: T, last: T)
    ensures Without(xs + [last], x) == Without(xs, x) + if last == x then [] else [last]
  {
    assert (xs + [last])[..|xs + [last]| - 1] == xs;
  }

  lemma {:induction false} WithoutConcat<T>(a: seq<T>, b: seq<T>, x: T)
    ensures Without(a + b, x) == Without(a, x) + Without(b, x)
    decreases |b|
  {
    if b == [] {
      assert a + b == a;
    } else {
      assert (a + b)[..|a + b| - 1] == a + b[..|b| - 1];
      WithoutConcat(a, b[..|b| - 1], x);
    }
  }
}
