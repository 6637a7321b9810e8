/**
  Java's 32-bit `int` and the two kinds of failure the box algorithms raise:
  `Math.addExact`/`Math.subtractExact` throw on 32-bit overflow, and the
  precondition checks (`Assertive.require`, also used by `Box.of`) throw a
  require violation. Exceptions are modelled as the `Err` case of `Result`.
 */
module JavaInt {

  const IntMin: int := -0x8000_0000
  const IntMax: int := 0x7fff_ffff

  /** True iff `v` is representable as a Java `int`. */
  predicate InRange(v: int) {
    IntMin <= v <= IntMax
  }

  type Int32 = v: int | IntMin <= v <= IntMax

  /** The exceptions the box algorithms can raise. */
  datatype Error =
    | RequireViolation     // a violated precondition or box invariant
    | ArithmeticOverflow   // an exact addition or subtraction overflowed

  datatype Result<+T> = Ok(value: T) | Err(error: Error) {
    predicate IsFailure() {
      Err?
    }

    function PropagateFailure<U>(): Result<U>
      requires Err?
    {
      Err(error)
    }

    function Extract(): T
      requires Ok?
    {
      value
    }
  }

  /** `Math.addExact`: the sum, or an overflow error when it is not an `int`. */
  function AddExact(a: int, b: int): (r: Result<Int32>)
    ensures r.Ok? <==> InRange(a + b)
    ensures r.Ok? ==> r.value == a + b
    ensures r.Err? ==> r.error == ArithmeticOverflow
  {
    if InRange(a + b) then Ok(a + b) else Err(ArithmeticOverflow)
  }

  /** `Math.subtractExact`: the difference, or an overflow error. */
  function SubtractExact(a: int, b: int): (r: Result<Int32>)
    ensures r.Ok? <==> InRange(a - b)
    ensures r.Ok? ==> r.value == a - b
    ensures r.Err? ==> r.error == ArithmeticOverflow
  {
    if InRange(a - b) then Ok(a - b) else Err(ArithmeticOverflow)
  }

  function Min(a: int, b: int): int {
    if a <= b then a else b
  }

  function Max(a: int, b: int): int {
    if a >= b then a else b
  }

  function Abs(a: int): nat {
    if a < 0 then -a else a
  }
}
