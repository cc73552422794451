/**
 * Vocabulary shared by the whole storefront model: Java's 32-bit `int`
 * with its wrap-around, the exceptions the services raise, and the
 * Option/Result/Outcome wrappers that stand for "may be null" and
 * "may throw".
 */
module Common {

  const INT_MIN: int := -0x8000_0000
  const INT_MAX: int := 0x7fff_ffff
  const MODULUS: int := 0x1_0000_0000

  /** The values of Java's `int`. */
  type Int32 = x: int | -0x8000_0000 <= x <= 0x7fff_ffff

  /**
   * Two's-complement truncation of an exact integer to a Java `int`: the
   * one value in range that differs from `x` by a multiple of 2^32.
   */
  function Wrap32(x: int): (r: Int32)
    ensures INT_MIN <= x <= INT_MAX ==> r == x
  {
    x - MODULUS * ((x - INT_MIN) / MODULUS)
  }

  /** Java `a + b` on `int`. */
  function Add32(a: Int32, b: Int32): Int32 { Wrap32(a + b) }

  /** Java `a - b` on `int`. */
  function Sub32(a: Int32, b: Int32): Int32 { Wrap32(a - b) }

  /** Java `a * b` on `int`. */
  function Mul32(a: Int32, b: Int32): Int32 { Wrap32(a * b) }

  /** Shifting by any multiple of 2^32 does not change the truncation. */
  lemma Wrap32Shift(x: int, k: int)
    ensures Wrap32(x + MODULUS * k) == Wrap32(x)
  {
    var q := (x - INT_MIN) / MODULUS;
    assert (x + MODULUS * k - INT_MIN) == (q + k) * MODULUS + (x - INT_MIN) % MODULUS;
  }

  /** Truncating an intermediate result does not change the final one. */
  lemma Wrap32Absorb(a: int, b: int)
    ensures Wrap32(Wrap32(a) + b) == Wrap32(a + b)
  {
    var k := -((a - INT_MIN) / MODULUS);
    assert Wrap32(a) + b == (a + b) + MODULUS * k;
    Wrap32Shift(a + b, k);
  }

  /** Java subtraction from a truncated value is truncated exact subtraction. */
  lemma Wrap32Sub(a: int, c: Int32)
    ensures Sub32(Wrap32(a), c) == Wrap32(a - c)
  {
    Wrap32Absorb(a, -(c as int));
  }

  /** Subtracting then adding the same `int` is the identity, overflow or not. */
  lemma SubThenAdd32(s: Int32, n: Int32)
    ensures Add32(Sub32(s, n), n) == s
  {
    Wrap32Absorb(s - n, n);
  }

  datatype Option<T> = None | Some(value: T)

  /**
   * The exceptions raised by the modelled code. `OutOfStock` carries the
   * stock level that its message displays.
   */
  datatype Exception =
    | EntityNotFound                 // javax.persistence.EntityNotFoundException
    | OutOfStock(stock: Int32)       // the application's OutOfStockException
    | IllegalState                   // duplicate registration
    | UsernameNotFound(email: string)
    | IncorrectResultSize            // a single-result finder matched several rows
    | NullPointer                    // dereferencing a finder's null result
    | IndexOutOfBounds               // List.get past the end
    | IllegalArgument                // PageRequest.of with a negative page
    | ImageServiceFailure            // the image/file service threw

  /**
   * Whether a `@Transactional` method that throws `e` rolls back. Spring
   * rolls back on unchecked exceptions only. The file service fails with an
   * IOException, which is checked, so the work done before it commits.
   */
  predicate RollsBack(e: Exception) {
    e != ImageServiceFailure
  }

  /** The result of a Java call that returns a value or throws. */
  datatype Result<T> = Ok(value: T) | Err(error: Exception)

  /** The result of a Java `void` call that returns or throws. */
  datatype Outcome = Pass | Fail(error: Exception)
}
