/** Failure-carrying values for the Java exceptions the library throws. */
module Outcomes {

  /** A Java reference that may be null. */
  datatype Option<+T> = None | Some(value: T)

  /** The exceptions thrown by the genetic-algorithm core, each named after the Java
      condition that raises it. */
  datatype Exception =
    | InvalidBounds        // IllegalArgumentException: minValue > maxValue (integer) or >= (float)
    | NegativeArraySize    // NegativeArraySizeException from `new T[length]`
    | NullGenes            // IllegalArgumentException: setGenes(null)
    | WrongGeneType        // IllegalArgumentException: setGenes with an array of another element type
    | LengthMismatch       // IllegalArgumentException: setGenes with an array of another length
    | TournamentTooSmall   // IllegalArgumentException: tournament size below 2
    | NonPositiveBound     // IllegalArgumentException: java.util.Random.nextInt(0)
    | IndexOutOfBounds     // IndexOutOfBoundsException from List.get / List.set
    | NullPointer          // NullPointerException: getBestIndividual() of an empty population
    | MissingComponent     // IllegalStateException: a strategy was not set before run()

  /** The result of a Java call that returns a value or throws. */
  datatype Result<+T> = Success(value: T) | Failure(error: Exception)

  /** The result of a Java `void` call that may throw. */
  datatype Outcome = Pass | Fail(error: Exception)

  /** The number of iterations of `for (int i = 0; i < n; i++)`. */
  function Count(n: int): (c: nat)
    ensures n >= 0 ==> c == n
    ensures n < 0 ==> c == 0
  {
    if n < 0 then 0 else n
  }

  function Min(a: int, b: int): (m: int)
    ensures m <= a && m <= b && (m == a || m == b)
  {
    if a <= b then a else b
  }
}
