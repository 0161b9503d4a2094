/** Facts about multiplying reals that the solver does not find unaided. */
module RealArith {

  /** A product with a positive factor has the sign of the other factor. */
  lemma FactorSign(a: real, c: real)
    requires c > 0.0
    ensures a * c >= 0.0 ==> a >= 0.0
    ensures a * c > 0.0 ==> a > 0.0
  {
  }

  /** Adding one to a factor adds the other factor once. */
  lemma MultiplySuccessor(k: real, n: real, b: real)
    requires k == n + 1.0
    ensures k * b == n * b + b
  {
  }

  /** Dividing by a positive number and multiplying back is the identity. */
  lemma DivideThenMultiply(a: real, n: real)
    requires n > 0.0
    ensures n * (a / n) == a
  {
  }
}
