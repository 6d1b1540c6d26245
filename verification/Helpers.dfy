/** What several of the models use. */
module Helpers {

  datatype Option<T> = None | Some(value: T)

  /** A multiple of a positive factor is at least the factor away from 0, unless it is 0. */
  lemma Scaled(factor: int, d: int)
    requires factor > 0
    ensures d >= 1 ==> factor * d >= factor
    ensures d <= -1 ==> factor * d <= -factor
    ensures d == 0 ==> factor * d == 0
  {
  }
}
