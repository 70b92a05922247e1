/** Small numeric shapes shared by the Python builder and the JS worker. */
module Numeric {

  /** An embedding vector: a row of a numpy matrix, or a JS number array. */
  type Vector = seq<real>

  /** min(a, b) and Math.min(a, b). */
  function Min(a: int, b: int): (m: int)
    ensures m <= a && m <= b && (m == a || m == b)
  {
    if a <= b then a else b
  }
}
