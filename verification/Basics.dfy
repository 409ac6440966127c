/** Small vocabulary shared by the models. */
module Basics {
  datatype Option<+T> = None | Some(value: T)

  // The modulus of the 64-bit unsigned counters in the sources.
  const TWO_POW_64: nat := 0x1_0000_0000_0000_0000

  lemma Regroup<T>(a: seq<T>, x: T, b: seq<T>)
    ensures a + ([x] + b) == a + [x] + b
  {
  }
}
