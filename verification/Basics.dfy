/** Notions that several parts of the model share. */
module Basics {
  /** Stands for the source's nil pointers and nil errors. */
  datatype Option<+T> = None | Some(value: T)

  const TWO_TO_THE_64: int := 0x1_0000_0000_0000_0000

  /** For counting. */
  function One(b: bool): nat { if b then 1 else 0 }

  predicate NoRepeats<T(==)>(xs: seq<T>) {
    forall i, j :: 0 <= i < j < |xs| ==> xs[i] != xs[j]
  }
}
