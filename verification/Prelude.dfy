/** Option and Result, and a fact about products, shared by every module. */
module Prelude {

  datatype Option<+T> = None | Some(value: T)

  datatype Result<+T, +E> = Ok(value: T) | Err(error: E)

  lemma {:induction false} SumBelowProduct(a: int, c: int)
    requires a >= 1 && c >= 1
    ensures a + c - 1 <= a * c
    decreases a
  {
    if a > 1 {
      SumBelowProduct(a - 1, c);
      assert a * c == (a - 1) * c + c;
    }
  }
}
