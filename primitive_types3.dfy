/**
 * The `primitive_types3` exercise: an `[i32; 1000]` array of zeros is filled
 * with its own indices, then its length is checked against 100.
 */
module PrimitiveTypes3 {
  const ARRAY_SIZE: nat := 1000

  const I32_MIN: int := -0x8000_0000
  const I32_MAX: int := 0x7FFF_FFFF

  /** `i as i32` for a `usize` i: the low 32 bits read in two's complement. */
  function AsI32(i: nat): (r: int)
    ensures I32_MIN <= r <= I32_MAX
    ensures (r - i) % 0x1_0000_0000 == 0
  {
    (i + 0x8000_0000) % 0x1_0000_0000 - 0x8000_0000
  }

  /** An index that fits an `i32` is cast unchanged; 2^31 is the first that wraps. */
  lemma AsI32Exact(i: nat)
    ensures i <= I32_MAX <==> AsI32(i) == i
    ensures AsI32(0x8000_0000) == I32_MIN
  {
  }

  /** The text of the length check's "big array" branch. */
  const BigArray := "Wow, that's a big array!"

  /**
   * What `main` leaves: the filled array, and the branch the length check
   * takes, named by the message that branch prints.
   */
  method FillAndCheck() returns (a: array<int>, message: string)
    ensures fresh(a) && a.Length == ARRAY_SIZE
    ensures forall i :: 0 <= i < a.Length ==> a[i] == i
    ensures message == BigArray
  {
    a := new int[ARRAY_SIZE](_ => 0);
    for i := 0 to a.Length
      invariant a.Length == ARRAY_SIZE
      invariant forall j :: 0 <= j < i ==> a[j] == j
      invariant forall j :: i <= j < a.Length ==> a[j] == 0
    {
      AsI32Exact(i);
      a[i] := AsI32(i);
    }
    if a.Length >= 100 {
      message := BigArray;
    } else {
      assert false;
    }
  }
}
