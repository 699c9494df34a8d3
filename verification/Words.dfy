/** Little-endian words. */
module Words {
  import opened Wrappers

  type Bytes = seq<U8>

  function FromLe16(lo: nat, hi: nat): nat { lo + 0x100 * hi }

  function FromLe32(lo: nat, hi: nat): nat { lo + 0x1_0000 * hi }

  function Le16(n: U16): (r: Bytes)
    ensures |r| == 2 && FromLe16(r[0], r[1]) == n
  {
    [n % 0x100, n / 0x100]
  }

  function Le32(n: U32): (r: Bytes)
    ensures |r| == 4 && FromLe32(FromLe16(r[0], r[1]), FromLe16(r[2], r[3])) == n
  {
    Le16(n % 0x1_0000) + Le16(n / 0x1_0000)
  }

  lemma Le16Of(lo: U8, hi: U8)
    ensures FromLe16(lo, hi) <= U16_MAX && Le16(FromLe16(lo, hi)) == [lo, hi]
  {
  }

  lemma Le32Of(lo: U16, hi: U16)
    ensures FromLe32(lo, hi) < 0x1_0000_0000 && Le32(FromLe32(lo, hi)) == Le16(lo) + Le16(hi)
  {
    HalvesOf(lo, hi);
  }

  lemma HalvesOf(lo: nat, hi: nat)
    requires lo < 0x1_0000
    ensures (lo + 0x1_0000 * hi) % 0x1_0000 == lo && (lo + 0x1_0000 * hi) / 0x1_0000 == hi
  {
  }

  lemma Assoc(a: Bytes, b: Bytes, c: Bytes)
    ensures a + b + c == a + (b + c)
  {
  }

  // The outcome of reading a field off the front of a byte sequence: the field and the
  // bytes after it, or why there is none.
  datatype Read<+T, +E> = Value(v: T, rest: Bytes) | Fail(error: E) {
    predicate IsFailure() { Fail? }

    function PropagateFailure<U>(): Read<U, E>
      requires Fail?
    {
      Fail(error)
    }

    function Extract(): (T, Bytes)
      requires Value?
    {
      (v, rest)
    }
  }
}
