/** Machine types and the Option/Result wrappers shared by the other modules. */
module Common {

  /** A C `char` stored into a frame buffer: one byte. */
  newtype byte = x: int | 0 <= x < 0x100

  /** An unsigned 32-bit integer (`OMX_U32`, `unsigned int`, `uint`). */
  newtype u32 = x: int | 0 <= x < 0x1_0000_0000

  const U32_MODULUS: int := 0x1_0000_0000

  /** The C conversion of an `int` value to `unsigned int`: reduction modulo 2^32. */
  function ToU32(x: int): (r: u32)
    ensures r as int % U32_MODULUS == x % U32_MODULUS
    ensures 0 <= x < U32_MODULUS ==> r as int == x
    ensures -U32_MODULUS <= x < 0 ==> r as int == x + U32_MODULUS
  {
    (x % U32_MODULUS) as u32
  }

  /** The C conversion of an `int` value to `char` (a byte): reduction modulo 256. */
  function ToByte(x: int): (r: byte)
    ensures 0 <= x < 0x100 ==> r as int == x
    ensures (r as int - x) % 0x100 == 0
  {
    (x % 0x100) as byte
  }

  /** Euclidean division is determined by quotient and remainder. */
  lemma DivModUnique(x: int, a: int, q: int, r: int)
    requires a > 0 && x == q * a + r && 0 <= r < a
    ensures x / a == q && x % a == r
  {
    var q', r' := x / a, x % a;
    assert x == q' * a + r';
    assert (q - q') * a == q * a - q' * a;
    assert (q' - q) * a == q' * a - q * a;
    if q' < q {
      MulAtLeast(q - q', a);
    } else if q' > q {
      MulAtLeast(q' - q, a);
    }
  }

  lemma MulAtLeast(k: int, a: int)
    requires k >= 1 && a > 0
    ensures k * a >= a
  {
  }

  datatype Option<+T> = None | Some(value: T)

  datatype Result<+T, +E> = Ok(value: T) | Err(error: E)
}
