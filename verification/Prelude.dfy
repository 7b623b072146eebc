/** Types every other module uses. */
module Prelude {

  datatype Option<+T> = None | Some(value: T)

  /** Errors of the original are the second case; Ok carries what the call returns. */
  datatype Result<+T, +E> = Ok(value: T) | Err(error: E)

  type byte = n: nat | n < 0x100
  type uint16 = n: nat | n < 0x1_0000
  type uint32 = n: nat | n < 0x1_0000_0000

  /** Round to the nearest whole number, halves away from zero. */
  function Round(x: real): (n: int)
    ensures -0.5 <= x - n as real <= 0.5
  {
    if x >= 0.0 then (x + 0.5).Floor else -((-x + 0.5).Floor)
  }

  /** The largest value of an n-byte channel (n of 4 or more is a 32-bit channel). */
  function MaxForBytes(n: nat): uint32
  {
    if n >= 4 then 0xFFFF_FFFF else if n == 3 then 0xFF_FFFF else if n == 2 then 0xFFFF else if n == 1 then 0xFF else 0
  }

  lemma MultipleMod(q: nat, n: nat)
    requires n >= 1
    ensures (q * n) % n == 0
  {
    var d, m := (q * n) / n, (q * n) % n;
    assert q * n == d * n + m;
    assert (q - d) * n == m;
    Scale(q - d, n);
  }

  lemma Scale(a: int, n: int)
    requires n >= 1
    ensures a >= 1 ==> a * n >= n
    ensures a <= -1 ==> a * n <= -n
  {
    if a >= 1 {
      assert a * n == (a - 1) * n + n;
    } else if a <= -1 {
      assert a * n == (a + 1) * n - n;
    }
  }

  ghost predicate IsMultiple(rest: nat, n: nat)
  {
    n >= 1 && rest % n == 0
  }

  /** A positive multiple of n stays one when n is taken off. */
  lemma TakeOne(rest: nat, n: nat)
    requires rest > 0 && IsMultiple(rest, n)
    ensures rest >= n && IsMultiple(rest - n, n)
  {
    var q := rest / n;
    assert rest == q * n;
    assert (q - 1) * n == q * n - n;
    MultipleMod(q - 1, n);
  }
}
