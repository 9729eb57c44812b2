/** The fixed-width integers of the source, where their width matters. */
module Machine {

  const INT_MAX: int := 0x7fff_ffff
  const TWO_TO_32: nat := 0x1_0000_0000
  const TWO_TO_64: nat := 0x1_0000_0000_0000_0000

  /** Conversion to a 32-bit signed integer, which wraps round. */
  function AsInt(x: int): (r: int)
    ensures -INT_MAX - 1 <= r <= INT_MAX
    ensures -INT_MAX - 1 <= x <= INT_MAX ==> r == x
  {
    (x + INT_MAX + 1) % TWO_TO_32 - INT_MAX - 1
  }

  /** Conversion of a signed integer to 64 unsigned bits. */
  function AsUnsigned(x: int): (r: nat)
    ensures 0 <= x < TWO_TO_64 ==> r == x
  {
    x % TWO_TO_64
  }

  lemma UnsignedWraps(x: int)
    requires -0x1_0000_0000_0000_0000 <= x < 0x1_0000_0000_0000_0000
    ensures AsUnsigned(x) == if x < 0 then x + 0x1_0000_0000_0000_0000 else x
  {
  }

  /** Wrapping in between does not change a sum. */
  lemma AsIntSum(a: int, b: int)
    ensures AsInt(AsInt(a) + AsUnsigned(AsInt(b))) == AsInt(a + b)
  {
    var x, y := AsInt(a), AsUnsigned(AsInt(b));
    Wraps(a);
    Wraps(b);
    assert (x + y + INT_MAX + 1 - (a + b + INT_MAX + 1)) % TWO_TO_32 == 0;
    SameResidue(x + y + INT_MAX + 1, a + b + INT_MAX + 1);
  }

  lemma Wraps(a: int)
    ensures (AsInt(a) - a) % TWO_TO_32 == 0
    ensures (AsUnsigned(AsInt(a)) - a) % TWO_TO_32 == 0
  {
  }

  lemma SameResidue(x: int, y: int)
    requires (x - y) % TWO_TO_32 == 0
    ensures x % TWO_TO_32 == y % TWO_TO_32
  {
  }
}
