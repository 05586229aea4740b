/** The `Bank` entity: an id, a name and a transfer counter. The counter is a
    Java `int`, so the increment done by a transfer is 32-bit two's-complement
    arithmetic. */
module Banks {

  /** The values of a Java `int`. */
  newtype Int32 = x: int | -0x8000_0000 <= x < 0x8000_0000

  const MaxInt32: Int32 := 0x7fff_ffff
  const MinInt32: Int32 := -0x8000_0000

  datatype BankData = BankData(id: nat, name: string, totalTransfers: Int32)

  /** The value of `++totalTransfers` on a Java `int`: one more, modulo 2^32,
      read back as a signed 32-bit value. */
  function Incremented(n: Int32): (r: Int32)
    ensures (r as int - (n as int + 1)) % 0x1_0000_0000 == 0
    ensures n < MaxInt32 ==> r > n
  {
    if n == MaxInt32 then MinInt32 else n + 1
  }

  /** Below the largest `int` the increment adds exactly one. */
  lemma IncrementedAddsOne(n: Int32)
    requires n < MaxInt32
    ensures Incremented(n) as int == n as int + 1
  {
  }

  /** At the largest `int` the increment wraps to the smallest one. */
  lemma IncrementedWraps()
    ensures Incremented(MaxInt32) == MinInt32
  {
  }
}
