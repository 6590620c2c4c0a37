/** The integer types of the ESP32 target the controller runs on: a 32-bit
    `int` (the occupancy count) and a 32-bit `unsigned long` (the value of
    `millis()`), with the wrap-around of unsigned subtraction written out. */
module Machine {

  const TWO_TO_THE_32: int := 0x1_0000_0000

  /** A C `int` on the target. */
  newtype int32 = x: int | InInt32(x)

  /** A C `unsigned long` on the target, the type `millis()` returns. */
  newtype uint32 = x: int | 0 <= x < 0x1_0000_0000

  /** The range of a C `int` on the target. */
  predicate InInt32(x: int) {
    -0x8000_0000 <= x < 0x8000_0000
  }

  /** The reading `millis()` gives when `t` milliseconds have passed since
      boot: the counter silently rolls over every 2^32 ms (about 49.7 days). */
  function Wrap(t: nat): uint32 {
    (t % TWO_TO_THE_32) as uint32
  }

  /** Unsigned subtraction `a - b` of two `unsigned long`s: the unique 32-bit
      value that, added to `b`, gives `a` modulo 2^32. */
  function Sub(a: uint32, b: uint32): (d: uint32)
    ensures b as int + d as int == a as int || b as int + d as int == a as int + TWO_TO_THE_32
    ensures b <= a ==> d == a - b
    ensures a < b ==> d as int == a as int + TWO_TO_THE_32 - b as int
  {
    ((a as int - b as int) % TWO_TO_THE_32) as uint32
  }

  /** Unsigned subtraction of two wrapped clock readings measures the real
      time between them, as long as less than 2^32 ms separate them: the
      rollover of `millis()` does not disturb an elapsed-time test. */
  lemma SubOfWrappedClock(earlier: nat, later: nat)
    requires earlier <= later < earlier + TWO_TO_THE_32
    ensures Sub(Wrap(later), Wrap(earlier)) as int == later - earlier
  {
    var a, b := Wrap(later), Wrap(earlier);
    var qa, qb := later / TWO_TO_THE_32, earlier / TWO_TO_THE_32;
    assert later == qa * TWO_TO_THE_32 + a as int;
    assert earlier == qb * TWO_TO_THE_32 + b as int;
    var d := Sub(a, b);
    // d and later - earlier are both in [0, 2^32) and differ by a multiple of 2^32
    var k := if b as int + d as int == a as int then qb - qa else qb - qa + 1;
    assert d as int - (later - earlier) == k * TWO_TO_THE_32;
    assert -TWO_TO_THE_32 < k * TWO_TO_THE_32 < TWO_TO_THE_32;
    assert k == 0;
  }
}
