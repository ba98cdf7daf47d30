/** The permit-join window: a deadline in 32-bit ticks (1000 per second) and the remaining time. */
module PermitJoinClock {
  import opened Bits

  const HALF: nat := 0x8000_0000
  const FOREVER: nat := U32 - 1
  const TICKS_PER_SECOND: nat := 1000

  type Tick32 = x: int | 0 <= x < U32

  /** The deadline word for a permit-join command: 0 closes, 255 opens for good, and the value that
      means "for good" is stepped over. */
  function Deadline(tick: Tick32, duration: byte): Tick32 {
    if duration == 0 then 0
    else if duration == 0xFF then FOREVER
    else
      var dl := (tick + duration * TICKS_PER_SECOND) % U32;
      if dl == FOREVER then dl - 1 else dl
  }

  function Ttl(deadline: Tick32, tick: Tick32): byte {
    if deadline == 0 then 0
    else if deadline == FOREVER then 0xFF
    else
      var remaining := Signed((deadline - tick) % U32, 32);
      if remaining <= 0 then 0
      else
        var secs := remaining / TICKS_PER_SECOND;
        if secs > 254 then 254 else secs
  }

  /** The moment at which a window opened at `start` closes, on a clock that never wraps. */
  function CloseTime(start: nat, duration: byte): nat {
    var t := start + duration * 1000;
    if t % U32 == FOREVER then t - 1 else t
  }

  function SecondsLeft(start: nat, duration: byte, now: nat): nat {
    if now >= CloseTime(start, duration) then 0 else (CloseTime(start, duration) - now) / 1000
  }

  lemma {:induction false} DeadlineIsCloseTime(start: nat, duration: byte)
    requires 1 <= duration <= 254
    ensures Deadline(start % U32, duration) == CloseTime(start, duration) % U32
    ensures Deadline(start % U32, duration) != FOREVER
  {
    assert (start % U32 + duration * TICKS_PER_SECOND) % U32 == (start + duration * TICKS_PER_SECOND) % U32;
  }

  lemma {:induction false} WrappedDifference(a: nat, b: nat)
    ensures (a % U32 - b % U32) % U32 == (a - b) % U32
  {
  }

  function WordSeconds(x: Tick32): nat {
    if x < HALF then (if x / TICKS_PER_SECOND > 254 then 254 else x / TICKS_PER_SECOND) else 0
  }

  lemma {:induction false} HalfIsPow2()
    ensures Pow2(31) == HALF && Pow2(32) == U32
  {
    Pow2Byte(0);
    Pow2Byte(8);
    Pow2Byte(16);
    Pow2Byte(24);
    assert Pow2(32) == 2 * Pow2(31);
  }

  /** The report as a function of the wrapped distance to the closing time. */
  lemma {:induction false} TtlOfDistance(start: nat, duration: byte, now: nat)
    requires 1 <= duration <= 254 && Deadline(start % U32, duration) != 0
    ensures Ttl(Deadline(start % U32, duration), now % U32)
            == WordSeconds((CloseTime(start, duration) - now) % U32)
  {
    HalfIsPow2();
    DeadlineIsCloseTime(start, duration);
    WrappedDifference(CloseTime(start, duration), now);
  }

  lemma {:induction false} SmallDistance(d: int)
    requires 0 <= d < U32
    ensures d % U32 == d
  {
  }

  /** Exactly when the reported time is right, at any moment after the command: while the window is
      open, and afterwards unless the wrapped distance to the closing time looks like a positive
      one of at least a second. A deadline that wraps to the word 0 is only right from the last second on. */
  lemma {:induction false} TtlCorrectIff(start: nat, duration: byte, now: nat)
    requires 1 <= duration <= 254 && start <= now
    ensures Ttl(Deadline(start % U32, duration), now % U32) == SecondsLeft(start, duration, now)
            <==> if Deadline(start % U32, duration) == 0 then CloseTime(start, duration) - now < TICKS_PER_SECOND
                 else now < CloseTime(start, duration)
                      || !(TICKS_PER_SECOND <= (CloseTime(start, duration) - now) % U32 < HALF)
  {
    if Deadline(start % U32, duration) != 0 {
      TtlOfDistance(start, duration, now);
      var d := CloseTime(start, duration) - now;
      if d > 0 {
        SmallDistance(d);
      }
    }
  }

  /** For fewer than 2^31 ticks after the command, and unless the deadline wraps to 0, the report is
      the number of whole seconds left, in spite of the wrap of the tick counter. */
  lemma {:induction false} TtlExact(start: nat, duration: byte, now: nat)
    requires 1 <= duration <= 254 && start <= now < start + HALF
    requires Deadline(start % U32, duration) != 0
    ensures Ttl(Deadline(start % U32, duration), now % U32) == SecondsLeft(start, duration, now) <= duration
  {
    TtlCorrectIff(start, duration, now);
    var d := CloseTime(start, duration) - now;
    if d < 0 {
      SmallDistance(d + U32);
    }
  }

  lemma {:induction false} TtlNeverIncreases(start: nat, duration: byte, now: nat, later: nat)
    requires 1 <= duration <= 254 && start <= now <= later < start + HALF
    ensures Ttl(Deadline(start % U32, duration), later % U32) <= Ttl(Deadline(start % U32, duration), now % U32)
  {
    if Deadline(start % U32, duration) != 0 {
      TtlExact(start, duration, now);
      TtlExact(start, duration, later);
      var c := CloseTime(start, duration);
      if later < c {
        assert (c - later) / TICKS_PER_SECOND <= (c - now) / TICKS_PER_SECOND;
      }
    }
  }

  /** Only a duration of 255 opens for good: then, and only then, the report is 255 at every moment. In
      particular 254 does not. */
  lemma {:induction false} ForeverIff(tick: Tick32, duration: byte, now: Tick32)
    ensures Deadline(tick, duration) == FOREVER <==> duration == 0xFF
    ensures Ttl(Deadline(tick, duration), now) == 0xFF <==> duration == 0xFF
  {
  }

  /** A duration of 0 closes the window at once. */
  lemma {:induction false} ClosedByZero(tick: Tick32, now: Tick32)
    ensures Ttl(Deadline(tick, 0), now) == 0
  {
  }

  /** The two ways in which the report goes wrong: a deadline that wraps to 0 looks closed at
      once, and a window that closed more than 2^31 ticks ago looks open again. */
  lemma {:induction false} TtlGoesWrong()
    ensures Ttl(Deadline(U32 - 60_000, 60), U32 - 60_000) == 0 && SecondsLeft(U32 - 60_000, 60, U32 - 60_000) == 60
    ensures Ttl(Deadline(0, 60), 60_001 + HALF) == 254 && SecondsLeft(0, 60, 60_001 + HALF) == 0
  {
    HalfIsPow2();
  }
}
