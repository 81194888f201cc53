/**
 * The time-of-day counter of the real-time-counter demo: the RTC overflow
 * interrupt advances ticks, and carries into seconds, minutes, hours and
 * days, each wrapping at its limit.
 *
 * The five counters are `uint8_t` globals that only the interrupt writes;
 * they are modelled as the fields of one object. `Elapsed` reads the
 * counters as one number of ticks, and each interrupt adds exactly one to
 * it, modulo the point where the day counter wraps.
 */
module RtcClock {
  import opened Uint8

  const HOURS_PER_DAY: nat := 24
  const MINUTES_PER_HOUR: nat := 60
  const SECONDS_PER_MINUTE: nat := 60
  /** Ticks per second at the demo's prescaler setting. */
  const TICKS_PER_SECOND: nat := 10
  /** The day counter is a `uint8_t`, so it wraps after 256 days. */
  const DAYS_WRAP: nat := 0x100

  /** The number of ticks after which the whole counter returns to zero: 256 days. */
  const PERIOD: nat := DAYS_WRAP * HOURS_PER_DAY * MINUTES_PER_HOUR * SECONDS_PER_MINUTE * TICKS_PER_SECOND

  /** The five counters, as read together. */
  datatype Clock = Clock(days: Byte, hours: Byte, minutes: Byte, seconds: Byte, ticks: Byte)

  /** The all-zero counters of a freshly started program. */
  const MIDNIGHT := Clock(0, 0, 0, 0, 0)

  /** Every counter below its limit (the day counter is bounded by its type). */
  predicate InRange(c: Clock)
  {
    c.ticks as nat < TICKS_PER_SECOND && c.seconds as nat < SECONDS_PER_MINUTE &&
    c.minutes as nat < MINUTES_PER_HOUR && c.hours as nat < HOURS_PER_DAY
  }

  /**
   * ISR(RTC_OVF_vect) on the counters: each unit counts up, or wraps to
   * zero and carries into the next; the day counter wraps at 256.
   */
  function Tick(c: Clock): (r: Clock)
    ensures InRange(c) ==> InRange(r)
    ensures c.ticks as nat < TICKS_PER_SECOND - 1 ==> r == c.(ticks := c.ticks + 1)
    ensures !(c.ticks as nat < TICKS_PER_SECOND - 1) ==> r.ticks == 0
  {
    if c.ticks as nat < TICKS_PER_SECOND - 1 then c.(ticks := c.ticks + 1)
    else if c.seconds as nat < SECONDS_PER_MINUTE - 1 then
      c.(ticks := 0, seconds := c.seconds + 1)
    else if c.minutes as nat < MINUTES_PER_HOUR - 1 then
      c.(ticks := 0, seconds := 0, minutes := c.minutes + 1)
    else if c.hours as nat < HOURS_PER_DAY - 1 then
      c.(ticks := 0, seconds := 0, minutes := 0, hours := c.hours + 1)
    else
      Clock(Truncate(c.days as int + 1), 0, 0, 0, 0)
  }

  /**
   * The counters read as one number of ticks since midnight of day 0, in
   * the mixed radix 256, 24, 60, 60, 10 (the limits above, written out).
   */
  function Elapsed(c: Clock): nat
  {
    c.ticks as nat + 10 * (c.seconds as nat + 60 * (c.minutes as nat + 60 * (c.hours as nat + 24 * c.days as nat)))
  }

  /** The reading of in-range counters lies below PERIOD. */
  lemma ElapsedBelowPeriod(c: Clock)
    requires InRange(c)
    ensures Elapsed(c) < PERIOD
  {
    var h := c.hours as nat + 24 * c.days as nat;
    assert h < 24 * 256;
    var m := c.minutes as nat + 60 * h;
    assert m < 60 * 24 * 256;
    var s := c.seconds as nat + 60 * m;
    assert s < 60 * 60 * 24 * 256;
  }

  /**
   * Away from the final rollover of day 255, one interrupt adds exactly one
   * tick to the reading.
   */
  lemma TickAddsOneInside(c: Clock)
    requires InRange(c)
    requires !(c.ticks == 9 && c.seconds == 59 && c.minutes == 59 && c.hours == 23 && c.days == 255)
    ensures Elapsed(Tick(c)) == Elapsed(c) + 1
  {
    if c.ticks < 9 {
      assert Tick(c) == c.(ticks := c.ticks + 1);
    } else if c.seconds < 59 {
      assert Tick(c) == c.(ticks := 0, seconds := c.seconds + 1);
    } else if c.minutes < 59 {
      assert Tick(c) == c.(ticks := 0, seconds := 0, minutes := c.minutes + 1);
    } else if c.hours < 23 {
      assert Tick(c) == c.(ticks := 0, seconds := 0, minutes := 0, hours := c.hours + 1);
    } else {
      assert Tick(c) == Clock(c.days + 1, 0, 0, 0, 0);
    }
  }

  /**
   * The carry cascade is a counter: one interrupt adds one tick to the
   * reading, and the full rollover of day 255 returns the reading to zero.
   */
  lemma TickAddsOne(c: Clock)
    requires InRange(c)
    ensures Elapsed(Tick(c)) == (Elapsed(c) + 1) % PERIOD
  {
    if c.ticks == 9 && c.seconds == 59 && c.minutes == 59 && c.hours == 23 && c.days == 255 {
      assert Tick(c) == MIDNIGHT;
      assert Elapsed(c) + 1 == PERIOD;
      ModSmall(0, PERIOD, 1);
    } else {
      TickAddsOneInside(c);
      ElapsedBelowPeriod(Tick(c));
      ModSmall(Elapsed(c) + 1, PERIOD, 0);
    }
  }

  /** Euclidean remainder of a number in `[q * p, (q + 1) * p)` for `q` 0 or 1. */
  lemma ModSmall(x: nat, p: nat, q: nat)
    requires 0 <= x < p && q <= 1
    ensures (x + q * p) % p == x
  {
  }

  /** A unit above ticks changes only when every unit below it wraps. */
  lemma CarryOnlyOnWrap(c: Clock)
    requires InRange(c)
    ensures var r := Tick(c);
      (r.seconds != c.seconds ==> c.ticks == 9 && r.ticks == 0) &&
      (r.minutes != c.minutes ==> c.ticks == 9 && c.seconds == 59 && r.seconds == 0) &&
      (r.hours != c.hours ==> c.ticks == 9 && c.seconds == 59 && c.minutes == 59 && r.minutes == 0) &&
      (r.days != c.days ==> c.ticks == 9 && c.seconds == 59 && c.minutes == 59 && c.hours == 23 && r.hours == 0)
  {
  }

  /** 23:59:59 and tick 9 becomes 00:00:00 and tick 0 of the next day, modulo 256 days. */
  lemma FullRollover(days: Byte)
    ensures Tick(Clock(days, 23, 59, 59, 9)) == Clock(Truncate(days as int + 1), 0, 0, 0, 0)
    ensures days == 255 ==> Tick(Clock(days, 23, 59, 59, 9)) == MIDNIGHT
  {
  }

  /** The counters that a tick count within one period reads as. */
  function FromElapsed(n: nat): (c: Clock)
    requires n < PERIOD
    ensures InRange(c)
  {
    Clock((n / 864000) as Byte, ((n / 36000) % 24) as Byte, ((n / 600) % 60) as Byte,
          ((n / 10) % 60) as Byte, (n % 10) as Byte)
  }

  /** Splitting a number by a divisor and putting it back together. */
  lemma DivMod(a: nat, k: nat)
    requires k > 0
    ensures a == a % k + k * (a / k)
  {
  }

  /** The reading determines in-range counters: reading back gives the same number. */
  lemma FromElapsedReadsBack(n: nat)
    requires n < PERIOD
    ensures Elapsed(FromElapsed(n)) == n
  {
    var q1 := n / 10;
    var q2 := q1 / 60;
    var q3 := q2 / 60;
    var q4 := q3 / 24;
    DivMod(n, 10); DivMod(q1, 60); DivMod(q2, 60); DivMod(q3, 24);
    assert q2 == n / 600;
    assert q3 == n / 36000;
    assert q4 == n / 864000;
  }

  /** Distinct in-range counters have distinct readings. */
  lemma ElapsedReadsBack(c: Clock)
    requires InRange(c)
    ensures Elapsed(c) < PERIOD && FromElapsed(Elapsed(c)) == c
  {
    ElapsedBelowPeriod(c);
    var n := Elapsed(c);
    var s := c.seconds as nat + 60 * (c.minutes as nat + 60 * (c.hours as nat + 24 * c.days as nat));
    var m := c.minutes as nat + 60 * (c.hours as nat + 24 * c.days as nat);
    var h := c.hours as nat + 24 * c.days as nat;
    assert n % 10 == c.ticks as nat && n / 10 == s;
    assert s % 60 == c.seconds as nat && s / 60 == m;
    assert m % 60 == c.minutes as nat && m / 60 == h;
    assert h % 24 == c.hours as nat && h / 24 == c.days as nat;
    assert n / 600 == m;
    assert n / 36000 == h;
    assert n / 864000 == c.days as nat;
  }

  /** The five RTC globals. */
  class RealTimeCounter {
    var days: Byte
    var hours: Byte
    var minutes: Byte
    var seconds: Byte
    var ticks: Byte

    /** Static storage: every counter starts at zero, which is in range. */
    constructor ()
      ensures Value() == MIDNIGHT && InRange(Value()) && Elapsed(Value()) == 0
    {
      days, hours, minutes, seconds, ticks := 0, 0, 0, 0, 0;
    }

    function Value(): Clock
      reads this
    {
      Clock(days, hours, minutes, seconds, ticks)
    }

    /** ISR(RTC_OVF_vect). */
    method Overflow()
      modifies this
      ensures Value() == Tick(old(Value()))
      ensures InRange(old(Value())) ==>
                InRange(Value()) && Elapsed(Value()) == (Elapsed(old(Value())) + 1) % PERIOD
    {
      if ticks as nat < TICKS_PER_SECOND - 1 {
        ticks := ticks + 1;
      } else {
        ticks := 0;
        if seconds as nat < SECONDS_PER_MINUTE - 1 {
          seconds := seconds + 1;
        } else {
          seconds := 0;
          if minutes as nat < MINUTES_PER_HOUR - 1 {
            minutes := minutes + 1;
          } else {
            minutes := 0;
            if hours as nat < HOURS_PER_DAY - 1 {
              hours := hours + 1;
            } else {
              hours := 0;
              days := Truncate(days as int + 1);
            }
          }
        }
      }
      if InRange(old(Value())) {
        TickAddsOne(old(Value()));
      }
    }
  }
}
