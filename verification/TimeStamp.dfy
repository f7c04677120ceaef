/** From FILETIME ticks (section 2.3.3 of [MS-DTYP]) to EPICS seconds and
    nanoseconds, with the widths the C expression is evaluated in. */
module TimeStamp {
  const TWO32: int := 0x1_0000_0000
  const TWO64: int := 0x1_0000_0000_0000_0000
  const TICKS_PER_SEC: int := 10000000
  /** Seconds from 1601 to 1970 and on to 1990, in ticks. */
  const EPOCH: int := (631152000 + 11644473600) * TICKS_PER_SEC
  /** The ticks after which the 32-bit seconds wrap. */
  const PERIOD: int := TWO32 * TICKS_PER_SEC

  // ----- the epoch -----

  predicate IsLeap(year: nat) {
    year % 4 == 0 && (year % 100 != 0 || year % 400 == 0)
  }

  /** Days from the first of January 1601 to that of the year. */
  function DaysTo(year: nat): nat {
    if year <= 1601 then 0 else DaysTo(year - 1) + if IsLeap(year - 1) then 366 else 365
  }

  lemma Rests(m: nat)
    ensures (1600 + m) % 4 == m % 4
  {
  }

  lemma CenturyRests(m: nat)
    ensures (1600 + m) % 100 == m % 100
  {
  }

  lemma PeriodRests(m: nat)
    ensures (1600 + m) % 400 == m % 400
  {
  }

  /** Years go through the rule in periods of 400. */
  lemma LeapIff(n: nat)
    ensures IsLeap(1601 + n) <==> (n + 1) % 4 == 0 && ((n + 1) % 100 != 0 || (n + 1) % 400 == 0)
  {
    Rests(n + 1);
    CenturyRests(n + 1);
    PeriodRests(n + 1);
  }

  lemma OneMoreYear(n: nat)
    ensures (n + 1) / 4 == n / 4 + if (n + 1) % 4 == 0 then 1 else 0
    ensures (n + 1) / 100 == n / 100 + if (n + 1) % 100 == 0 then 1 else 0
    ensures (n + 1) / 400 == n / 400 + if (n + 1) % 400 == 0 then 1 else 0
    ensures (n + 1) % 400 == 0 ==> (n + 1) % 100 == 0
    ensures (n + 1) % 100 == 0 ==> (n + 1) % 4 == 0
  {
  }

  lemma {:induction false} DaysCounted(n: nat)
    ensures DaysTo(1601 + n) == 365 * n + n / 4 - n / 100 + n / 400
  {
    if n > 0 {
      var before: nat := n - 1;
      DaysCounted(before);
      LeapIff(before);
      OneMoreYear(before);
    }
  }

  /** The EPICS epoch is the first of January 1990 and that of no other year: so
      many days after that of 1601, from which FILETIME counts, at 86400 seconds of
      ten million ticks each. */
  lemma EpochIs1990(year: nat)
    ensures EPOCH == DaysTo(year) * 86400 * 10000000 <==> year == 1990
  {
    if year > 1601 {
      DaysCounted(year - 1601);
    }
  }

  type uint64 = n: int | 0 <= n < 0x1_0000_0000_0000_0000
  type uint32 = n: int | 0 <= n < 0x1_0000_0000

  datatype EpicsTimeStamp = EpicsTimeStamp(secPastEpoch: uint32, nsec: uint32)

  /** Ticks since the EPICS epoch, in 64 bits. */
  function Shifted(plcTime: uint64): uint64 {
    (plcTime - EPOCH) % TWO64
  }

  function WindowsToEpics(plcTime: uint64): EpicsTimeStamp {
    var shifted := Shifted(plcTime);
    var sec := (shifted / TICKS_PER_SEC) % TWO32;
    var product := (sec * TICKS_PER_SEC) % TWO32;
    var rest := ((shifted - product) % TWO64 * 100) % TWO64;
    EpicsTimeStamp(sec, rest % TWO32)
  }

  /** A remainder differs from the number by a multiple of the modulus. */
  lemma Multiple64(x: int) returns (k: int)
    ensures x % TWO64 == x - TWO64 * k
  {
    k := x / TWO64;
  }

  lemma Multiple32(x: int) returns (k: int)
    ensures x % TWO32 == x - TWO32 * k
  {
    k := x / TWO32;
  }

  lemma SameRemainder(x: int, y: int, k: int)
    requires 0 <= x < TWO32 && 0 <= y < TWO32 && x == y + TWO32 * k
    ensures x == y
  {
  }

  /** The 32-bit wrap of the product cancels: nanoseconds are exact, for every tick count. */
  lemma NsecIsExact(plcTime: uint64)
    ensures WindowsToEpics(plcTime).nsec == 100 * (Shifted(plcTime) % 10000000)
    ensures WindowsToEpics(plcTime).nsec < 1000000000
  {
    var shifted := Shifted(plcTime);
    var q, r := shifted / TICKS_PER_SEC, shifted % TICKS_PER_SEC;
    var a := Multiple32(q);
    var sec := q % TWO32;
    var b := Multiple32(sec * TICKS_PER_SEC);
    var product := sec * TICKS_PER_SEC % TWO32;
    var c := Multiple64(shifted - product);
    var d := Multiple64((shifted - product) % TWO64 * 100);
    var e := Multiple32((shifted - product) % TWO64 * 100 % TWO64);
    var nsec := (shifted - product) % TWO64 * 100 % TWO64 % TWO32;
    assert sec == q - TWO32 * a;
    assert product == sec * TICKS_PER_SEC - TWO32 * b;
    assert shifted - product == r + TWO32 * (TICKS_PER_SEC * a + b);
    var k := 100 * (TICKS_PER_SEC * a + b) - TWO32 * 100 * c - TWO32 * d - e;
    assert nsec == 100 * r + TWO32 * k;
    SameRemainder(nsec, 100 * r, k);
  }

  /** The ticks a time stamp stands for, counted from the EPICS epoch. */
  function Ticks(ts: EpicsTimeStamp): int {
    ts.secPastEpoch * TICKS_PER_SEC + ts.nsec / 100
  }

  lemma PeriodRemainder(x: int, a: int, t: int)
    requires x == PERIOD * a + t && 0 <= t < PERIOD
    ensures x % PERIOD == t
  {
  }

  lemma TickParts(shifted: uint64)
    ensures (shifted / TICKS_PER_SEC) % TWO32 * TICKS_PER_SEC + shifted % TICKS_PER_SEC == shifted % PERIOD
  {
    var q, r := shifted / TICKS_PER_SEC, shifted % TICKS_PER_SEC;
    var a, sec := q / TWO32, q % TWO32;
    assert q == TWO32 * a + sec && shifted == TICKS_PER_SEC * q + r;
    PeriodRemainder(shifted, a, sec * TICKS_PER_SEC + r);
  }

  /** Nothing but whole periods of 2^32 seconds is lost. */
  lemma TicksAreKept(plcTime: uint64)
    ensures Ticks(WindowsToEpics(plcTime)) == Shifted(plcTime) % PERIOD
  {
    NsecIsExact(plcTime);
    TickParts(Shifted(plcTime));
  }

  /** Whole hundreds of nanoseconds below a second. */
  predicate WholeTicks(ts: EpicsTimeStamp) {
    ts.nsec % 100 == 0 && ts.nsec < 1000000000
  }

  lemma WholeHundreds(n: int, r: int)
    requires n == 100 * r
    ensures n % 100 == 0
  {
  }

  lemma StampHasWholeTicks(plcTime: uint64)
    ensures WholeTicks(WindowsToEpics(plcTime))
  {
    NsecIsExact(plcTime);
    WholeHundreds(WindowsToEpics(plcTime).nsec, Shifted(plcTime) % TICKS_PER_SEC);
  }

  lemma TicksCompare(x: EpicsTimeStamp, y: EpicsTimeStamp)
    requires WholeTicks(x) && WholeTicks(y)
    ensures Ticks(x) == Ticks(y) <==> x == y
    ensures Ticks(x) < Ticks(y) <==> Before(x, y)
  {
  }

  /** Two tick counts get the same time stamp exactly when they are whole periods apart. */
  lemma SameStampIff(a: uint64, b: uint64)
    ensures WindowsToEpics(a) == WindowsToEpics(b) <==> Shifted(a) % PERIOD == Shifted(b) % PERIOD
  {
    TicksAreKept(a);
    TicksAreKept(b);
    StampHasWholeTicks(a);
    StampHasWholeTicks(b);
    TicksCompare(WindowsToEpics(a), WindowsToEpics(b));
  }

  predicate Before(x: EpicsTimeStamp, y: EpicsTimeStamp) {
    x.secPastEpoch < y.secPastEpoch || (x.secPastEpoch == y.secPastEpoch && x.nsec < y.nsec)
  }

  predicate InRange(plcTime: uint64) {
    EPOCH <= plcTime < EPOCH + PERIOD
  }

  lemma ShiftedIs(plcTime: uint64)
    ensures Shifted(plcTime) == if plcTime >= EPOCH then plcTime - EPOCH
                                else plcTime - EPOCH + TWO64
  {
  }

  lemma RemainderIsItself(x: nat)
    ensures x % PERIOD == x <==> x < PERIOD
  {
  }

  /** The way back gives the tick count exactly for the 2^32 seconds after the EPICS epoch. */
  lemma TimeComesBackIff(plcTime: uint64)
    ensures EPOCH + Ticks(WindowsToEpics(plcTime)) == plcTime <==> InRange(plcTime)
  {
    TicksAreKept(plcTime);
    ShiftedIs(plcTime);
    RemainderIsItself(Shifted(plcTime));
  }

  /** In that range the order of time stamps is the order of ticks. */
  lemma OrderIsKept(a: uint64, b: uint64)
    requires InRange(a) && InRange(b)
    ensures Before(WindowsToEpics(a), WindowsToEpics(b)) <==> a < b
  {
    TimeComesBackIff(a);
    TimeComesBackIff(b);
    StampHasWholeTicks(a);
    StampHasWholeTicks(b);
    TicksCompare(WindowsToEpics(a), WindowsToEpics(b));
  }
}
