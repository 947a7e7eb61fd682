/** UUIDv7 ids from a clock that may stand still or step back (sections 5.7 and 6.2 of RFC 9562).
    (django_connectors/_uuid.py) */
module Uuid7 {

  const COUNTER_MAX: nat := 0xFFF
  const TIMESTAMPS: nat := 0x1_0000_0000_0000
  const NANOS_PER_MILLI: nat := 1_000_000

  // ---------------------------------------------------------------- bits

  function Pow2(k: nat): (p: nat)
    ensures p > 0
  {
    if k == 0 then 1 else 2 * Pow2(k - 1)
  }

  /** Bitwise or. */
  function Or(a: nat, b: nat): nat {
    if a == 0 && b == 0 then 0
    else (if a % 2 == 1 || b % 2 == 1 then 1 else 0) + 2 * Or(a / 2, b / 2)
  }

  function Shift(a: nat, k: nat): nat { a * Pow2(k) }

  /** `n >> k`. */
  function High(n: nat, k: nat): nat { if k == 0 then n else High(n / 2, k - 1) }

  /** The `k` lowest bits of `n`. */
  function Low(n: nat, k: nat): nat { if k == 0 then 0 else n % 2 + 2 * Low(n / 2, k - 1) }

  lemma {:induction false} OrWithNothing(a: nat)
    ensures Or(a, 0) == a
  {
    if a > 0 { OrWithNothing(a / 2); }
  }

  /** Or-ing a field in below the ones already there adds it. */
  lemma {:induction false} OrBelowAdds(high: nat, k: nat, low: nat)
    requires low < Pow2(k)
    ensures Or(Shift(high, k), low) == Shift(high, k) + low
  {
    if k == 0 {
      OrWithNothing(high);
    } else if Shift(high, k) != 0 || low != 0 {
      assert Shift(high, k) == 2 * Shift(high, k - 1);
      OrBelowAdds(high, k - 1, low / 2);
    }
  }

  lemma PowersOfTwo()
    ensures Pow2(2) == 4 && Pow2(4) == 16 && Pow2(12) == 0x1000
  {
    PowSum(2, 2);
    PowSum(4, 4);
    PowSum(8, 4);
  }

  lemma {:induction false} PowSum(a: nat, b: nat)
    ensures Pow2(a + b) == Pow2(a) * Pow2(b)
  {
    if b > 0 {
      PowSum(a, b - 1);
      assert Pow2(a + b) == 2 * Pow2(a + (b - 1)) && Pow2(b) == 2 * Pow2(b - 1);
      hide Pow2;
      DoubleOut(Pow2(a), Pow2(b - 1));
    }
  }

  // ---------------------------------------------------------------- products

  lemma DoubleOut(a: int, b: int)
    ensures 2 * (a * b) == a * (2 * b)
  {
  }

  lemma Distribute(a: int, b: int, c: int)
    ensures (a + b) * c == a * c + b * c
  {
  }

  lemma Regroup(a: int, b: int, c: int)
    ensures (a * b) * c == a * (b * c)
  {
  }

  lemma TimesAtLeast(a: nat, b: nat, c: nat)
    requires a <= b
    ensures a * c <= b * c
  {
    Distribute(a, b - a, c);
  }

  // ---------------------------------------------------------------- one id

  /** `random` is what eight random bytes spell. */
  function Encode(timestamp: int, counter: nat, random: nat): nat {
    var value := Shift(timestamp % TIMESTAMPS, 80);
    var value := Or(value, Shift(7, 76));
    var value := Or(value, Shift(counter, 64));
    var value := Or(value, Shift(2, 62));
    Or(value, Low(random, 62))
  }

  /** The fields side by side: 48 bits, 4, 12, 2 and 62. */
  function Layout(timestamp: nat, version: nat, counter: nat, variant: nat, random: nat): nat {
    Shift(Shift(Shift(Shift(timestamp, 4) + version, 12) + counter, 2) + variant, 62) + random
  }

  lemma ShiftTwice(a: nat, j: nat, k: nat)
    ensures Shift(Shift(a, j), k) == Shift(a, j + k)
  {
    PowSum(j, k);
    Regroup(a, Pow2(j), Pow2(k));
  }

  lemma ShiftAdds(a: nat, b: nat, k: nat)
    ensures Shift(a + b, k) == Shift(a, k) + Shift(b, k)
  {
    Distribute(a, b, Pow2(k));
  }

  /** Or-ing one more field in: `high` stands above it, `field` fits in `width` bits, at bit `at`. */
  lemma OrField(high: nat, width: nat, field: nat, at: nat)
    requires field < Pow2(width)
    ensures Or(Shift(high, width + at), Shift(field, at)) == Shift(Shift(high, width) + field, at)
  {
    ShiftTwice(high, width, at);
    ShiftAdds(Shift(high, width), field, at);
    FieldFits(field, width, at);
    OrBelowAdds(high, width + at, Shift(field, at));
  }

  lemma FieldFits(field: nat, width: nat, at: nat)
    requires field < Pow2(width)
    ensures Shift(field, at) < Pow2(width + at)
  {
    PowSum(width, at);
    TimesAtLeast(field + 1, Pow2(width), Pow2(at));
    Distribute(field, 1, Pow2(at));
  }

  /** While the timestamp fits, the bit operations lay the fields side by side: none carries into another. */
  lemma EncodeIsLayout(timestamp: nat, counter: nat, random: nat)
    requires timestamp < TIMESTAMPS && counter <= COUNTER_MAX
    ensures Encode(timestamp, counter, random) == Layout(timestamp, 7, counter, 2, Low(random, 62))
  {
    hide Shift, Or, Pow2, Low;
    PowersOfTwo();
    var a := Shift(timestamp, 4) + 7;
    var b := Shift(a, 12) + counter;
    var c := Shift(b, 2) + 2;
    OrField(timestamp, 4, 7, 76);
    OrField(a, 12, counter, 64);
    OrField(b, 2, 2, 62);
    LowFits(random, 62);
    OrBelowAdds(c, 62, Low(random, 62));
  }

  /** Version, variant, timestamp, counter and random bits read back exactly. */
  lemma DecodesBack(timestamp: nat, counter: nat, random: nat)
    requires timestamp < TIMESTAMPS && counter <= COUNTER_MAX
    ensures var id := Encode(timestamp, counter, random);
            && High(id, 80) == timestamp
            && Low(High(id, 76), 4) == 7
            && Low(High(id, 64), 12) == counter
            && Low(High(id, 62), 2) == 2
            && Low(id, 62) == Low(random, 62)
  {
    hide Encode, Shift, High, Low, Pow2;
    PowersOfTwo();
    EncodeIsLayout(timestamp, counter, random);
    var id := Encode(timestamp, counter, random);
    var a := Shift(timestamp, 4) + 7;
    var b := Shift(a, 12) + counter;
    var c := Shift(b, 2) + 2;
    LowFits(random, 62);
    Lowest(c, 62, Low(random, 62));
    Lowest(b, 2, 2);
    Lowest(a, 12, counter);
    Lowest(timestamp, 4, 7);
    ShiftedTwice(id, 62, 2);
    ShiftedTwice(id, 64, 12);
    ShiftedTwice(id, 76, 4);
  }

  lemma {:induction false} LowFits(n: nat, k: nat)
    ensures Low(n, k) < Pow2(k)
  {
    if k > 0 { LowFits(n / 2, k - 1); }
  }

  lemma ShiftDoubles(n: nat, k: nat)
    requires k > 0
    ensures Shift(n, k) == 2 * Shift(n, k - 1)
  {
    DoubleOut(n, Pow2(k - 1));
  }

  /** The lowest field of a layout, and what stands above it. */
  lemma {:induction false} Lowest(above: nat, width: nat, field: nat)
    requires field < Pow2(width)
    ensures High(Shift(above, width) + field, width) == above && Low(Shift(above, width) + field, width) == field
  {
    if width > 0 {
      var sum := Shift(above, width) + field;
      ShiftDoubles(above, width);
      assert sum / 2 == Shift(above, width - 1) + field / 2 && sum % 2 == field % 2;
      hide Shift;
      Lowest(above, width - 1, field / 2);
    }
  }

  /** Layouts compare by what stands above, then by the lowest field. */
  lemma LayoutOrder(above1: nat, above2: nat, width: nat, field1: nat, field2: nat)
    requires field1 < Pow2(width) && field2 < Pow2(width)
    requires above1 < above2 || (above1 == above2 && field1 < field2)
    ensures Shift(above1, width) + field1 < Shift(above2, width) + field2
  {
    if above1 < above2 {
      TimesAtLeast(above1 + 1, above2, Pow2(width));
      Distribute(above1, 1, Pow2(width));
    }
  }

  lemma {:induction false} ShiftedTwice(n: nat, j: nat, k: nat)
    ensures High(High(n, j), k) == High(n, j + k)
  {
    if j > 0 { ShiftedTwice(n / 2, j - 1, k); }
  }

  // ---------------------------------------------------------------- the generator

  /** The last millisecond issued, and the count within it. */
  datatype Stamp = Stamp(timestamp: int, counter: nat)

  predicate Before(a: Stamp, b: Stamp) {
    a.timestamp < b.timestamp || (a.timestamp == b.timestamp && a.counter < b.counter)
  }

  /** What one call issues: the first reading, and the later one if it had to wait for the clock. */
  function After(s: Stamp, now: int, waited: int): Stamp {
    if now == s.timestamp then
      if s.counter + 1 > COUNTER_MAX then Stamp(waited, 0) else Stamp(s.timestamp, s.counter + 1)
    else if now < s.timestamp then
      if s.counter + 1 > COUNTER_MAX then Stamp(s.timestamp + 1, 0) else Stamp(s.timestamp, s.counter + 1)
    else Stamp(now, 0)
  }

  class Generator {
    /** What the clock says at its n-th reading, in nanoseconds. Nothing is assumed of it but that it gets past any
        moment eventually. */
    const reading: nat -> int
    var readings: nat
    var lastTimestamp: int
    var counter: nat

    ghost predicate Valid()
      reads this
    {
      counter <= COUNTER_MAX && Advances(reading)
    }

    ghost function Last(): Stamp
      reads this
    {
      Stamp(lastTimestamp, counter)
    }

    constructor (reading: nat -> int)
      requires Advances(reading)
      ensures Valid() && Last() == Stamp(-1, 0) && readings == 0
    {
      this.reading, readings, lastTimestamp, counter := reading, 0, -1, 0;
    }

    method ReadClock() returns (millis: int)
      modifies this`readings
      ensures readings == old(readings) + 1 && millis == reading(old(readings)) / NANOS_PER_MILLI
    {
      millis := reading(readings) / NANOS_PER_MILLI;
      readings := readings + 1;
    }

    /** Every call issues a later stamp than any before, whatever the clock does; the counter keeps to its 12 bits. */
    method Next(random: nat) returns (id: nat, ghost waited: int)
      requires Valid()
      modifies this
      ensures Valid()
      ensures Last() == After(old(Last()), reading(old(readings)) / NANOS_PER_MILLI, waited)
      ensures waited > old(lastTimestamp)
      ensures var now, last := reading(old(readings)) / NANOS_PER_MILLI, old(lastTimestamp);
              && (now > last ==> lastTimestamp == now && counter == 0)
              && (now <= last && old(counter) < COUNTER_MAX ==> lastTimestamp == last && counter == old(counter) + 1)
              && (now == last && old(counter) == COUNTER_MAX ==> lastTimestamp == waited && counter == 0)
              && (now < last && old(counter) == COUNTER_MAX ==> lastTimestamp == last + 1 && counter == 0)
      ensures id == Encode(lastTimestamp, counter, random)
    {
      waited := lastTimestamp + 1;
      var timestamp := ReadClock();
      if timestamp == lastTimestamp {
        counter := counter + 1;
        if counter > COUNTER_MAX {
          timestamp := WaitPast(timestamp);
          waited := timestamp;
          counter := 0;
        }
      } else if timestamp < lastTimestamp {
        timestamp := lastTimestamp;
        counter := counter + 1;
        if counter > COUNTER_MAX {
          timestamp := lastTimestamp + 1;
          counter := 0;
        }
      } else {
        counter := 0;
      }
      lastTimestamp := timestamp;
      id := Encode(timestamp, counter, random);
    }

    /** Reads the clock until it is past the last millisecond issued. */
    method WaitPast(now: int) returns (timestamp: int)
      requires Advances(reading)
      modifies this`readings
      ensures timestamp > lastTimestamp
    {
      timestamp := now;
      ghost var from := readings;
      ghost var past := (lastTimestamp + 1) * NANOS_PER_MILLI;
      assert GetsPast(reading, past, from);
      ghost var pastAt: nat :| pastAt >= from && reading(pastAt) > past;
      while timestamp <= lastTimestamp
        invariant from <= readings <= pastAt + 1
        invariant readings == pastAt + 1 ==> timestamp > lastTimestamp
        decreases pastAt + 1 - readings
      {
        timestamp := ReadClock();
        if readings == pastAt + 1 {
          LaterMillis(reading(pastAt), lastTimestamp);
        }
      }
    }
  }

  /** The clock gets past any moment, at some reading after any given one. */
  ghost predicate Advances(reading: nat -> int) {
    forall moment: int, n: nat :: GetsPast(reading, moment, n)
  }

  ghost predicate GetsPast(reading: nat -> int, moment: int, n: nat) {
    exists m: nat :: m >= n && reading(m) > moment
  }

  lemma LaterMillis(nanos: int, millis: int)
    requires nanos > (millis + 1) * NANOS_PER_MILLI
    ensures nanos / NANOS_PER_MILLI > millis
  {
  }

  // ---------------------------------------------------------------- every sequence of calls

  /** What the clock and the random source gave one call. */
  datatype Call = Call(now: int, waited: int, random: nat)

  function Stamps(calls: seq<Call>): Stamp {
    if calls == [] then Stamp(-1, 0)
    else After(Stamps(calls[..|calls| - 1]), calls[|calls| - 1].now, calls[|calls| - 1].waited)
  }

  /** The id the last of these calls issues. */
  function Issued(calls: seq<Call>): nat
    requires calls != []
  {
    Encode(Stamps(calls).timestamp, Stamps(calls).counter, calls[|calls| - 1].random)
  }

  /** Waiting always ended past the last millisecond issued. */
  predicate Waits(calls: seq<Call>) {
    forall i :: 0 <= i < |calls| ==> calls[i].waited > Stamps(calls[..i]).timestamp
  }

  /** A call issues a later stamp whatever the clock read, and the counter keeps to its bits. */
  lemma AfterIsLater(s: Stamp, now: int, waited: int)
    requires s.counter <= COUNTER_MAX && waited > s.timestamp
    ensures Before(s, After(s, now, waited)) && After(s, now, waited).counter <= COUNTER_MAX
  {
  }

  lemma PrefixWaits(calls: seq<Call>, n: nat)
    requires n <= |calls| && Waits(calls)
    ensures Waits(calls[..n])
  {
    hide Stamps;
    assert forall i :: 0 <= i < n ==> calls[..n][..i] == calls[..i] && calls[..n][i] == calls[i];
  }

  lemma {:induction false} LaterCallsLaterStamps(calls: seq<Call>, n: nat)
    requires n <= |calls| && Waits(calls)
    ensures Stamps(calls).counter <= COUNTER_MAX
    ensures n < |calls| ==> Before(Stamps(calls[..n]), Stamps(calls))
    decreases |calls|
  {
    if calls != [] {
      hide After, Before;
      var last := |calls| - 1;
      var init := calls[..last];
      PrefixWaits(calls, last);
      LaterCallsLaterStamps(init, if n < last then n else last);
      AfterIsLater(Stamps(init), calls[last].now, calls[last].waited);
      if n < last {
        assert init[..n] == calls[..n];
      }
    }
  }

  lemma CallFollowsTheClock(s: Stamp, now: int, waited: int)
    requires waited > s.timestamp
    ensures After(s, now, waited).timestamp >= now && After(s, now, waited).timestamp >= s.timestamp
    ensures s.counter < COUNTER_MAX ==>
              && After(s, now, waited).counter <= s.counter + 1
              && After(s, now, waited).timestamp in {s.timestamp, now}
  {
  }

  /** No stamp is behind any reading of the clock. */
  lemma {:induction false} NeverBehindTheClock(calls: seq<Call>, n: nat)
    requires n < |calls| && Waits(calls)
    ensures calls[n].now <= Stamps(calls).timestamp
    decreases |calls|
  {
    hide After, Waits;
    var last := |calls| - 1;
    PrefixWaits(calls, last);
    LastWaits(calls);
    CallFollowsTheClock(Stamps(calls[..last]), calls[last].now, calls[last].waited);
    if n < last {
      assert calls[..last][n] == calls[n];
      NeverBehindTheClock(calls[..last], n);
    }
  }

  lemma LastWaits(calls: seq<Call>)
    requires calls != [] && Waits(calls)
    ensures calls[|calls| - 1].waited > Stamps(calls[..|calls| - 1]).timestamp
  {
    hide Stamps;
  }

  /** `at` is -1 or what the clock read for one of these calls. */
  predicate WasRead(calls: seq<Call>, at: int) { at == -1 || exists i :: 0 <= i < |calls| && calls[i].now == at }

  /** Only a counter that ran out puts a stamp ahead of the clock: before 4096 calls could have used it up, every stamp
      is a millisecond some call read. */
  lemma {:induction false} NotAheadOfTheClock(calls: seq<Call>)
    requires |calls| <= COUNTER_MAX && Waits(calls)
    ensures Stamps(calls).counter <= |calls| && WasRead(calls, Stamps(calls).timestamp)
  {
    hide After, Waits;
    if calls != [] {
      var last := |calls| - 1;
      var init := calls[..last];
      PrefixWaits(calls, last);
      LastWaits(calls);
      NotAheadOfTheClock(init);
      CallFollowsTheClock(Stamps(init), calls[last].now, calls[last].waited);
      assert forall i :: 0 <= i < last ==> init[i] == calls[i];
    }
  }

  lemma BeforeEncodesBelow(a: Stamp, b: Stamp, ra: nat, rb: nat)
    requires Before(a, b) && a.counter <= COUNTER_MAX && b.counter <= COUNTER_MAX
    requires 0 <= a.timestamp && b.timestamp < TIMESTAMPS
    ensures Encode(a.timestamp, a.counter, ra) < Encode(b.timestamp, b.counter, rb)
  {
    hide Encode, Shift, Low, Pow2;
    PowersOfTwo();
    EncodeIsLayout(a.timestamp, a.counter, ra);
    EncodeIsLayout(b.timestamp, b.counter, rb);
    LowFits(ra, 62);
    LowFits(rb, 62);
    var a1, b1 := Shift(a.timestamp, 4) + 7, Shift(b.timestamp, 4) + 7;
    var a2, b2 := Shift(a1, 12) + a.counter, Shift(b1, 12) + b.counter;
    if a.timestamp < b.timestamp { LayoutOrder(a.timestamp, b.timestamp, 4, 7, 7); }
    LayoutOrder(a1, b1, 12, a.counter, b.counter);
    LayoutOrder(a2, b2, 2, 2, 2);
    LayoutOrder(Shift(a2, 2) + 2, Shift(b2, 2) + 2, 62, Low(ra, 62), Low(rb, 62));
  }

  /** For every clock, however it steps, and every burst: ids are strictly increasing as integers while the timestamp
      fits its 48 bits. */
  lemma IdsIncrease(calls: seq<Call>, n: nat)
    requires 0 < n < |calls| && Waits(calls)
    requires 0 <= Stamps(calls[..n]).timestamp && Stamps(calls).timestamp < TIMESTAMPS
    ensures Issued(calls[..n]) < Issued(calls)
  {
    hide Encode, Before, After, Stamps, Waits;
    LaterCallsLaterStamps(calls, n);
    PrefixWaits(calls, n);
    LaterCallsLaterStamps(calls[..n], n);
    BeforeEncodesBelow(Stamps(calls[..n]), Stamps(calls), calls[n - 1].random, calls[|calls| - 1].random);
  }
}
