/** How long automatic repair waits between attempts on one session. */
module RepairBackoff {
  import opened Calendar

  const MAX_COOLDOWN := 30 * MINUTE
  const DEFAULT_COOLDOWN := MINUTE
  const MAX_SHIFT := 16

  const INT64 := 0x1_0000_0000_0000_0000

  /** The value a 64-bit signed integer holds after wrapping around. */
  function Wrap64(n: int): (w: int)
    ensures -(INT64 / 2) <= w < INT64 / 2
    ensures (n - w) % INT64 == 0
  {
    (n + INT64 / 2) % INT64 - INT64 / 2
  }

  /** The configured base cooldown; the product wraps around as the source's does. */
  function CooldownDuration(minutes: int): int {
    if minutes > 0 then Wrap64(minutes * MINUTE) else DEFAULT_COOLDOWN
  }

  function Pow2(n: nat): (p: nat)
    ensures p >= 1
  {
    if n == 0 then 1 else 2 * Pow2(n - 1)
  }

  function Min(a: int, b: int): int {
    if a <= b then a else b
  }

  function CooldownFor(attemptCount: int, base: int): (wait: int)
    ensures 0 < wait <= MAX_COOLDOWN
  {
    if base <= 0 || base >= MAX_COOLDOWN then MAX_COOLDOWN
    else if attemptCount <= 0 then base
    else
      var shift := Min(attemptCount - 1, MAX_SHIFT);
      var factor := Pow2(shift);
      if base > MAX_COOLDOWN / factor then MAX_COOLDOWN
      else
        Product(base, factor, MAX_COOLDOWN);
        base * factor
  }

  /** The guard before the multiplication is exact, so the product stays far inside 64 bits. */
  lemma Product(base: int, factor: int, cap: int)
    requires base > 0 && factor > 0 && cap >= 0
    ensures base > cap / factor <==> base * factor > cap
    ensures base * factor > 0
  {
    var q := cap / factor;
    assert q * factor <= cap < (q + 1) * factor;
    if base > q {
      assert base * factor >= (q + 1) * factor by { Scale(q + 1, base, factor); }
    } else {
      Scale(base, q, factor);
    }
    Scale(1, base, factor);
  }

  lemma Scale(a: int, b: int, k: int)
    requires a <= b && 0 <= k
    ensures a * k <= b * k
  {
  }

  lemma {:induction false} Pow2Order(m: nat, n: nat)
    requires m <= n
    ensures Pow2(m) <= Pow2(n)
    decreases n
  {
    if m < n {
      Pow2Order(m, n - 1);
    }
  }

  lemma Pow2Sixteen()
    ensures Pow2(MAX_SHIFT) == 65536
  {
    assert Pow2(4) == 16 && Pow2(8) == 256 && Pow2(12) == 4096;
  }

  /** Written without the shift cap and the division, the schedule is a capped doubling. */
  function CappedDoubling(n: int, base: int): int
    requires n >= 1
  {
    Min(base * Pow2(n - 1), MAX_COOLDOWN)
  }

  /** The schedule is that doubling exactly until the shift cap binds: past seventeen
      failures a base too small for 65536 times it to reach the ceiling stops growing. */
  lemma CooldownIsCappedDoubling(n: int, base: int)
    requires n >= 1 && base > 0
    ensures CooldownFor(n, base) == CappedDoubling(n, base) <==> (n <= MAX_SHIFT + 1 || base * 65536 >= MAX_COOLDOWN)
  {
    Pow2Sixteen();
    var shift := Min(n - 1, MAX_SHIFT);
    var factor := Pow2(shift);
    Product(base, factor, MAX_COOLDOWN);
    Pow2Order(shift, n - 1);
    Scale(factor, Pow2(n - 1), base);
    if base >= MAX_COOLDOWN {
      Scale(1, factor, base);
      Scale(base, base, 1);
      Scale(1, 65536, base);
    } else if n > MAX_SHIFT + 1 {
      Pow2Order(MAX_SHIFT + 1, n - 1);
      assert Pow2(MAX_SHIFT + 1) == 2 * 65536;
      Scale(2 * 65536, Pow2(n - 1), base);
    }
  }

  /** The configured minutes do not wrap to a base below a minute: a whole number of
      minutes does so only past what 64 bits hold. */
  predicate SafeMinutes(minutes: int) {
    minutes <= 0 || minutes * MINUTE % INT64 == 0 || minutes * MINUTE % INT64 >= MINUTE
  }

  lemma WrapIs(n: int)
    ensures (var r := n % INT64; Wrap64(n) == if r < INT64 / 2 then r else r - INT64)
  {
    var q, r := n / INT64, n % INT64;
    assert n == q * INT64 + r;
    if r < INT64 / 2 {
      Wrapped(q, r);
    } else {
      assert n + INT64 / 2 == (q + 1) * INT64 + (r - INT64 / 2);
    }
  }

  /** The base cooldown is at least a minute exactly for those settings; one that
      wraps to nothing, or below it, reads as the ceiling. */
  lemma ConfiguredBase(minutes: int)
    ensures CooldownFor(0, CooldownDuration(minutes)) >= MINUTE <==> SafeMinutes(minutes)
    ensures minutes * MINUTE < INT64 / 2 ==> SafeMinutes(minutes)
  {
    var product := minutes * MINUTE;
    assert 0 < minutes ==> MINUTE <= product;
    WrapIs(product);
    if 0 <= product < INT64 / 2 {
      Wrapped(0, product);
    }
    hide Wrap64;
  }

  /** A number of minutes that does not fit can wrap to a base of a few microseconds. */
  lemma HugeConfigWraps()
    ensures CooldownDuration(3749353613647811) == 2048 && !SafeMinutes(3749353613647811)
    ensures CooldownFor(100, CooldownDuration(3749353613647811)) < SECOND < CappedDoubling(100, 2048)
  {
    Wrapped(12195172, 2048);
    assert 3749353613647811 * MINUTE == 12195172 * INT64 + 2048;
    StillSmall();
    hide CooldownFor, CappedDoubling, Wrap64;
  }

  lemma Wrapped(k: int, w: int)
    requires 0 <= w < INT64 / 2
    ensures Wrap64(k * INT64 + w) == w && (k * INT64 + w) % INT64 == w
  {
  }

  lemma Pow2Five(n: nat)
    ensures Pow2(n + 5) == 32 * Pow2(n)
  {
    assert Pow2(n + 2) == 4 * Pow2(n) && Pow2(n + 4) == 4 * Pow2(n + 2);
  }

  lemma StillSmall()
    ensures CooldownFor(100, 2048) < SECOND < CappedDoubling(100, 2048)
  {
    Pow2Sixteen();
    Pow2Five(16);
    Pow2Five(21);
    Pow2Five(26);
    Pow2Order(31, 99);
    Scale(Pow2(31), Pow2(99), 2048);
    hide Pow2;
    assert CooldownFor(100, 2048) == 2048 * 65536;
  }

  lemma CooldownMonotone(m: int, n: int, base: int)
    requires m <= n
    ensures CooldownFor(m, base) <= CooldownFor(n, base)
  {
    if 0 < base < MAX_COOLDOWN && n > 0 {
      var big := Pow2(Min(n - 1, MAX_SHIFT));
      Product(base, big, MAX_COOLDOWN);
      Scale(1, big, base);
      if m > 0 {
        var small := Pow2(Min(m - 1, MAX_SHIFT));
        Product(base, small, MAX_COOLDOWN);
        Pow2Order(Min(m - 1, MAX_SHIFT), Min(n - 1, MAX_SHIFT));
        Scale(small, big, base);
      }
    }
  }
}
