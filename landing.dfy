/**
 * The winner arithmetic: which segment is armed as the winner, the angle the
 * spin animates to, and the inverse map from a settled angle back to the
 * index `_getWinnerIndex` reports.  The main theorem, RoundTrip, says the inverse
 * recovers the armed winner; it needs three conditions the component never
 * checks (a winner in range, at most 65 segments, and a whole number of
 * seconds of spin), and the lemmas after it show that dropping either of the
 * last two breaks it.
 */
module Landing {
  import opened Wrappers
  import opened JsMath
  import Layout

  /** JavaScript truthiness of the configured winner index: absent and 0 are falsy. */
  predicate Truthy(configured: Option<int>)
  {
    configured.Some? && configured.value != 0
  }

  /** The winner `prepareWheel` arms: the configured index when it is truthy,
      otherwise `Math.floor(rnd * N)` for the draw `rnd` of `Math.random()`. */
  function ArmedWinner(configured: Option<int>, rnd: real, n: int): (w: int)
    requires n >= 1 && 0.0 <= rnd < 1.0
    ensures Truthy(configured) ==> w == configured.value
    ensures !Truthy(configured) ==> 0 <= w < n
  {
    if Truthy(configured) then configured.value
    else
      MulMonotone(0.0, rnd, n as real);
      MulStrict(rnd, 1.0, n as real);
      Floor(rnd * n as real)
  }

  /** A configured winner of 0 is falsy, so it is drawn at random like an
      absent one: every segment, including 0, can then be drawn. */
  lemma ZeroWinnerIsRandom(k: int, n: int)
    requires 0 <= k < n
    ensures 0.0 <= k as real / n as real < 1.0
    ensures ArmedWinner(Some(0), k as real / n as real, n) == k
    ensures ArmedWinner(None, k as real / n as real, n) == k
  {
    var rnd := k as real / n as real;
    assert rnd * n as real == k as real;
    Unscale(k as real, n as real, rnd, 0.0, 1.0);
  }

  /** `options.duration || 10000`: an absent or zero duration means 10 s. */
  function EffectiveDuration(duration: Option<real>): (d: real)
    ensures d != 0.0
    ensures duration.Some? && duration.value != 0.0 ==> d == duration.value
    ensures duration.None? || duration.value == 0.0 ==> d == 10000.0
  {
    if duration.Some? && duration.value != 0.0 then duration.value else 10000.0
  }

  /** A spin duration that is a non-negative whole number of seconds. */
  predicate WholeSeconds(duration: real)
  {
    duration >= 0.0 && Floor(duration / 1000.0) as real == duration / 1000.0
  }

  /** An unconfigured (or zero) duration falls back to 10 s, a whole number
      of seconds, so with at most 65 segments such a spin lands on the armed
      winner whenever that winner is in range. */
  lemma DefaultDurationLands(w: int, n: int, duration: Option<real>)
    requires 1 <= n <= 65 && 0 <= w < n
    requires duration.None? || duration.value == 0.0
    ensures WholeSeconds(EffectiveDuration(duration))
    ensures LandedIndex(TargetAngle(w, n, EffectiveDuration(duration)), n) == w
  {
    assert EffectiveDuration(duration) / 1000.0 == 10.0;
    RoundTripForDuration(w, n, EffectiveDuration(duration));
  }

  /** The `toValue` that `start` animates to:
      `365 - winner * (oneTurn / numberOfSegments) + 360 * (duration / 1000)`.
      For a winner in range and a non-negative duration it is positive, so the
      clockwise branch of the inverse applies. */
  function TargetAngle(w: int, n: int, duration: real): (t: real)
    requires n >= 1
    ensures 0 <= w < n && duration >= 0.0 ==> t >= 5.0 + Layout.AngleBySegment(n)
  {
    var s := Layout.AngleBySegment(n);
    WinnerOffsetBounds(w, n);
    365.0 - w as real * s + 360.0 * (duration / 1000.0)
  }

  /** How far the armed winner's segment start is from one full turn. */
  lemma WinnerOffsetBounds(w: int, n: int)
    requires n >= 1
    ensures 0 <= w < n ==> 0.0 <= w as real * Layout.AngleBySegment(n) <= 360.0 - Layout.AngleBySegment(n)
    ensures 1 <= w < n ==> Layout.AngleBySegment(n) <= w as real * Layout.AngleBySegment(n)
  {
    if 0 <= w < n {
      Layout.SegmentStartMonotone(0, w, n);
      Layout.SegmentStartMonotone(w, n - 1, n);
      Layout.SegmentWidth(n - 1, n);
      if 1 <= w {
        Layout.SegmentStartMonotone(1, w, n);
      }
    }
  }

  /** `_getWinnerIndex`: the index the component reports once the wheel has
      settled at `angle`.  `deg = abs(round(angle % 360))`; a negative angle
      (counter-clockwise turn) gives `floor(deg / angleBySegment)`, any other
      gives `(N - floor(deg / angleBySegment)) % N`.  The clockwise result is
      always a valid index; the counter-clockwise one is N, one past the
      last index, exactly when `angle % 360` rounds to -360. */
  function LandedIndex(angle: real, n: int): (r: int)
    requires n >= 1
    ensures 0 <= r <= n
    ensures angle >= 0.0 ==> r < n
    ensures angle < 0.0 ==> (r == n <==> Round(Rem(angle, 360.0)) == -360)
  {
    var deg := Abs(Round(Rem(angle, 360.0)));
    SegmentOf(deg, n);
    if angle < 0.0 then Floor(deg as real / Layout.AngleBySegment(n))
    else RemInt(n - Floor(deg as real / Layout.AngleBySegment(n)), n)
  }

  /** The segment counted from a rounded angle of at most one turn: a whole
      index from 0 to N, and N only for a full turn. */
  lemma SegmentOf(deg: int, n: int)
    requires n >= 1 && 0 <= deg <= 360
    ensures 0 <= Floor(deg as real / Layout.AngleBySegment(n)) <= n
    ensures Floor(deg as real / Layout.AngleBySegment(n)) == n <==> deg == 360
  {
    var s := Layout.AngleBySegment(n);
    var q := deg as real / s;
    assert q * s == deg as real;
    Unscale(deg as real, s, q, 0.0, n as real);
    assert n as real * s == 360.0;
    if deg == 360 {
      Layout.Cancel(q, n as real, s);
    }
  }

  /** Bounds on `x = y * m` become bounds on the quotient y. */
  lemma Unscale(x: real, m: real, y: real, lo: real, hi: real)
    requires m > 0.0 && y * m == x
    ensures lo * m <= x ==> lo <= y
    ensures x < hi * m ==> y < hi
    ensures x <= hi * m ==> y <= hi
  {
    if y < lo { MulStrict(y, lo, m); }
    if hi <= y { MulMonotone(hi, y, m); }
    if hi < y { MulStrict(hi, y, m); }
  }

  /** `Math.floor(x / m)` is k when x lies in the k-th band of width m. */
  lemma FloorOfQuotient(x: real, m: real, k: int)
    requires m > 0.0
    requires k as real * m <= x < (k + 1) as real * m
    ensures Floor(x / m) == k
  {
    var y := x / m;
    assert y * m == x;
    Unscale(x, m, y, k as real, (k + 1) as real);
  }

  /** `x % 360` for an x in the q-th turn. */
  lemma RemInTurn(x: real, q: nat)
    requires q as real * 360.0 <= x < q as real * 360.0 + 360.0
    ensures Rem(x, 360.0) == x - q as real * 360.0
  {
    FloorOfQuotient(x, 360.0, q);
  }

  /** Landing recovers the armed winner: for a winner in range, at most 65
      segments and a spin lasting a whole number of seconds, the settled angle
      `TargetAngle` maps back to that winner under `LandedIndex`. */
  lemma RoundTrip(w: int, n: int, seconds: nat)
    requires 1 <= n <= 65 && 0 <= w < n
    ensures LandedIndex(TargetAngle(w, n, 1000.0 * seconds as real), n) == w
  {
    var t := TargetAngle(w, n, 1000.0 * seconds as real);
    assert t == 365.0 - w as real * Layout.AngleBySegment(n) + 360.0 * seconds as real;
    if w == 0 {
      LandsFromFirst(n, seconds, t);
    } else {
      LandsFromLater(w, n, seconds, t);
    }
  }

  /** RoundTrip for winner 0: the remainder is 5 degrees, inside segment 0. */
  lemma LandsFromFirst(n: int, seconds: nat, t: real)
    requires 1 <= n <= 65
    requires t == 365.0 + 360.0 * seconds as real
    ensures LandedIndex(t, n) == 0
  {
    RemInTurn(t, seconds + 1);
    assert Rem(t, 360.0) == 5.0;
    assert Round(5.0) == 5;
    FloorOfQuotient(5.0, Layout.AngleBySegment(n), 0);
    DivModUnique(n, n, 1, 0);
  }

  /** RoundTrip for a winner w >= 1: the remainder is 5 degrees past the
      start of segment N - w, and rounding keeps it inside that segment
      because each segment is wider than 5.5 degrees. */
  lemma LandsFromLater(w: int, n: int, seconds: nat, t: real)
    requires 1 <= n <= 65 && 1 <= w < n
    requires t == 365.0 - w as real * Layout.AngleBySegment(n) + 360.0 * seconds as real
    ensures LandedIndex(t, n) == w
  {
    LaterOffset(w, n);
    RemInTurn(t, seconds);
    RoundedInSegment(t, n, n - w);
  }

  /** For w >= 1, `365 - w * 360/N` is 5 degrees past the start of segment
      N - w, and lies strictly inside the first turn. */
  lemma LaterOffset(w: int, n: int)
    requires 1 <= n <= 65 && 1 <= w < n
    ensures 365.0 - w as real * Layout.AngleBySegment(n) == 5.0 + (n - w) as real * Layout.AngleBySegment(n)
    ensures 5.0 < 365.0 - w as real * Layout.AngleBySegment(n) < 360.0
  {
    var s := Layout.AngleBySegment(n);
    WinnerOffsetBounds(w, n);
    assert (n - w) as real * s == n as real * s - w as real * s;
    assert n as real * s == s * n as real;
  }

  /** A clockwise angle whose remainder sits 5 degrees past the start of
      segment j (j >= 1) lands on segment N - j, since rounding moves it by at
      most half a degree and each segment is wider than 5.5 degrees. */
  lemma RoundedInSegment(t: real, n: int, j: int)
    requires 1 <= n <= 65 && 1 <= j < n && t >= 0.0
    requires Rem(t, 360.0) == 5.0 + j as real * Layout.AngleBySegment(n)
    ensures LandedIndex(t, n) == n - j
  {
    var y := Rem(t, 360.0);
    var d := Round(y);
    SegmentOfRounded(y, n, j);
    assert Abs(d) == d;
    DivModUnique(n - j, n, 0, n - j);
  }

  /** The segment count of `round(5 + j * 360/N)` is j. */
  lemma SegmentOfRounded(y: real, n: int, j: int)
    requires 1 <= n <= 65 && 1 <= j < n
    requires y == 5.0 + j as real * Layout.AngleBySegment(n)
    ensures Round(y) >= 0
    ensures Floor(Round(y) as real / Layout.AngleBySegment(n)) == j
  {
    var s := Layout.AngleBySegment(n);
    var d := Round(y);
    CountTimesWidth(j, s);
    RoundNear(y, d, j as real * s, s);
    assert (j + 1) as real * s == j as real * s + s;
    FloorOfQuotient(d as real, s, j);
  }

  /** A count of segment widths is not negative. */
  lemma CountTimesWidth(j: int, s: real)
    requires j >= 0 && s > 0.0
    ensures j as real * s >= 0.0
  {
  }

  /** Rounding `5 + a` stays within `[a, a + s)` when s > 5.5. */
  lemma RoundNear(x: real, d: int, a: real, s: real)
    requires x == 5.0 + a && d == Round(x) && s > 5.5 && a >= 0.0
    ensures a <= d as real < a + s && d >= 0
  {
  }

  /** RoundTrip stated on the duration in milliseconds, as `start` uses it:
      any non-negative whole number of seconds. */
  lemma RoundTripForDuration(w: int, n: int, duration: real)
    requires 1 <= n <= 65 && 0 <= w < n
    requires WholeSeconds(duration)
    ensures LandedIndex(TargetAngle(w, n, duration), n) == w
  {
    var seconds := Floor(duration / 1000.0);
    assert 1000.0 * seconds as real == duration;
    RoundTrip(w, n, seconds);
  }

  /** Four rewards, winner 2, one second: the wheel turns to 545 degrees and
      lands on segment 2. */
  lemma FourRewardsLandOnTwo()
    ensures TargetAngle(2, 4, 1000.0) == 545.0
    ensures LandedIndex(545.0, 4) == 2
  {
    RoundTrip(2, 4, 1);
  }

  /** Without whole seconds the round trip fails: four rewards, winner 0 and
      1.5 s turn to 905 degrees, which lands on segment 2. */
  lemma FractionalSecondsMissTheWinner()
    ensures TargetAngle(0, 4, 1500.0) == 905.0
    ensures LandedIndex(905.0, 4) == 2
  {
    assert Layout.AngleBySegment(4) == 90.0;
    RemInTurn(905.0, 2);
    assert Rem(905.0, 360.0) == 185.0;
    assert Round(185.0) == 185;
    FloorOfQuotient(185.0, 90.0, 2);
  }

  /** Without the bound on the segment count the round trip fails: with 66
      rewards, winner 1 and one second, the remainder 359.54... rounds up to
      a full turn and the wheel reports segment 0. */
  lemma ManySegmentsMissTheWinner()
    ensures LandedIndex(TargetAngle(1, 66, 1000.0), 66) == 0
  {
    var s := Layout.AngleBySegment(66);
    assert s == 60.0 / 11.0;
    var t := TargetAngle(1, 66, 1000.0);
    assert t == 7915.0 / 11.0;
    RemInTurn(t, 1);
    assert Rem(t, 360.0) == 3955.0 / 11.0;
    assert Floor(3955.0 / 11.0 + 0.5) == 360;
    SegmentOf(360, 66);
  }

  /** The inverse depends on the direction of the turn: -100 and 260 degrees
      are the same position, yet a counter-clockwise turn to -100 reports
      segment 1 and a clockwise turn to 260 reports segment 2. */
  lemma DirectionMatters()
    ensures Rem(-100.0, 360.0) + 360.0 == 260.0
    ensures LandedIndex(-100.0, 4) == 1
    ensures LandedIndex(260.0, 4) == 2
  {
    assert Layout.AngleBySegment(4) == 90.0;
    assert Trunc(-100.0 / 360.0) == 0;
    assert Rem(-100.0, 360.0) == -100.0;
    assert Round(-100.0) == -100;
    FloorOfQuotient(100.0, 90.0, 1);
    RemInTurn(260.0, 0);
    assert Round(260.0) == 260;
    FloorOfQuotient(260.0, 90.0, 2);
  }

  /** A clockwise angle just short of a full turn rounds up to 360; the final
      `% N` maps that back to segment 0 rather than past the last index. */
  lemma NearlyFullTurnLandsOnZero(n: int)
    requires n >= 1
    ensures LandedIndex(359.7, n) == 0
  {
    RemInTurn(359.7, 0);
    assert Round(359.7) == 360;
    SegmentOf(360, n);
  }
}
