/**
 * The static layout of the wheel: how many segments there are, how wide each
 * one is, which reward and colour each carries, and where its label is
 * turned to.  Segment geometry is the ideal, unpadded pie layout: d3's pie of
 * N equal weights gives segment i the arc from i*360/N to (i+1)*360/N.
 */
module Layout {
  import opened Wrappers
  import JsMath

  /** The colours used when the options give none (src/index.js:85-96). */
  const DefaultPalette: seq<string> := [
    "#E07026", "#E8C22E", "#ABC937", "#4F991D", "#22AFD3",
    "#5858D0", "#7B48C8", "#D843B9", "#E23B80", "#D82B2B"
  ]

  /** One entry of the wheel: its colour (JavaScript `undefined` when the
      palette is an empty array) and its reward.  Entry i's arc is the ideal
      one from SegmentStart(i, N) to SegmentStart(i + 1, N). */
  datatype Entry<R> = Entry(color: Option<string>, value: R)

  /** `oneTurn / numberOfSegments`: the width of one segment in degrees. */
  function AngleBySegment(n: int): (r: real)
    requires n >= 1
    ensures r > 0.0
    ensures r * n as real == 360.0
    ensures n as real * r == 360.0
    ensures n <= 65 ==> r > 5.5
    ensures r <= 360.0
  {
    var s := 360.0 / n as real;
    assert s * n as real == 360.0;
    ScaleCount(s, n, 65);
    ScaleCount(s, 1, n);
    s
  }

  /** A positive factor times a smaller count gives a smaller product. */
  lemma ScaleCount(s: real, a: int, b: int)
    requires s > 0.0
    ensures a <= b ==> s * a as real <= s * b as real
  {
  }

  /** `angleBySegment / 2`: from a segment's edge to its middle. */
  function AngleOffset(n: int): (r: real)
    requires n >= 1
    ensures r > 0.0
    ensures 2.0 * r * n as real == 360.0
  {
    AngleBySegment(n) / 2.0
  }

  /** The palette `makeWheel` cycles through: the configured colours when
      there are any (an empty array still counts as given), else the default. */
  function Palette(colors: Option<seq<string>>): (p: seq<string>)
    ensures colors.Some? ==> p == colors.value
    ensures colors.None? ==> |p| == 10
  {
    match colors
    case Some(c) => c
    case None => DefaultPalette
  }

  /** `colors[index % colors.length]`; indexing with NaN gives `undefined`.
      A defined colour is always one of the palette's own colours. */
  function ColorAt(palette: seq<string>, i: nat): (c: Option<string>)
    ensures |palette| == 0 <==> c.None?
    ensures c.Some? ==> c.value in palette
  {
    if |palette| == 0 then None else Some(palette[i % |palette|])
  }

  /** Moving one whole palette length along gives the same colour, and a
      palette at least as long as the wheel is used without repeating. */
  lemma ColorAtPeriodic(palette: seq<string>, i: nat)
    ensures |palette| > 0 ==> ColorAt(palette, i + |palette|) == ColorAt(palette, i)
    ensures i < |palette| ==> ColorAt(palette, i) == Some(palette[i])
  {
    if |palette| > 0 {
      ModShift(i, |palette|);
    }
  }

  /** `makeWheel`: one entry per reward, in the rewards' order. */
  function MakeWheel<R>(rewards: seq<R>, colors: Option<seq<string>>): (w: seq<Entry<R>>)
    ensures |w| == |rewards|
    ensures forall i :: 0 <= i < |w| ==> w[i].value == rewards[i]
    ensures forall i :: 0 <= i < |w| ==> w[i].color == ColorAt(Palette(colors), i)
    ensures forall i :: 0 <= i < |w| && w[i].color.Some? ==> w[i].color.value in Palette(colors)
  {
    seq(|rewards|, i requires 0 <= i < |rewards| => Entry(ColorAt(Palette(colors), i), rewards[i]))
  }

  /** Where d3's pie of N equal weights starts arc i, in degrees. */
  function SegmentStart(i: int, n: int): real
    requires n >= 1
  {
    i as real * AngleBySegment(n)
  }

  /** Consecutive boundaries are one segment width apart. */
  lemma SegmentWidth(i: int, n: int)
    requires n >= 1
    ensures SegmentStart(i + 1, n) - SegmentStart(i, n) == AngleBySegment(n)
  {
    var s := AngleBySegment(n);
    assert (i + 1) as real * s == i as real * s + s;
  }

  /** Boundaries increase with the index. */
  lemma SegmentStartMonotone(i: int, j: int, n: int)
    requires n >= 1 && i <= j
    ensures SegmentStart(i, n) <= SegmentStart(j, n)
  {
    var s := AngleBySegment(n);
    ScaleCount(s, i, j);
    assert i as real * s == s * i as real;
    assert j as real * s == s * j as real;
  }

  /** The sum of k segment widths of 360/N each. */
  function Sweep(k: nat, n: int): real
    requires n >= 1
  {
    if k == 0 then 0.0 else Sweep(k - 1, n) + AngleBySegment(n)
  }

  /** The ideal arcs tile the circle: the first starts at 0, the last ends at
      360, and N segment widths of 360/N add up to exactly one turn. */
  lemma ArcsTile(n: int)
    requires n >= 1
    ensures SegmentStart(0, n) == 0.0
    ensures SegmentStart(n, n) == 360.0
    ensures Sweep(n, n) == 360.0
  {
    SweepOfPrefix(n, n);
    assert n as real * AngleBySegment(n) == 360.0;
  }

  /** k segment widths laid end to end from 0 reach the start of arc k. */
  lemma {:induction false} SweepOfPrefix(k: nat, n: int)
    requires n >= 1
    ensures Sweep(k, n) == SegmentStart(k, n)
  {
    if k > 0 {
      SweepOfPrefix(k - 1, n);
      SegmentWidth(k - 1, n);
    }
  }

  /** Ideal arcs never overlap: an earlier one ends no later than a later
      one starts. */
  lemma ArcsDisjoint(i: int, j: int, n: int)
    requires 0 <= i < j < n
    ensures SegmentStart(i + 1, n) <= SegmentStart(j, n)
  {
    SegmentStartMonotone(i + 1, j, n);
  }

  /** Colours repeat with the palette's period. */
  lemma ColorsCycle<R>(rewards: seq<R>, colors: Option<seq<string>>, i: nat)
    requires |Palette(colors)| > 0 && i + |Palette(colors)| < |rewards|
    ensures MakeWheel(rewards, colors)[i].color == MakeWheel(rewards, colors)[i + |Palette(colors)|].color
  {
    ColorAtPeriodic(Palette(colors), i);
  }

  /** Adding the modulus does not change a remainder. */
  lemma ModShift(i: nat, p: int)
    requires p > 0
    ensures (i + p) % p == i % p
  {
    var q, r := i / p, i % p;
    assert i == q * p + r;
    assert i + p == q * p + p + r;
    assert q * p + p == (q + 1) * p;
    JsMath.DivModUnique(i + p, p, q + 1, r);
  }

  /** Without configured colours, entry i takes default colour i mod 10. */
  lemma DefaultColors<R>(rewards: seq<R>, i: nat)
    requires i < |rewards|
    ensures MakeWheel(rewards, None)[i].color == Some(DefaultPalette[i % 10])
  {
  }

  /** Ten rewards and three colours give the colour pattern 0,1,2,0,1,2,0,1,2,0. */
  lemma TenRewardsThreeColors<R>(rewards: seq<R>, a: string, b: string, c: string)
    requires |rewards| == 10
    ensures var w := MakeWheel(rewards, Some([a, b, c]));
      forall i :: 0 <= i < 10 ==> w[i].color == Some([a, b, c, a, b, c, a, b, c, a][i])
  {
    var w := MakeWheel(rewards, Some([a, b, c]));
    var expected := [a, b, c, a, b, c, a, b, c, a];
    forall i | 0 <= i < 10 ensures w[i].color == Some(expected[i]) {
      assert w[i].color == Some([a, b, c][i % 3]);
    }
  }

  /** The rotation given to label i: `i * oneTurn / numberOfSegments + angleOffset`.
      It is the middle of segment i and lies strictly inside one turn. */
  function LabelRotation(i: int, n: int): (r: real)
    requires 0 <= i < n
    ensures r == (SegmentStart(i, n) + SegmentStart(i + 1, n)) / 2.0
    ensures 0.0 < r < 360.0
  {
    TurnedIsMultiple(i, n);
    LabelInsideArc(i, n);
    (i * 360) as real / n as real + AngleOffset(n)
  }

  /** Half a segment past the start of arc i is its midpoint, inside one turn. */
  lemma LabelInsideArc(i: int, n: int)
    requires 0 <= i < n
    ensures SegmentStart(i, n) + AngleOffset(n) == (SegmentStart(i, n) + SegmentStart(i + 1, n)) / 2.0
    ensures 0.0 < SegmentStart(i, n) + AngleOffset(n) < 360.0
  {
    SegmentWidth(i, n);
    SegmentStartMonotone(0, i, n);
    SegmentStartMonotone(i + 1, n, n);
    assert SegmentStart(0, n) == 0.0;
    assert SegmentStart(n, n) == n as real * AngleBySegment(n) == 360.0;
  }

  /** `i * 360 / N` is i segment widths. */
  lemma TurnedIsMultiple(i: int, n: int)
    requires n >= 1
    ensures (i * 360) as real / n as real == SegmentStart(i, n)
  {
    var s := AngleBySegment(n);
    var turned := (i * 360) as real / n as real;
    assert turned * n as real == i as real * 360.0;
    assert (i as real * s) * n as real == i as real * (s * n as real);
    Cancel(turned, i as real * s, n as real);
  }

  /** A positive factor can be cancelled from both sides of an equation. */
  lemma Cancel(a: real, b: real, m: real)
    requires m > 0.0 && a * m == b * m
    ensures a == b
  {
    if a < b {
      JsMath.MulStrict(a, b, m);
    } else if b < a {
      JsMath.MulStrict(b, a, m);
    }
  }

  /** Later labels are turned further. */
  lemma LabelRotationIncreasing(i: int, j: int, n: int)
    requires 0 <= i < j < n
    ensures LabelRotation(i, n) < LabelRotation(j, n)
  {
    SegmentWidth(i, n);
    SegmentWidth(j, n);
    SegmentStartMonotone(i + 1, j, n);
  }

}
