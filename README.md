# Wheel of fortune: the arithmetic and state of the spinning wheel

This Dafny project models the core of the `WheelOfFortune` React Native
component (`src/index.js`). The component splits a circle into N equal
segments, one per reward. It picks a winning segment, animates the wheel to
a target angle computed from that segment, and computes the reported winner
from the settled angle. The model covers four parts:

- **Layout** (`layout.dfy`). `angleBySegment = 360/N` and
  `angleOffset = angleBySegment/2`. `makeWheel` builds the entries, cycling
  colours by `index % colors.length` and falling back to a 10-colour default
  palette. Segment i gets the ideal arc [i·360/N, (i+1)·360/N), which is what
  d3's pie of N equal weights gives. Label i is rotated to
  `i*360/N + angleOffset`.
- **Landing** (`landing.dfy`). This covers how the winner is armed (the
  configured index when it is truthy, otherwise `floor(random * N)`), the
  target angle `365 - winner*(360/N) + 360*(duration/1000)`, and
  `_getWinnerIndex`. The last maps a settled angle to the index the
  component reports, with one formula for negative angles and another for
  non-negative ones.
- **JavaScript arithmetic** (`js_math.dfy`). JS `%` keeps the dividend's sign
  (`x - trunc(x/m)*m`). `Math.round` is `floor(x + 0.5)`. `Math.floor` and
  `Math.abs` are modelled too. All of this is over exact reals.
- **Component state** (`wheel.dfy`). A class holds the fields `prepareWheel`
  assigns, the angle tracked by the animation listener, the React state flags
  `enabled`/`started`/`finished`/`winner`, and the host callbacks recorded as
  data. `scenario.dfy` plays one game with four rewards.

The main theorem is `Landing.RoundTrip`: the landed index equals the armed
winner. It is proved under three conditions the component never checks:
- the winner is in [0, N);
- N ≤ 65, so that a segment is wider than 5.5°;
- the duration is a non-negative whole number of seconds.

Two lemmas show that neither of the last two conditions can be dropped in
general (some inputs outside them still land correctly, but not all).
`FractionalSecondsMissTheWinner`: N=4, winner 0 and 1500 ms give angle 905,
which lands on segment 2. `ManySegmentsMissTheWinner`: N=66, winner 1 and
1000 ms land on segment 0.

The model follows what the code does, including where one might expect
otherwise:
- One would expect the round trip for every positive duration and any
  number of segments. It is proved here under the conditions above; outside
  them it can fail, as the two counterexample lemmas show.
- One might expect errors for N = 0, for spinning twice, and for a reset.
  The code checks none of them and has no reset. With N = 0 construction
  raises no error, and the TypeError comes only when a spin completes (see
  "## Left out"). The only guard against a
  second spin is that the play trigger is hidden once `started` is set.
- The listener only clears `enabled` and `finished` when `enabled` is set,
  and the code never sets `enabled` to true, so that branch never runs.
  `Valid()` keeps `!enabled` as an invariant.
- A configured winner of 0 is falsy in JavaScript, so it is drawn at random
  like an absent one.
- An empty `colors` array is truthy in JavaScript and is used as given, so
  every colour is `undefined`. The model shows this as `None`.
- The reported index is what `_getWinnerIndex` computes. Whether the knob
  is drawn over that segment depends on the rendering (the wheel picture is
  turned back by `angleOffset`), which is not modelled.

## Model

| member | source | states |
|---|---|---|
| `JsMath.Abs` | src/index.js:113 | `Math.abs` gives x or -x, never negative |
| `JsMath.Floor` | src/index.js:116 | `Math.floor` gives the integer r with r ≤ x < r + 1 |
| `JsMath.Trunc` | src/index.js:113 | the quotient JS `%` uses is rounded toward zero: within 1 of x and on x's side of 0 |
| `JsMath.Round` | src/index.js:113 | `Math.round` gives the integer r with r - 0.5 ≤ x < r + 0.5, so halves round toward +∞ |
| `JsMath.Rem` | src/index.js:113 | JS `x % m` differs from x by a whole number of m and has x's sign: in [0, m) for x ≥ 0 and in (-m, 0] for x < 0 |
| `JsMath.RemInt` | src/index.js:119-121 | JS `%` on integers: its magnitude is the Euclidean remainder of the magnitude, and it has the dividend's sign |
| `Layout.AngleBySegment` | src/index.js:44-47 | `angleBySegment` is positive, `angleBySegment * N == 360`, at most 360, and above 5.5 when N ≤ 65 |
| `Layout.AngleOffset` | src/index.js:48 | `angleOffset` is positive and `2 * angleOffset * N == 360` |
| `Layout.ColorAt` | src/index.js:105 | `colors[i % colors.length]` is undefined exactly when the palette is empty, and a defined colour is always one of the palette's colours |
| `Layout.ColorAtPeriodic` | src/index.js:105 | the colour one palette length further on is the same, and a palette longer than the index is used without repeating |
| `Layout.MakeWheel` | src/index.js:80-109 | exactly N entries; entry i carries `Rewards[i]` and the colour `colors[i % colors.length]` of the configured palette (an empty array counts as configured) or of the 10-colour default; every defined colour comes from that palette |
| `Layout.DefaultColors` | src/index.js:83-105 | with no colours configured, entry i takes default colour i mod 10 |
| `Layout.ColorsCycle` | src/index.js:105 | colours repeat with the palette's length as period |
| `Layout.TenRewardsThreeColors` | src/index.js:105 | 10 rewards and 3 colours give the colour pattern 0,1,2,0,1,2,0,1,2,0 |
| `Layout.SegmentWidth` | src/index.js:81-82 | consecutive ideal arc boundaries are exactly 360/N apart |
| `Layout.ArcsTile` | src/index.js:81-82 | the ideal arcs start at 0 and end at 360, and N widths of 360/N add up to exactly 360 |
| `Layout.SweepOfPrefix` | src/index.js:81-82 | k segment widths laid end to end from 0 reach exactly the start of arc k |
| `Layout.ArcsDisjoint` | src/index.js:81-82 | an earlier arc ends no later than any later arc starts |
| `Layout.LabelRotation` | src/index.js:240-243 | label i's rotation is the midpoint of arc i and lies strictly between 0 and 360 |
| `Layout.LabelRotationIncreasing` | src/index.js:240-243 | label rotations strictly increase with the index |
| `Landing.ArmedWinner` | src/index.js:49-51 | a truthy configured winner is used as given; otherwise the draw `floor(r*N)` lies in [0, N) |
| `Landing.ZeroWinnerIsRandom` | src/index.js:49-51 | a configured 0 falls through to the random draw, and every index in [0, N) can be drawn |
| `Landing.DefaultDurationLands` | src/index.js:126-135 | an absent or zero duration (`duration || 10000`) is a whole number of seconds, so with at most 65 segments the spin lands on any in-range winner |
| `Landing.TargetAngle` | src/index.js:130-135 | for 0 ≤ winner < N and duration ≥ 0 the target is at least 5 + 360/N, so it is positive |
| `Landing.LandedIndex` | src/index.js:112-123 | the index `_getWinnerIndex` reports: the result is in [0, N]; it is below N for non-negative angles; for negative angles it is N exactly when `angle % 360` rounds to -360 |
| `Landing.RoundTrip` | src/index.js:112-138 | with 0 ≤ winner < N ≤ 65 and a whole number of seconds, `_getWinnerIndex` of the target angle is the winner |
| `Landing.LandsFromFirst` | src/index.js:112-138 | winner 0 lands on 0: the remainder is 5°, inside segment 0 |
| `Landing.LandsFromLater` | src/index.js:112-138 | a winner w ≥ 1 lands on w: the remainder is 5° into segment N - w |
| `Landing.RoundTripForDuration` | src/index.js:126-138 | the same round trip, stated for a duration in milliseconds that is a non-negative multiple of 1000 |
| `Landing.FourRewardsLandOnTwo` | src/index.js:130-138 | N=4, winner 2, 1000 ms: target 545, which lands on 2 |
| `Landing.FractionalSecondsMissTheWinner` | src/index.js:130-135 | N=4, winner 0, 1500 ms: target 905, which lands on 2, so whole seconds are needed |
| `Landing.ManySegmentsMissTheWinner` | src/index.js:113-121 | N=66, winner 1, 1000 ms lands on 0, so N ≤ 65 is needed |
| `Landing.DirectionMatters` | src/index.js:113-122 | -100 and 260 are the same position, yet they land on 1 and 2: the landing depends on the direction of turn |
| `Landing.NearlyFullTurnLandsOnZero` | src/index.js:118-122 | a clockwise angle of 359.7° rounds to 360, and the final `% N` maps it to segment 0 |
| `Wheel.Shuffle` | src/index.js:39-41 | the shuffled rewards have the same length and the same multiset as the original |
| `Wheel.WheelOfFortune.constructor` | src/index.js:19-36 | `angle` is 0; the flags are cleared; `state.winner` is empty; the wheel is prepared and registered with the host |
| `Wheel.WheelOfFortune.PrepareWheel` | src/index.js:38-57 | sets the rewards (the given order, or a reordering when shuffling), N = `rewards.length`, the angles, the armed winner from some draw in [0, 1), the entries, and calls `onRef(this)` |
| `Wheel.WheelOfFortune.OnAngle` | src/index.js:59-70 | always records `angle = value`; clears `enabled` and `finished` only when `enabled` was set; leaves everything else unchanged; the play trigger stays hidden once started |
| `Wheel.WheelOfFortune.Start` | src/index.js:125-136 | sets `started`, so the play trigger (shown only while `started` is false, src/index.js:321-328) is hidden; animates to `TargetAngle(winner, N, duration or 10000)`, which is positive for an in-range winner and a positive duration |
| `Wheel.WheelOfFortune.OnSpinEnd` | src/index.js:137-144 | with idx the landed index of the tracked angle: sets `finished`, and both `state.winner` and `getWinner` get `_wheelPaths[idx].value`, with idx passed as the index; an idx of N throws, and no state changes; the play trigger stays hidden once started |
| `Wheel.WheelOfFortune.Spin` | src/index.js:125-144 | start, a final tick at exactly `toValue`, then completion; under the round-trip conditions this reports `(Rewards[winner], winner)`; in general it reports `_wheelPaths[idx]` and idx for idx the landed index of the target angle, or, when idx is N, throws at completion and leaves `finished`, `state.winner` and the reports as they were; the play trigger is hidden afterwards and the registration is unchanged |
| `Wheel.WheelOfFortune.Unmount` | src/index.js:72-74 | `componentWillUnmount` calls `onRef(undefined)`, so the component is no longer registered; nothing else changes |
| `Scenario.FourRewardGame` | src/index.js:125-144 | rewards A–D with winner 2 and 1000 ms turn to 545 and report ("C", 2) |

## Left out

- Rendering is not modelled. This covers JSX/SVG and `_textRender`: text and
  `TSpan` offsets, vertical or horizontal text, text colours, styles, the
  `Animated.View` rotation interpolation, `Dimensions`, the knob image, and
  `render`, except its guard that offers the play trigger only when one is
  configured and `started` is false (`PlayButtonShown`).
- d3-shape is not modelled: `pie`, `arc().padAngle(0.01)`, path strings and
  `centroid`. It is a foreign library. An `Entry` holds only the colour and
  the reward. The ideal unpadded arc of entry i is given separately, by
  `SegmentStart(i, N)` and `SegmentStart(i + 1, N)`. These ideal arcs are
  what the landing arithmetic assumes.
- The knob tilt (the `Animated.modulo/divide/interpolate` chain in
  `_renderKnob`) is not modelled. Its meaning lives in the animation library.
- Animated timing is not modelled: easing, the duration of the animation
  itself, and `useNativeDriver`. Any tick is one call to `OnAngle`, and the
  animation is taken to deliver exactly its `toValue` as the last tick before
  completion.
- The animated value `_angle` is not modelled, nor is the point in time
  (`componentDidMount`) when the listener is attached. Every tick is treated
  as heard.
- Randomness is modelled as a nondeterministic choice. `Math.random()` is a
  draw in [0, 1). The random-comparator sort can give any reordering.
- The sort reorders `options.rewards` in place. The model copies the
  reordered list into the component, so the aliased change to the caller's
  array is not captured.
- IEEE-754 rounding is not modelled. Angles are exact reals, and integers are
  unbounded.
- `setState` is asynchronous and batched in React. The model applies each
  update at once.
- An empty rewards list (N = 0) is not modelled: the constructor requires at
  least one reward. In the code, construction raises no error: 360/0 gives
  Infinity. When a spin completes, `_getWinnerIndex` gives NaN for a
  non-negative angle (`x % 0`) and 0 for a negative one. Either way it
  indexes the empty `_wheelPaths`, so `_wheelPaths[idx].value` throws a
  TypeError.
- Non-integer or non-array option values are not modelled: a fractional
  winner, or a truthy non-array `colors`. Rewards are an arbitrary payload
  type, so `toString` is not modelled either.
- `getWinner` and `onRef` are host callbacks. Only their arguments are
  recorded: `reported` and `registered`.
