/**
 * The WheelOfFortune component's own state: the fields `prepareWheel`
 * assigns, the angle the animation listener tracks, the `started`,
 * `finished`, `enabled` and `winner` flags of its React state, and the calls
 * it makes to the host (`onRef` and `getWinner`), recorded as data.
 */
module Wheel {
  import opened Wrappers
  import opened JsMath
  import opened Layout
  import opened Landing

  /** The part of the `options` prop the core reads. */
  datatype Options<R> = Options(
    rewards: seq<R>,
    shuffle: bool,
    winner: Option<int>,
    colors: Option<seq<string>>,
    duration: Option<real>,
    playButton: bool)

  /** `rewards.sort(() => 0.5 - Math.random())`: with a random comparator
      nothing is promised about the order, only that it is a reordering. */
  method Shuffle<R(==)>(rewards: seq<R>) returns (s: seq<R>)
    ensures |s| == |rewards|
    ensures multiset(s) == multiset(rewards)
  {
    assert multiset(rewards) == multiset(rewards);
    s :| |s| == |rewards| && multiset(s) == multiset(rewards);
  }

  class WheelOfFortune<R(==)> {
    const options: Options<R>

    // Assigned by prepareWheel.
    var rewards: seq<R>
    var numberOfSegments: int
    var angleBySegment: real
    var angleOffset: real
    var winner: int
    var wheelPaths: seq<Entry<R>>

    // The last value the listener on the animated angle has seen.
    var angle: real

    // The React state flags.
    var enabled: bool
    var started: bool
    var finished: bool
    var stateWinner: Option<R>

    // The host callbacks, recorded: whether `onRef` currently holds this
    // component, and the arguments of every `getWinner` call so far.
    var registered: bool
    var reported: seq<(R, int)>

    /** What `prepareWheel` establishes, and that nothing ever sets
        `enabled` (it starts false and is only ever cleared). */
    ghost predicate Valid()
      reads this
    {
      && numberOfSegments == |rewards| >= 1
      && multiset(rewards) == multiset(options.rewards)
      && (!options.shuffle ==> rewards == options.rewards)
      && angleBySegment == AngleBySegment(numberOfSegments)
      && angleOffset == angleBySegment / 2.0
      && (Truthy(options.winner) ==> winner == options.winner.value)
      && (!Truthy(options.winner) ==> 0 <= winner < numberOfSegments)
      && wheelPaths == MakeWheel(rewards, options.colors)
      && !enabled
    }

    /** Whether the play trigger is rendered (`_renderTopToPlay`, reached
        only when a play button is configured). */
    predicate PlayButtonShown()
      reads this
    {
      options.playButton && started == false
    }

    /** The constructor: initial state, then `prepareWheel`. */
    constructor (options: Options<R>)
      requires |options.rewards| >= 1
      ensures this.options == options
      ensures Valid()
      ensures angle == 0.0
      ensures !started && !finished && stateWinner == None
      ensures PlayButtonShown() == options.playButton
      ensures registered && reported == []
    {
      this.options := options;
      angle := 0.0;
      enabled, started, finished, stateWinner := false, false, false, None;
      registered, reported := false, [];
      new;
      PrepareWheel();
    }

    /** `prepareWheel`: settle the reward order, the segment geometry and the
        armed winner, build the entries, and register with the host. */
    method PrepareWheel()
      requires |options.rewards| >= 1 && !enabled
      modifies this
      ensures Valid()
      ensures numberOfSegments == |options.rewards|
      ensures exists rnd: real :: 0.0 <= rnd < 1.0 && winner == ArmedWinner(options.winner, rnd, numberOfSegments)
      ensures registered
      ensures angle == old(angle) && started == old(started) && finished == old(finished)
      ensures stateWinner == old(stateWinner) && reported == old(reported)
    {
      if options.shuffle {
        rewards := Shuffle(options.rewards);
      } else {
        rewards := options.rewards;
      }
      numberOfSegments := |rewards|;
      angleBySegment := AngleBySegment(numberOfSegments);
      angleOffset := angleBySegment / 2.0;
      var rnd: real :| 0.0 <= rnd < 1.0;
      winner := ArmedWinner(options.winner, rnd, numberOfSegments);
      wheelPaths := MakeWheel(rewards, options.colors);
      registered := true;
    }

    /** The listener on the animated angle (`angleListener`): every tick is
        recorded in `angle`; `enabled` and `finished` are cleared only when
        `enabled` was set. */
    method OnAngle(value: real)
      modifies this
      ensures angle == value
      ensures old(started) ==> !PlayButtonShown()
      ensures old(enabled) ==> !enabled && !finished
      ensures !old(enabled) ==> !enabled && finished == old(finished)
      ensures old(Valid()) ==> Valid()
      ensures started == old(started) && stateWinner == old(stateWinner)
      ensures rewards == old(rewards) && winner == old(winner) && wheelPaths == old(wheelPaths)
      ensures numberOfSegments == old(numberOfSegments) && angleBySegment == old(angleBySegment)
      ensures angleOffset == old(angleOffset)
      ensures registered == old(registered) && reported == old(reported)
    {
      if enabled {
        enabled, finished := false, false;
      }
      angle := value;
    }

    /** `start`: mark the game started and animate to the winner's target
        angle over `options.duration || 10000` milliseconds.  Nothing stops a
        second call; only the hidden play trigger guards against re-entry. */
    method Start() returns (toValue: real)
      requires Valid()
      modifies this
      ensures Valid()
      ensures started && !PlayButtonShown()
      ensures toValue == TargetAngle(winner, numberOfSegments, EffectiveDuration(options.duration))
      ensures 0 <= winner < numberOfSegments && EffectiveDuration(options.duration) > 0.0 ==> toValue > 0.0
      ensures angle == old(angle) && finished == old(finished) && stateWinner == old(stateWinner)
      ensures rewards == old(rewards) && winner == old(winner) && wheelPaths == old(wheelPaths)
      ensures registered == old(registered) && reported == old(reported)
    {
      started := true;
      toValue := TargetAngle(winner, numberOfSegments, EffectiveDuration(options.duration));
    }

    /** The completion callback of the animation: read the landed index off
        the tracked angle, record its reward as the state's winner, and pass
        reward and index to `getWinner`.  An index past the last entry (only a
        counter-clockwise angle can give one) makes `_wheelPaths[idx].value`
        throw before any state is set, reported here as None. */
    method OnSpinEnd() returns (outcome: Option<(R, int)>)
      requires Valid()
      modifies this
      ensures Valid()
      ensures var idx := LandedIndex(old(angle), numberOfSegments);
        if idx < |wheelPaths| then
          && outcome == Some((wheelPaths[idx].value, idx))
          && finished && stateWinner == Some(wheelPaths[idx].value)
          && reported == old(reported) + [(wheelPaths[idx].value, idx)]
        else
          && outcome == None
          && finished == old(finished) && stateWinner == old(stateWinner)
          && reported == old(reported)
      ensures angle < 0.0 || outcome.Some?
      ensures old(started) ==> !PlayButtonShown()
      ensures angle == old(angle) && started == old(started)
      ensures rewards == old(rewards) && winner == old(winner) && wheelPaths == old(wheelPaths)
      ensures registered == old(registered)
    {
      var idx := LandedIndex(angle, numberOfSegments);
      if idx < |wheelPaths| {
        var value := wheelPaths[idx].value;
        finished, stateWinner := true, Some(value);
        reported := reported + [(value, idx)];
        outcome := Some((value, idx));
      } else {
        outcome := None;
      }
    }

    /** One whole spin: `start`, the animation's last tick delivering exactly
        its `toValue`, then the completion callback.  When the armed winner is
        in range, there are at most 65 segments and the duration is a whole
        number of seconds, the reported winner is the armed one. */
    method Spin() returns (outcome: Option<(R, int)>)
      requires Valid()
      modifies this
      ensures Valid()
      ensures started && !PlayButtonShown() && angle == TargetAngle(winner, numberOfSegments, EffectiveDuration(options.duration))
      ensures 0 <= winner < numberOfSegments <= 65 && WholeSeconds(EffectiveDuration(options.duration)) ==>
        && outcome == Some((rewards[winner], winner))
        && finished && stateWinner == Some(rewards[winner])
        && reported == old(reported) + [(rewards[winner], winner)]
      ensures var idx := LandedIndex(angle, numberOfSegments);
        if idx < numberOfSegments then
          && outcome == Some((wheelPaths[idx].value, idx))
          && finished && stateWinner == Some(wheelPaths[idx].value)
          && reported == old(reported) + [(wheelPaths[idx].value, idx)]
        else
          && outcome == None
          && finished == old(finished) && stateWinner == old(stateWinner)
          && reported == old(reported)
      ensures rewards == old(rewards) && winner == old(winner) && wheelPaths == old(wheelPaths)
      ensures registered == old(registered)
    {
      var toValue := Start();
      OnAngle(toValue);
      if 0 <= winner < numberOfSegments <= 65 && WholeSeconds(EffectiveDuration(options.duration)) {
        RoundTripForDuration(winner, numberOfSegments, EffectiveDuration(options.duration));
      }
      outcome := OnSpinEnd();
    }

    /** `componentWillUnmount`: hand the host `undefined` in place of this. */
    method Unmount()
      modifies this
      ensures !registered
      ensures old(started) ==> !PlayButtonShown()
      ensures angle == old(angle) && started == old(started) && finished == old(finished)
      ensures stateWinner == old(stateWinner) && reported == old(reported)
      ensures old(Valid()) ==> Valid()
      ensures rewards == old(rewards) && winner == old(winner) && wheelPaths == old(wheelPaths)
    {
      registered := false;
    }
  }
}
