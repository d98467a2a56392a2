/** The four-reward game: rewards A to D, winner 2, a one-second spin.  The
    wheel turns to 545 degrees and reports reward "C" at index 2. */
module Scenario {
  import opened Wrappers
  import Landing
  import Wheel

  method FourRewardGame() returns (toValue: real, outcome: Option<(string, int)>)
    ensures toValue == 545.0
    ensures outcome == Some(("C", 2))
  {
    var options := Wheel.Options(["A", "B", "C", "D"], false, Some(2), None, Some(1000.0), true);
    var wheel := new Wheel.WheelOfFortune(options);
    Landing.FourRewardsLandOnTwo();
    assert Landing.WholeSeconds(1000.0) by {
      assert 1000.0 / 1000.0 == 1.0;
    }
    outcome := wheel.Spin();
    toValue := wheel.angle;
  }
}
