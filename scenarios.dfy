/** Concrete runs of the metronome: particular time signatures and the
    first measure of four-four time. */
module Scenarios {
  import EcmaScript
  import opened Visualizer

  /** "4/4" is 4 beats. */
  lemma BeatCountOfCommonTime()
    ensures BeatCount("4/4") == 4
  {
    assert "4" == "" + "" + "4" + "" && "4/4" == "4" + "/" + "4";
    BeatCountOfNumber("4", "", "", "4", "", "4");
  }

  /** "7/8" is 7 beats, whatever the denominator. */
  lemma BeatCountOfSevenEight()
    ensures BeatCount("7/8") == 7
  {
    assert "7" == "" + "" + "7" + "" && "7/8" == "7" + "/" + "8";
    BeatCountOfNumber("7", "", "", "7", "", "8");
  }

  /** Leading white space is skipped and several digits are read: " 12/8" is 12 beats. */
  lemma BeatCountOfTwelveEight()
    ensures BeatCount(" 12/8") == 12
  {
    assert " 12" == " " + "" + "12" + "" && " 12/8" == " 12" + "/" + "8";
    assert "12"[..1] == "1" && "12"[1] == '2';
    assert EcmaScript.DigitsValue("12") == EcmaScript.DigitsValue("1") * 10 + 2;
    BeatCountOfNumber(" 12", " ", "", "12", "", "8");
  }

  /** The empty time signature falls back to 4 beats. */
  lemma BeatCountOfEmpty()
    ensures BeatCount("") == 4
  {
  }

  /** A numerator of 1 falls back to 4 beats. */
  lemma BeatCountOfOneFour()
    ensures BeatCount("1/4") == 4
  {
    assert "1" == "" + "" + "1" + "" && "1/4" == "1" + "/" + "4";
    BeatCountOfNumber("1", "", "", "1", "", "4");
  }

  /** A negative numerator falls back to 4 beats. */
  lemma BeatCountOfNegative()
    ensures BeatCount("-3/4") == 4
  {
    assert "-3" == "" + "-" + "3" + "" && "-3/4" == "-3" + "/" + "4";
    BeatCountOfNumber("-3", "", "-", "3", "", "4");
  }

  /** In four-four time, one measure after arming the interval has played
      Accent, three Regular clicks, and the next Accent. */
  lemma FirstMeasureOfCommonTime(scheduler: Scheduler)
    requires scheduler.Valid() && scheduler.timerArmed && scheduler.beats == 4
    ensures scheduler.ticks == 4 ==>
      scheduler.cues[scheduler.runStart..] == [Accent, Regular, Regular, Regular, Accent]
  {
    ScheduledFirstMeasure(scheduler);
    assert seq(3, _ => Regular) == [Regular, Regular, Regular];
  }
}
