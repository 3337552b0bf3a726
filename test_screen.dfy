/** The timed test session: navigation, answer selection, the countdown and submission. */
module TestScreen {
  import opened Wrappers
  import opened Types
  import Text

  /**
   * JavaScript's `%`, whose remainder takes the sign of the dividend; only
   * the non-negative case, the one the clock meets, is specified.
   */
  function JsRemainder(a: int, b: int): (r: int)
    requires b > 0
    ensures a >= 0 ==> 0 <= r < b && r == a % b
  {
    if a >= 0 then a % b else -((-a) % b)
  }

  /** `formatTime`: whole minutes and the remaining seconds, each padded to two digits. */
  function FormatTime(seconds: int): string
  {
    var mins := seconds / 60;  // Math.floor of a division by a positive number
    var secs := JsRemainder(seconds, 60);
    Text.PadStart2(Text.IntToString(mins)) + ":" + Text.PadStart2(Text.IntToString(secs))
  }

  lemma PaddedDigits(n: nat)
    ensures var r := Text.PadStart2(Text.NatToString(n));
      Text.AllDigits(r) && Text.DecimalValue(r) == n && (n < 100 ==> |r| == 2)
  {
    var d := Text.NatToString(n);
    Text.NatToStringRoundTrip(n);
    if |d| == 1 {
      Text.LeadingZero(d);
    }
  }

  /** For a non-negative input both parts are plain remainders and quotients. */
  lemma FormatTimeOfNat(seconds: nat)
    ensures FormatTime(seconds)
         == Text.PadStart2(Text.NatToString(seconds / 60)) + ":" + Text.PadStart2(Text.NatToString(seconds % 60))
  {
  }

  /** The digits before the colon of `r`, which reads `mm:s`, are the minutes `mins`. */
  lemma ClockMinutes(r: string, mins: nat, s: string)
    requires r == Text.PadStart2(Text.NatToString(mins)) + ":" + s && |s| == 2
    ensures |r| >= 5 && Text.AllDigits(r[..|r| - 3]) && Text.DecimalValue(r[..|r| - 3]) == mins
  {
    var m := Text.PadStart2(Text.NatToString(mins));
    PaddedDigits(mins);
    assert r[..|r| - 3] == m;
  }

  /** The two characters after the colon of `r`, which reads `m:ss`, are the seconds `secs`. */
  lemma ClockSeconds(r: string, m: string, secs: nat)
    requires r == m + ":" + Text.PadStart2(Text.NatToString(secs)) && |m| >= 2 && secs < 60
    ensures |r| >= 5 && r[|r| - 3] == ':' && Text.AllDigits(r[|r| - 2..]) && Text.DecimalValue(r[|r| - 2..]) == secs
  {
    var s := Text.PadStart2(Text.NatToString(secs));
    PaddedDigits(secs);
    assert r[|r| - 2..] == s;
  }

  /** The text before the colon is the whole minutes, in decimal digits. */
  lemma FormatTimeMinutes(seconds: nat)
    ensures var r := FormatTime(seconds);
      |r| >= 5 && Text.AllDigits(r[..|r| - 3]) && Text.DecimalValue(r[..|r| - 3]) == seconds / 60
  {
    FormatTimeOfNat(seconds);
    ClockMinutes(FormatTime(seconds), seconds / 60, Text.PadStart2(Text.NatToString(seconds % 60)));
  }

  /** The two characters after the colon are the seconds left over. */
  lemma FormatTimeSeconds(seconds: nat)
    ensures var r := FormatTime(seconds);
      |r| >= 5 && r[|r| - 3] == ':' && Text.AllDigits(r[|r| - 2..]) && Text.DecimalValue(r[|r| - 2..]) == seconds % 60
  {
    FormatTimeOfNat(seconds);
    ClockSeconds(FormatTime(seconds), Text.PadStart2(Text.NatToString(seconds / 60)), seconds % 60);
  }

  /**
   * For any non-negative count of seconds the text reads back: the digits
   * before the colon are the whole minutes, the two after it the seconds
   * left over (below 60).
   */
  lemma FormatTimeReadsBack(seconds: nat)
    ensures var r := FormatTime(seconds);
      && |r| >= 5 && r[|r| - 3] == ':'
      && Text.AllDigits(r[..|r| - 3]) && Text.AllDigits(r[|r| - 2..])
      && Text.DecimalValue(r[..|r| - 3]) == seconds / 60
      && Text.DecimalValue(r[|r| - 2..]) == seconds % 60 < 60
  {
    FormatTimeMinutes(seconds);
    FormatTimeSeconds(seconds);
  }

  /** Below 100 minutes the text is exactly `MM:SS`. */
  lemma FormatTimeWidth(seconds: nat)
    requires seconds < 6000
    ensures |FormatTime(seconds)| == 5
  {
    PaddedDigits(seconds / 60);
    PaddedDigits(seconds % 60);
  }

  /**
   * The state of one mounted test screen. `config` is the live test the
   * screen loaded when it mounted; `delivered` records every call of the
   * `onSubmit` callback. `submitted` marks the hand-over that unmounts the
   * screen in the source, after which nothing reaches it any more.
   */
  class TestSession {
    const config: Option<TestConfig>
    var currentQuestionIndex: nat
    var answers: seq<Answer>
    var timeLeft: int
    var submitted: bool
    var delivered: seq<seq<Answer>>

    ghost predicate Valid()
      reads this
    {
      && (config.None? ==> answers == [] && currentQuestionIndex == 0 && !submitted)
      && (config.Some? ==>
            && |answers| == |config.value.questions|
            && (currentQuestionIndex < |answers| || currentQuestionIndex == 0))
      && (config.Some? && !submitted ==> timeLeft > 0)
      && delivered == (if submitted then [answers] else [])
    }

    /** The questions of the live test, none without one. */
    function Questions(): seq<Question>
      reads this
    {
      if config.Some? then config.value.questions else []
    }

    /** A question is on screen: the options (and so selection and submit) are rendered. */
    predicate ShowsQuestion()
      reads this
    {
      config.Some? && currentQuestionIndex < |config.value.questions|
    }

    /**
     * Mounting with the configuration the screen loads, the initialising
     * effect and the first run of the timer effect as one step: a
     * configuration whose time is already up is handed over at once.
     */
    constructor (config: Option<TestConfig>)
      ensures Valid() && this.config == config && currentQuestionIndex == 0
      ensures config.Some? ==>
        && answers == AllUnanswered(|config.value.questions|)
        && timeLeft == config.value.timeLimit * 60
        && (submitted <==> timeLeft <= 0)
      ensures config.None? ==> answers == [] && timeLeft == 0 && !submitted
      ensures delivered == if submitted then [answers] else []
    {
      var initial, seconds := [], 0;
      if config.Some? {
        initial, seconds := AllUnanswered(|config.value.questions|), config.value.timeLimit * 60;
      }
      this.config := config;
      currentQuestionIndex := 0;
      answers, timeLeft := initial, seconds;
      submitted := seconds <= 0 && config.Some?;
      delivered := if seconds <= 0 && config.Some? then [initial] else [];
    }

    /** `handleAnswerSelect`: overwrite the answer of the question on screen. */
    method SelectAnswer(optionIndex: nat)
      requires Valid() && ShowsQuestion()
      modifies this
      ensures Valid()
      ensures old(submitted) ==> answers == old(answers)
      ensures !old(submitted) ==> answers == old(answers)[currentQuestionIndex := Picked(optionIndex)]
      ensures |answers| == old(|answers|)
      ensures currentQuestionIndex == old(currentQuestionIndex) && timeLeft == old(timeLeft)
      ensures submitted == old(submitted) && delivered == old(delivered)
    {
      if !submitted {
        answers := answers[currentQuestionIndex := Picked(optionIndex)];
      }
    }

    /** `goToNext`: one question on, unless this is the last one. */
    method GoToNext()
      requires Valid()
      modifies this
      ensures Valid()
      ensures currentQuestionIndex ==
        if !old(submitted) && config.Some? && old(currentQuestionIndex) < |Questions()| - 1
        then old(currentQuestionIndex) + 1 else old(currentQuestionIndex)
      ensures answers == old(answers) && timeLeft == old(timeLeft)
      ensures submitted == old(submitted) && delivered == old(delivered)
    {
      if !submitted && config.Some? && currentQuestionIndex < |config.value.questions| - 1 {
        currentQuestionIndex := currentQuestionIndex + 1;
      }
    }

    /** `goToPrevious`: one question back, unless this is the first one. */
    method GoToPrevious()
      requires Valid()
      modifies this
      ensures Valid()
      ensures currentQuestionIndex ==
        if !old(submitted) && old(currentQuestionIndex) > 0
        then old(currentQuestionIndex) - 1 else old(currentQuestionIndex)
      ensures answers == old(answers) && timeLeft == old(timeLeft)
      ensures submitted == old(submitted) && delivered == old(delivered)
    {
      if !submitted && currentQuestionIndex > 0 {
        currentQuestionIndex := currentQuestionIndex - 1;
      }
    }

    /**
     * `handleSubmit`, offered on the last question: hand the answers over if
     * the student confirms; otherwise nothing happens.
     */
    method Submit(confirmed: bool)
      requires Valid() && ShowsQuestion() && currentQuestionIndex == |Questions()| - 1
      modifies this
      ensures Valid()
      ensures submitted == (old(submitted) || confirmed)
      ensures delivered == if !old(submitted) && confirmed then [answers] else old(delivered)
      ensures answers == old(answers) && currentQuestionIndex == old(currentQuestionIndex)
      ensures timeLeft == old(timeLeft)
    {
      if !submitted && confirmed {
        submitted := true;
        delivered := [answers];
      }
    }

    /**
     * One interval tick: one second less, and when the time is up the timer
     * effect hands the current answers over without asking and schedules no
     * further tick. Without a configuration the countdown keeps running.
     */
    method Tick()
      requires Valid()
      modifies this
      ensures Valid()
      ensures old(submitted) ==> timeLeft == old(timeLeft) && submitted && delivered == old(delivered)
      ensures !old(submitted) ==> timeLeft == old(timeLeft) - 1
      ensures !old(submitted) ==>
        && (submitted <==> config.Some? && timeLeft <= 0)
        && delivered == if submitted then [answers] else []
      ensures answers == old(answers) && currentQuestionIndex == old(currentQuestionIndex)
    {
      if !submitted {
        timeLeft := timeLeft - 1;
        if timeLeft <= 0 && config.Some? {
          submitted := true;
          delivered := [answers];
        }
      }
    }
  }
}
