/** Client runs that drive several handlers in a row, as a user would. */
module Scenarios {
  import opened Wrappers
  import opened Types
  import Parser
  import opened TestStore
  import opened TestScreen
  import opened TutorDashboard
  import opened AppRouting

  /**
   * A one-minute test left alone: the 60th tick hands over the untouched
   * answers, exactly once, and a 61st tick changes nothing.
   */
  method OneMinuteRunsOut(questions: seq<Question>) returns (handedOver: seq<seq<Answer>>, secondsLeft: int)
    ensures handedOver == [AllUnanswered(|questions|)]
    ensures secondsLeft == 0
  {
    var session := new TestSession(Some(TestConfig(questions, 1)));
    var ticks := 0;
    while ticks < 59
      invariant 0 <= ticks <= 59
      invariant session.Valid() && session.config == Some(TestConfig(questions, 1))
      invariant !session.submitted && session.timeLeft == 60 - ticks
      invariant session.answers == AllUnanswered(|questions|)
    {
      session.Tick();
      ticks := ticks + 1;
    }
    session.Tick();
    assert session.submitted && session.delivered == [AllUnanswered(|questions|)];
    session.Tick();
    handedOver, secondsLeft := session.delivered, session.timeLeft;
  }

  /**
   * Confirming the submission twice on the last question, and a tick that
   * fires afterwards, hand the answers over only once.
   */
  method SubmitTwice(questions: seq<Question>) returns (handedOver: seq<seq<Answer>>)
    requires |questions| > 0
    ensures handedOver == [AllUnanswered(|questions|)]
  {
    var session := new TestSession(Some(TestConfig(questions, 30)));
    while session.currentQuestionIndex < |questions| - 1
      invariant session.Valid() && session.config == Some(TestConfig(questions, 30))
      invariant !session.submitted && session.answers == AllUnanswered(|questions|)
      decreases |questions| - session.currentQuestionIndex
    {
      session.GoToNext();
    }
    session.Submit(true);
    session.Submit(true);
    session.Tick();
    handedOver := session.delivered;
  }

  /**
   * A tutor loads and saves a test in the running page, then goes home: the
   * shell's start handler as written still sees no test, while the stored
   * test would start.
   */
  method SaveThenStart(wb: Parser.Workbook, numberText: real -> string)
    returns (asWritten: AppState, intended: AppState, live: bool)
    requires Parser.ParseExcel(wb, numberText).Ok? && |Parser.ParseExcel(wb, numberText).value| > 0
    ensures live && asWritten == Home && intended == StudentTest
  {
    var store := new LiveTestStore(None);
    var app := new App(store);
    app.ChooseTutor();
    app.LoginSuccess();
    var dashboard := new Dashboard(store);
    dashboard.HandleFileChange(Some(Upload("questions.xlsx", Ok(wb))), numberText);
    dashboard.HandleSaveTest();
    live := store.saved.Some?;
    app.GoHome();
    app.StartTest();
    asWritten := app.appState;
    app.StartLiveTest();
    intended := app.appState;
  }

  /**
   * With a usable test stored, the dashboard as written mounts with an empty
   * draft and refuses to save it again; mounted as intended it saves the
   * stored test unchanged.
   */
  method ReopenDashboard(config: TestConfig) returns (asWrittenError: string, intendedError: string, resaved: Option<TestConfig>)
    requires |config.questions| > 0 && config.timeLimit > 0
    ensures asWrittenError == NoQuestionsMessage
    ensures intendedError == "" && resaved == Some(config)
  {
    var store := new LiveTestStore(Some(config));
    var asWritten := new Dashboard.AsWritten(store);
    asWritten.HandleSaveTest();
    asWrittenError := asWritten.error;
    var intended := new Dashboard(store);
    intended.HandleSaveTest();
    intendedError, resaved := intended.error, store.saved;
  }
}
