/** The application shell: which screen is shown and the handlers that switch it. */
module AppRouting {
  import opened Wrappers
  import opened Types
  import opened TestStore

  /** What `renderContent` shows. */
  datatype Screen = HomeScreen | LoginScreen | DashboardScreen | PortalScreen | TestView | ResultsView

  class App {
    const store: LiveTestStore
    var appState: AppState
    var isTutor: bool
    var studentAnswers: seq<Answer>
    /** The shell's own copy of the live test, loaded when the shell mounts. */
    var testConfig: Option<TestConfig>

    /** The routing invariant: the dashboard state is only ever entered as a tutor. */
    ghost predicate Valid()
      reads this
    {
      appState == TutorDashboard ==> isTutor
    }

    /** `renderContent`: the dashboard state shows the student portal to a non-tutor. */
    function View(): (s: Screen)
      reads this
      ensures Valid() ==> s != PortalScreen
      ensures s == PortalScreen <==> appState == TutorDashboard && !isTutor
    {
      match appState
      case TutorLogin => LoginScreen
      case TutorDashboard => if isTutor then DashboardScreen else PortalScreen
      case StudentTest => TestView
      case StudentResults => ResultsView
      case Home => HomeScreen
    }

    constructor (store: LiveTestStore)
      ensures Valid()
      ensures this.store == store && testConfig == store.saved
      ensures appState == Home && !isTutor && studentAnswers == []
    {
      this.store := store;
      appState, isTutor, studentAnswers := Home, false, [];
      testConfig := store.saved;
    }

    /** The home screen's tutor button. */
    method ChooseTutor()
      requires Valid()
      modifies this
      ensures Valid()
      ensures appState == TutorLogin
      ensures isTutor == old(isTutor) && studentAnswers == old(studentAnswers) && testConfig == old(testConfig)
    {
      appState := TutorLogin;
    }

    /** `handleLoginSuccess`. */
    method LoginSuccess()
      requires Valid()
      modifies this
      ensures Valid()
      ensures isTutor && appState == TutorDashboard
      ensures studentAnswers == old(studentAnswers) && testConfig == old(testConfig)
    {
      isTutor := true;
      appState := TutorDashboard;
    }

    /**
     * `handleStartTest` as written: it consults the shell's own copy of the
     * live test, which no save made after the shell mounted reaches.
     */
    method StartTest()
      requires Valid()
      modifies this
      ensures Valid()
      ensures testConfig.Some? && |testConfig.value.questions| > 0 ==>
        appState == StudentTest && studentAnswers == AllUnanswered(|testConfig.value.questions|)
      ensures !(testConfig.Some? && |testConfig.value.questions| > 0) ==>
        appState == old(appState) && studentAnswers == old(studentAnswers)
      ensures isTutor == old(isTutor) && testConfig == old(testConfig)
    {
      if testConfig.Some? && |testConfig.value.questions| > 0 {
        studentAnswers := AllUnanswered(|testConfig.value.questions|);
        appState := StudentTest;
      }
    }

    /** `handleStartTest` as intended: it consults the stored live test. */
    method StartLiveTest()
      requires Valid()
      modifies this
      ensures Valid()
      ensures store.saved.Some? && |store.saved.value.questions| > 0 ==>
        appState == StudentTest && studentAnswers == AllUnanswered(|store.saved.value.questions|)
      ensures !(store.saved.Some? && |store.saved.value.questions| > 0) ==>
        appState == old(appState) && studentAnswers == old(studentAnswers)
      ensures isTutor == old(isTutor) && testConfig == old(testConfig)
    {
      var live := store.saved;
      if live.Some? && |live.value.questions| > 0 {
        studentAnswers := AllUnanswered(|live.value.questions|);
        appState := StudentTest;
      }
    }

    /** `handleSubmitTest`: keep exactly the answers handed over and show the results. */
    method SubmitTest(answers: seq<Answer>)
      requires Valid()
      modifies this
      ensures Valid()
      ensures studentAnswers == answers && appState == StudentResults
      ensures isTutor == old(isTutor) && testConfig == old(testConfig)
    {
      studentAnswers := answers;
      appState := StudentResults;
    }

    /** `handleGoHome`, from the header or the login screen's back button. */
    method GoHome()
      requires Valid()
      modifies this
      ensures Valid()
      ensures appState == Home && !isTutor
      ensures studentAnswers == old(studentAnswers) && testConfig == old(testConfig)
    {
      appState := Home;
      isTutor := false;
    }

    /** `handleResetTest`, offered on the dashboard: clear the live test and stay there. */
    method ResetTest()
      requires Valid() && View() == DashboardScreen
      modifies this, store
      ensures Valid()
      ensures store.saved == None && testConfig == None
      ensures appState == TutorDashboard && isTutor == old(isTutor)
      ensures studentAnswers == old(studentAnswers)
    {
      store.Clear();
      testConfig := None;
      appState := TutorDashboard;
    }
  }
}
