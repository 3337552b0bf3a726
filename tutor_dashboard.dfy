/** The tutor dashboard's handlers over its draft questions, time limit and messages. */
module TutorDashboard {
  import opened Wrappers
  import opened Types
  import Text
  import Parser
  import GeminiService
  import opened TestStore

  const NoQuestionsMessage: string := "Please load or generate questions before saving."
  const BadTimeLimitMessage: string := "Time limit must be greater than zero."
  const SavedMessage: string := "Test configuration saved and is now live for students!"
  const ParsingMessage: string := "Parsing Excel file..."

  /** A chosen file: its name and what reading and decoding it gave (the thrown message on failure). */
  datatype Upload = Upload(name: string, contents: Result<Parser.Workbook, string>)

  /** `useState(testConfig?.questions || [])` and `useState(testConfig?.timeLimit || 30)`. */
  function InitialDraft(config: Option<TestConfig>): (draft: (seq<Question>, int))
    ensures config.None? ==> draft == ([], 30)
    ensures config.Some? ==> draft.0 == config.value.questions
    ensures config.Some? ==> draft.1 == if config.value.timeLimit == 0 then 30 else config.value.timeLimit
  {
    if config.None? then ([], 30)
    else (config.value.questions, if config.value.timeLimit == 0 then 30 else config.value.timeLimit)
  }

  /** The outcome of `parseExcel` on an upload, decoding failures included. */
  function ParseUpload(file: Upload, numberText: real -> string): Result<seq<Question>, string>
  {
    match file.contents
    case Err(message) => Err(message)
    case Ok(wb) => Parser.ParseExcel(wb, numberText)
  }

  class Dashboard {
    const store: LiveTestStore
    /** This component's copy of the live test, as its hook holds it. */
    var testConfig: Option<TestConfig>
    var questions: seq<Question>
    var timeLimit: int
    var statusMessage: string
    var error: string
    var isGenerating: bool
    var aiTopic: string
    var aiNumQuestions: int

    /**
     * Mounting as the code is written: the state initialisers run on the
     * first render, before the hook's effect has loaded the stored test, so
     * they always see no configuration.
     */
    constructor AsWritten(store: LiveTestStore)
      ensures this.store == store && testConfig == store.saved
      ensures (questions, timeLimit) == InitialDraft(None)
      ensures statusMessage == "" && error == "" && !isGenerating
      ensures aiTopic == "General Knowledge" && aiNumQuestions == 5
    {
      this.store := store;
      testConfig := store.saved;
      questions, timeLimit := InitialDraft(None).0, InitialDraft(None).1;
      statusMessage, error, isGenerating := "", "", false;
      aiTopic, aiNumQuestions := "General Knowledge", 5;
    }

    /** Mounting as intended: the draft starts from the stored test, or from the defaults. */
    constructor (store: LiveTestStore)
      ensures this.store == store && testConfig == store.saved
      ensures (questions, timeLimit) == InitialDraft(store.saved)
      ensures statusMessage == "" && error == "" && !isGenerating
      ensures aiTopic == "General Knowledge" && aiNumQuestions == 5
    {
      this.store := store;
      testConfig := store.saved;
      questions, timeLimit := InitialDraft(store.saved).0, InitialDraft(store.saved).1;
      statusMessage, error, isGenerating := "", "", false;
      aiTopic, aiNumQuestions := "General Knowledge", 5;
    }

    /** The time-limit input. */
    method SetTimeLimit(minutes: int)
      modifies this
      ensures timeLimit == minutes
      ensures questions == old(questions) && testConfig == old(testConfig)
      ensures statusMessage == old(statusMessage) && error == old(error) && isGenerating == old(isGenerating)
      ensures aiTopic == old(aiTopic) && aiNumQuestions == old(aiNumQuestions)
    {
      timeLimit := minutes;
    }

    /** The topic input. */
    method SetTopic(topic: string)
      modifies this
      ensures aiTopic == topic
      ensures questions == old(questions) && timeLimit == old(timeLimit) && testConfig == old(testConfig)
      ensures statusMessage == old(statusMessage) && error == old(error) && isGenerating == old(isGenerating)
      ensures aiNumQuestions == old(aiNumQuestions)
    {
      aiTopic := topic;
    }

    /** The question-count input. */
    method SetQuestionCount(count: int)
      modifies this
      ensures aiNumQuestions == count
      ensures questions == old(questions) && timeLimit == old(timeLimit) && testConfig == old(testConfig)
      ensures statusMessage == old(statusMessage) && error == old(error) && isGenerating == old(isGenerating)
      ensures aiTopic == old(aiTopic)
    {
      aiNumQuestions := count;
    }

    /**
     * `handleFileChange`: without a file nothing happens. A successful parse
     * replaces the draft questions; a failure keeps them, shows the error and
     * clears the status.
     */
    method HandleFileChange(file: Option<Upload>, numberText: real -> string)
      modifies this
      ensures file.None? ==>
        questions == old(questions) && statusMessage == old(statusMessage) && error == old(error)
      ensures file.Some? ==> match ParseUpload(file.value, numberText)
        case Ok(parsed) =>
          && questions == parsed && error == ""
          && statusMessage == Text.NatToString(|parsed|) + " questions loaded successfully from " + file.value.name + "."
        case Err(message) =>
          questions == old(questions) && error == message && statusMessage == ""
      ensures timeLimit == old(timeLimit) && testConfig == old(testConfig) && isGenerating == old(isGenerating)
      ensures aiTopic == old(aiTopic) && aiNumQuestions == old(aiNumQuestions)
    {
      if file.None? {
        return;
      }
      statusMessage := ParsingMessage;
      error := "";
      match ParseUpload(file.value, numberText)
      case Ok(parsed) =>
        questions := parsed;
        statusMessage := Text.NatToString(|parsed|) + " questions loaded successfully from " + file.value.name + ".";
      case Err(message) =>
        error := message;
        statusMessage := "";
    }

    /**
     * `handleGenerateQuestions`, from the click to the `finally`: success
     * replaces the draft questions, failure keeps them and shows the error;
     * either way generation is over afterwards.
     */
    method HandleGenerateQuestions(apiKey: Option<string>, reply: Option<Json>)
      modifies this
      ensures match GeminiService.GenerateQuestions(apiKey, reply)
        case Ok(generated) =>
          && questions == generated && error == ""
          && statusMessage == Text.NatToString(|generated|) + " questions generated successfully!"
        case Err(message) =>
          questions == old(questions) && error == message && statusMessage == ""
      ensures !isGenerating
      ensures timeLimit == old(timeLimit) && testConfig == old(testConfig)
      ensures aiTopic == old(aiTopic) && aiNumQuestions == old(aiNumQuestions)
    {
      isGenerating := true;
      error := "";
      statusMessage := "Generating " + Text.IntToString(aiNumQuestions) + " questions about \"" + aiTopic + "\"...";
      match GeminiService.GenerateQuestions(apiKey, reply) {
        case Ok(generated) =>
          questions := generated;
          statusMessage := Text.NatToString(|generated|) + " questions generated successfully!";
        case Err(message) =>
          error := message;
          statusMessage := "";
      }
      isGenerating := false;
    }

    /**
     * `handleSaveTest`: refuse an empty draft first, then a non-positive time
     * limit; otherwise store exactly the draft and clear the error.
     */
    method HandleSaveTest()
      modifies this, store
      ensures |questions| == 0 ==>
        error == NoQuestionsMessage && store.saved == old(store.saved)
        && testConfig == old(testConfig) && statusMessage == old(statusMessage)
      ensures |questions| > 0 && timeLimit <= 0 ==>
        error == BadTimeLimitMessage && store.saved == old(store.saved)
        && testConfig == old(testConfig) && statusMessage == old(statusMessage)
      ensures |questions| > 0 && timeLimit > 0 ==>
        && store.saved == Some(TestConfig(questions, timeLimit)) && testConfig == store.saved
        && error == "" && statusMessage == SavedMessage
      ensures questions == old(questions) && timeLimit == old(timeLimit) && isGenerating == old(isGenerating)
      ensures aiTopic == old(aiTopic) && aiNumQuestions == old(aiNumQuestions)
    {
      if |questions| == 0 {
        error := NoQuestionsMessage;
        return;
      }
      if timeLimit <= 0 {
        error := BadTimeLimitMessage;
        return;
      }
      store.Save(TestConfig(questions, timeLimit));
      testConfig := Some(TestConfig(questions, timeLimit));
      error := "";
      statusMessage := SavedMessage;
    }
  }
}
