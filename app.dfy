/** The translator component as an object whose fields are its state and whose
    methods are its event handlers. Each method updates the fields the handler's
    setters update, and its postcondition ties the new state to the transition
    of the same name in ViewModel. */
module TranslatorApp {
  import opened JsText
  import Languages
  import opened History
  import opened ViewModel

  class App {
    var inputText: string
    var translatedText: string
    var sourceLang: string
    var targetLang: string
    var languages: seq<string>
    var isLoading: bool
    var isSpeaking: bool
    var error: string
    var charCount: nat
    var currentDateTime: string
    var currentUser: string
    var translationHistory: seq<TranslationRecord>
    var showHistory: bool

    /** The fields as one value. */
    function State(): ViewState
      reads this
    {
      ViewState(inputText, translatedText, sourceLang, targetLang, languages, isLoading,
                isSpeaking, error, charCount, currentDateTime, currentUser,
                translationHistory, showHistory)
    }

    /** The object invariant: the history holds at most ten records. */
    predicate Valid()
      reads this
    {
      Bounded(State())
    }

    /** The state on mount. */
    constructor ()
      ensures Valid() && State() == Initial
    {
      inputText, translatedText := "", "";
      sourceLang, targetLang := "English", "Hindi";
      languages := [];
      isLoading, isSpeaking := false, false;
      error := "";
      charCount := 0;
      currentDateTime, currentUser := "", "";
      translationHistory := [];
      showHistory := false;
    }

    method HandleInputChange(text: string)
      requires Valid()
      modifies this
      ensures Valid() && State() == InputChanged(old(State()), text)
    {
      inputText := text;
      charCount := Utf16Length(text);
    }

    method SelectSourceLanguage(lang: string)
      requires Valid()
      modifies this
      ensures Valid() && State() == SourceSelected(old(State()), lang)
    {
      sourceLang := lang;
    }

    method SelectTargetLanguage(lang: string)
      requires Valid()
      modifies this
      ensures Valid() && State() == TargetSelected(old(State()), lang)
    {
      targetLang := lang;
    }

    /** Both languages are assigned at once: the handler reads them as they were
        before the click, so this is an exchange. */
    method SwapLanguages()
      requires Valid()
      modifies this
      ensures Valid() && State() == Swapped(old(State()))
    {
      if translatedText == "" {
        return;
      }
      sourceLang, targetLang := targetLang, sourceLang;
      inputText := translatedText;
      translatedText := "";
    }

    method ClearAll()
      requires Valid()
      modifies this
      ensures Valid() && State() == Cleared(old(State()))
    {
      inputText := "";
      translatedText := "";
      charCount := 0;
      error := "";
    }

    method ToggleHistory()
      requires Valid()
      modifies this
      ensures Valid() && State() == HistoryToggled(old(State()))
    {
      showHistory := !showHistory;
    }

    method SelectFromHistory(item: TranslationRecord)
      requires Valid()
      modifies this
      ensures Valid() && State() == HistorySelected(old(State()), item)
    {
      inputText := item.originalText;
      translatedText := item.translatedText;
      sourceLang := item.sourceLang;
      targetLang := item.targetLang;
      showHistory := false;
    }

    /** The translate click up to the network call; the request it returns is
        what the call sends and what its completion remembers. */
    method BeginTranslate() returns (request: Option<TranslateRequest>)
      requires Valid()
      modifies this
      ensures Valid()
      ensures Step(State(), request) == TranslateBegun(old(State()))
    {
      if Trim(inputText) == "" {
        error := EmptyInputError;
        return None;
      }
      if sourceLang == targetLang {
        error := SameLanguagesError;
        return None;
      }
      error := "";
      isLoading := true;
      request := Some(TranslateRequest(inputText, sourceLang, targetLang,
                                       currentDateTime, currentUser));
    }

    /** The end of the translate call issued as `request`. `id` and `now` stand
        for `Date.now()` and the current time in ISO form. */
    method CompleteTranslate(request: TranslateRequest, outcome: TranslateOutcome,
                             id: int, now: string)
      requires Valid()
      modifies this
      ensures Valid() && State() == TranslateCompleted(old(State()), request, outcome, id, now)
    {
      match outcome {
        case Translated(text, timestamp, user) =>
          translatedText := text;
          currentDateTime := OrElse(timestamp, request.dateTime);
          currentUser := OrElse(user, request.user);
          translationHistory := Prepend(RecordFor(request, text, timestamp, id, now),
                                        translationHistory);
        case ServiceFailed(message) =>
          error := OrElse(message, TranslationFailedError);
        case TransportFailed =>
          error := ConnectionError;
      }
      isLoading := false;
    }

    /** The listen click up to the network call. */
    method BeginSpeak() returns (request: Option<SpeechRequest>)
      requires Valid()
      modifies this
      ensures Valid()
      ensures Step(State(), request) == SpeechBegun(old(State()))
    {
      if translatedText == "" {
        return None;
      }
      isSpeaking := true;
      request := Some(SpeechRequest(translatedText, Languages.LanguageCode(targetLang)));
    }

    /** The end of the text-to-speech call; `playing` tells whether playback of
        the returned audio begins. */
    method CompleteSpeak(outcome: SpeechOutcome) returns (playing: bool)
      requires Valid()
      modifies this
      ensures Valid() && State() == SpeechCompleted(old(State()), outcome)
      ensures playing == PlaybackStarts(outcome)
    {
      playing := PlaybackStarts(outcome);
      if !playing {
        error := SpeechErrorPrefix + SpeechFailure(outcome);
        isSpeaking := false;
      }
    }

    method OnPlaybackEnded()
      requires Valid()
      modifies this
      ensures Valid() && State() == PlaybackEnded(old(State()))
    {
      isSpeaking := false;
    }

    method OnPlaybackError()
      requires Valid()
      modifies this
      ensures Valid() && State() == PlaybackFailed(old(State()))
    {
      error := PlaybackError;
      isSpeaking := false;
    }

    /** The end of the language-list call made on mount. */
    method CompleteFetchLanguages(outcome: LanguagesOutcome)
      requires Valid()
      modifies this
      ensures Valid() && State() == LanguagesFetched(old(State()), outcome)
    {
      match outcome {
        case LanguagesResponse(success, names) =>
          if success {
            languages := names;
          }
        case LanguagesTransportFailed =>
          error := LanguagesError;
      }
    }
  }

  /** A session: typing, a translation, then a second swap that does nothing.
      Only the contracts above are used. */
  method SwapSession(text: string, answer: string, id: int, now: string)
    requires answer != "" && !IsBlank(text)
  {
    var app := new App();
    app.HandleInputChange(text);
    var request := app.BeginTranslate();
    TrimEmptyIffBlank(text);
    assert request == Some(TranslateRequest(text, "English", "Hindi", "", ""));
    app.CompleteTranslate(request.value, Translated(answer, None, None), id, now);
    assert app.translatedText == answer && |app.translationHistory| == 1;
    assert app.translationHistory[0].originalText == text;
    app.SwapLanguages();
    assert app.sourceLang == "Hindi" && app.targetLang == "English";
    assert app.inputText == answer && app.translatedText == "";
    var before := app.State();
    app.SwapLanguages();
    assert app.State() == before;
  }
}
