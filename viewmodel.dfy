/** The translator page's view state and, for every event, the state it leads to.
    A React handler reads the state as it was when the event fired and its
    setters take effect together afterwards, so each handler is a function from
    the state before to the state after. Network and audio results arrive as
    outcome values. */
module ViewModel {
  import opened JsText
  import opened Languages
  import opened History

  const EmptyInputError := "Please enter some text to translate"
  const SameLanguagesError := "Source and target languages are the same"
  const TranslationFailedError := "Translation failed"
  const ConnectionError := "Error connecting to the translation service"
  const SpeechErrorPrefix := "Text-to-speech error: "
  const SpeechFailedMessage := "Failed to generate speech"
  const PlaybackError := "Failed to play audio"
  const LanguagesError := "Failed to fetch supported languages"

  /** The component's state fields (the copied-message flag is not modelled). */
  datatype ViewState = ViewState(
    inputText: string,
    translatedText: string,
    sourceLang: string,
    targetLang: string,
    languages: seq<string>,
    isLoading: bool,
    isSpeaking: bool,
    error: string,
    charCount: nat,
    currentDateTime: string,
    currentUser: string,
    history: seq<TranslationRecord>,
    showHistory: bool)

  /** The state on mount. */
  const Initial := ViewState("", "", "English", "Hindi", [], false, false, "", 0, "", "", [], false)

  /** The state's own invariant: the history is bounded. */
  predicate Bounded(v: ViewState) {
    |v.history| <= Capacity
  }

  /** The character counter shows the input's length. */
  predicate CharCountInSync(v: ViewState) {
    v.charCount == Utf16Length(v.inputText)
  }

  /** A handler's new state together with the request it issues, if any. */
  datatype Step<R> = Step(state: ViewState, request: Option<R>)

  /** What a translate call sends, together with the values its completion reads
      from the handler's closure. */
  datatype TranslateRequest = TranslateRequest(
    text: string, sourceLang: string, targetLang: string,
    dateTime: string, user: string)

  /** How a translate call ends: the service answered `success: true` (with
      optional `timestamp` and `user`), it answered `success: false` (with an
      optional `message`), or the call threw. */
  datatype TranslateOutcome =
    | Translated(text: string, timestamp: Option<string>, user: Option<string>)
    | ServiceFailed(message: Option<string>)
    | TransportFailed

  /** What a text-to-speech call sends. `languageCode` is absent when the
      target language is not in the table. */
  datatype SpeechRequest = SpeechRequest(text: string, languageCode: Option<string>)

  /** How a text-to-speech call ends: a response with its `success`,
      `audio_data` and `message` fields, or a thrown error with its message. */
  datatype SpeechOutcome =
    | SpeechResponse(success: bool, audioData: Option<string>, message: Option<string>)
    | SpeechTransportFailed(errorMessage: string)

  /** How the language-list call ends. */
  datatype LanguagesOutcome =
    | LanguagesResponse(success: bool, names: seq<string>)
    | LanguagesTransportFailed

  /** Typing into the text area. */
  function InputChanged(v: ViewState, text: string): (r: ViewState)
    ensures r.inputText == text && CharCountInSync(r)
    ensures r.(inputText := v.inputText, charCount := v.charCount) == v
  {
    v.(inputText := text, charCount := Utf16Length(text))
  }

  /** Choosing a language in the "From" selector. */
  function SourceSelected(v: ViewState, lang: string): (r: ViewState)
    ensures r.sourceLang == lang && r.(sourceLang := v.sourceLang) == v
  {
    v.(sourceLang := lang)
  }

  /** Choosing a language in the "To" selector. */
  function TargetSelected(v: ViewState, lang: string): (r: ViewState)
    ensures r.targetLang == lang && r.(targetLang := v.targetLang) == v
  {
    v.(targetLang := lang)
  }

  /** The swap button: without a translation nothing happens; otherwise the
      languages are exchanged and the translation becomes the new input. */
  function Swapped(v: ViewState): (r: ViewState)
    ensures v.translatedText == "" ==> r == v
    ensures v.translatedText != "" ==>
      r.sourceLang == v.targetLang && r.targetLang == v.sourceLang &&
      r.inputText == v.translatedText && r.translatedText == ""
    ensures r.(sourceLang := v.sourceLang, targetLang := v.targetLang,
               inputText := v.inputText, translatedText := v.translatedText) == v
  {
    if v.translatedText == "" then v
    else v.(sourceLang := v.targetLang, targetLang := v.sourceLang,
            inputText := v.translatedText, translatedText := "")
  }

  /** The clear button. */
  function Cleared(v: ViewState): (r: ViewState)
    ensures r.inputText == "" && r.translatedText == "" && r.error == "" && r.charCount == 0
    ensures CharCountInSync(r)
    ensures r.(inputText := v.inputText, translatedText := v.translatedText,
               error := v.error, charCount := v.charCount) == v
  {
    v.(inputText := "", translatedText := "", charCount := 0, error := "")
  }

  /** The history button. */
  function HistoryToggled(v: ViewState): (r: ViewState)
    ensures r.showHistory != v.showHistory
    ensures r.(showHistory := v.showHistory) == v
  {
    v.(showHistory := !v.showHistory)
  }

  /** Clicking an entry of the history panel. */
  function HistorySelected(v: ViewState, item: TranslationRecord): (r: ViewState)
    ensures r.inputText == item.originalText && r.translatedText == item.translatedText
    ensures r.sourceLang == item.sourceLang && r.targetLang == item.targetLang
    ensures !r.showHistory
    ensures r.(inputText := v.inputText, translatedText := v.translatedText,
               sourceLang := v.sourceLang, targetLang := v.targetLang,
               showHistory := v.showHistory) == v
  {
    v.(inputText := item.originalText, translatedText := item.translatedText,
       sourceLang := item.sourceLang, targetLang := item.targetLang, showHistory := false)
  }

  /** The validating half of the translate button: a blank input is refused
      first, then equal languages; otherwise the error is cleared, loading
      starts and a request is issued with the values of this moment. */
  function TranslateBegun(v: ViewState): (r: Step<TranslateRequest>)
    ensures IsBlank(v.inputText) ==>
      r.request == None && r.state == v.(error := EmptyInputError)
    ensures !IsBlank(v.inputText) && v.sourceLang == v.targetLang ==>
      r.request == None && r.state == v.(error := SameLanguagesError)
    ensures !IsBlank(v.inputText) && v.sourceLang != v.targetLang ==>
      r.request == Some(TranslateRequest(v.inputText, v.sourceLang, v.targetLang,
                                         v.currentDateTime, v.currentUser)) &&
      r.state == v.(error := "", isLoading := true)
  {
    TrimEmptyIffBlank(v.inputText);
    if Trim(v.inputText) == "" then Step(v.(error := EmptyInputError), None)
    else if v.sourceLang == v.targetLang then Step(v.(error := SameLanguagesError), None)
    else
      Step(v.(error := "", isLoading := true),
           Some(TranslateRequest(v.inputText, v.sourceLang, v.targetLang,
                                 v.currentDateTime, v.currentUser)))
  }

  /** The history record a successful translation adds. `id` and `now` stand
      for `Date.now()` and the current time in ISO form. */
  function RecordFor(req: TranslateRequest, text: string, timestamp: Option<string>,
                     id: int, now: string): (rec: TranslationRecord)
    ensures rec.originalText == req.text && rec.translatedText == text
    ensures rec.sourceLang == req.sourceLang && rec.targetLang == req.targetLang
    ensures rec.id == id && (Truthy(timestamp) ==> rec.timestamp == timestamp.value)
    ensures !Truthy(timestamp) ==> rec.timestamp == now
  {
    TranslationRecord(id, req.text, text, req.sourceLang, req.targetLang, OrElse(timestamp, now))
  }

  /** The completing half of the translate button, applied to the state at the
      moment the call ends. Loading stops whatever the outcome. */
  function TranslateCompleted(v: ViewState, req: TranslateRequest, outcome: TranslateOutcome,
                              id: int, now: string): (r: ViewState)
    ensures !r.isLoading
    ensures outcome.Translated? ==>
      r.translatedText == outcome.text &&
      |r.history| == Min(|v.history| + 1, Capacity) &&
      r.history[0] == RecordFor(req, outcome.text, outcome.timestamp, id, now) &&
      r.history[1..] == v.history[..|r.history| - 1] &&
      r.currentDateTime == OrElse(outcome.timestamp, req.dateTime) &&
      r.currentUser == OrElse(outcome.user, req.user) &&
      r.(translatedText := v.translatedText, history := v.history, isLoading := v.isLoading,
         currentDateTime := v.currentDateTime, currentUser := v.currentUser) == v
    ensures outcome.ServiceFailed? ==>
      r.error == OrElse(outcome.message, TranslationFailedError)
    ensures outcome.TransportFailed? ==> r.error == ConnectionError
    ensures !outcome.Translated? ==>
      r.(error := v.error, isLoading := v.isLoading) == v
  {
    match outcome
    case Translated(text, timestamp, user) =>
      v.(translatedText := text,
         currentDateTime := OrElse(timestamp, req.dateTime),
         currentUser := OrElse(user, req.user),
         history := Prepend(RecordFor(req, text, timestamp, id, now), v.history),
         isLoading := false)
    case ServiceFailed(message) =>
      v.(error := OrElse(message, TranslationFailedError), isLoading := false)
    case TransportFailed =>
      v.(error := ConnectionError, isLoading := false)
  }

  /** The listen button: without a translation nothing happens; otherwise
      speaking starts and the translation is sent with the target's locale. */
  function SpeechBegun(v: ViewState): (r: Step<SpeechRequest>)
    ensures v.translatedText == "" ==> r.state == v && r.request == None
    ensures v.translatedText != "" ==>
      r.state == v.(isSpeaking := true) &&
      r.request == Some(SpeechRequest(v.translatedText, LanguageCode(v.targetLang)))
  {
    if v.translatedText == "" then Step(v, None)
    else Step(v.(isSpeaking := true),
              Some(SpeechRequest(v.translatedText, LanguageCode(v.targetLang))))
  }

  /** Playback begins exactly when the service succeeded and sent audio. */
  predicate PlaybackStarts(outcome: SpeechOutcome) {
    outcome.SpeechResponse? && outcome.success && Truthy(outcome.audioData)
  }

  /** The message a failed speech call reports after the prefix: the service's
      message or the fallback when the response carries no audio, the thrown
      error's own message otherwise. */
  function SpeechFailure(outcome: SpeechOutcome): (m: string)
    ensures outcome.SpeechResponse? && Truthy(outcome.message) ==> m == outcome.message.value
    ensures outcome.SpeechResponse? && !Truthy(outcome.message) ==> m == SpeechFailedMessage
    ensures outcome.SpeechTransportFailed? ==> m == outcome.errorMessage
  {
    match outcome
    case SpeechResponse(_, _, message) => OrElse(message, SpeechFailedMessage)
    case SpeechTransportFailed(errorMessage) => errorMessage
  }

  /** The end of a text-to-speech call. When playback starts the state stays as
      it is (still speaking); otherwise the error is reported and speaking stops.
      The translation is never touched. */
  function SpeechCompleted(v: ViewState, outcome: SpeechOutcome): (r: ViewState)
    ensures PlaybackStarts(outcome) ==> r == v
    ensures !PlaybackStarts(outcome) ==>
      r.error == SpeechErrorPrefix + SpeechFailure(outcome) && !r.isSpeaking &&
      r.(error := v.error, isSpeaking := v.isSpeaking) == v
    ensures r.translatedText == v.translatedText
  {
    if PlaybackStarts(outcome) then v
    else v.(error := SpeechErrorPrefix + SpeechFailure(outcome), isSpeaking := false)
  }

  /** The audio element's `ended` event. */
  function PlaybackEnded(v: ViewState): (r: ViewState)
    ensures !r.isSpeaking && r.(isSpeaking := v.isSpeaking) == v
  {
    v.(isSpeaking := false)
  }

  /** The audio element's `error` event. */
  function PlaybackFailed(v: ViewState): (r: ViewState)
    ensures !r.isSpeaking && r.error == PlaybackError
    ensures r.(isSpeaking := v.isSpeaking, error := v.error) == v
  {
    v.(error := PlaybackError, isSpeaking := false)
  }

  /** The end of the language-list call made on mount. */
  function LanguagesFetched(v: ViewState, outcome: LanguagesOutcome): (r: ViewState)
    ensures outcome.LanguagesResponse? && outcome.success ==> r == v.(languages := outcome.names)
    ensures outcome.LanguagesResponse? && !outcome.success ==> r == v
    ensures outcome.LanguagesTransportFailed? ==> r == v.(error := LanguagesError)
  {
    match outcome
    case LanguagesResponse(success, names) => if success then v.(languages := names) else v
    case LanguagesTransportFailed => v.(error := LanguagesError)
  }
}
