/** Properties that relate several events of the translator page. */
module ViewProperties {
  import opened JsText
  import opened Languages
  import opened History
  import opened ViewModel

  /** Two clicks on the history button leave the state as it was. */
  lemma ToggleTwiceIsIdentity(v: ViewState)
    ensures HistoryToggled(HistoryToggled(v)) == v
  {
  }

  /** Selecting the same history entry twice is the same as selecting it once. */
  lemma SelectIdempotent(v: ViewState, item: TranslationRecord)
    ensures HistorySelected(HistorySelected(v, item), item) == HistorySelected(v, item)
  {
  }

  /** A swap empties the translation, so a second swap changes nothing. */
  lemma SwapTwiceIsSwapOnce(v: ViewState)
    ensures Swapped(Swapped(v)) == Swapped(v)
  {
  }

  /** Clearing a cleared page changes nothing. */
  lemma ClearIdempotent(v: ViewState)
    ensures Cleared(Cleared(v)) == Cleared(v)
  {
  }

  /** Back-translation: after a swap, translating sends the former translation
      from the former target language to the former source language. */
  lemma SwapThenTranslateGoesBack(v: ViewState)
    requires !IsBlank(v.translatedText) && v.sourceLang != v.targetLang
    ensures TranslateBegun(Swapped(v)).request ==
      Some(TranslateRequest(v.translatedText, v.targetLang, v.sourceLang,
                            v.currentDateTime, v.currentUser))
  {
  }

  /** A translation that was issued and succeeded leaves no error behind, even
      when an error had been shown before the click. */
  lemma IssuedAndTranslatedClearsError(v: ViewState, text: string, ts: Option<string>,
                                       user: Option<string>, id: int, now: string)
    requires !IsBlank(v.inputText) && v.sourceLang != v.targetLang
    ensures TranslateBegun(v).request.Some?
    ensures TranslateCompleted(TranslateBegun(v).state, TranslateBegun(v).request.value,
                               Translated(text, ts, user), id, now).error == ""
  {
  }

  /** The record added on success describes the request as it was issued, not
      the page as it is when the answer arrives: typing or switching languages
      while the call is out does not change what history records. */
  lemma RecordUsesIssuedValues(v: ViewState, w: ViewState, text: string, ts: Option<string>,
                               user: Option<string>, id: int, now: string)
    requires !IsBlank(v.inputText) && v.sourceLang != v.targetLang
    ensures TranslateBegun(v).request.Some?
    ensures var req := TranslateBegun(v).request.value;
      var h := TranslateCompleted(w, req, Translated(text, ts, user), id, now).history;
      h[0].originalText == v.inputText && h[0].sourceLang == v.sourceLang &&
      h[0].targetLang == v.targetLang && h[0].translatedText == text
  {
  }

  /** A rejected translate click issues nothing and changes only the error. */
  lemma RejectedClickChangesOnlyError(v: ViewState)
    requires TranslateBegun(v).request.None?
    ensures TranslateBegun(v).state.(error := v.error) == v
    ensures TranslateBegun(v).state.error in {EmptyInputError, SameLanguagesError}
    ensures !TranslateBegun(v).state.isLoading <==> !v.isLoading
  {
  }

  /** The blank check comes first: a blank input with equal languages reports
      the blank input. */
  lemma BlankReportedBeforeSameLanguage(v: ViewState)
    requires IsBlank(v.inputText) && v.sourceLang == v.targetLang
    ensures TranslateBegun(v).state.error == EmptyInputError
  {
  }

  /** Every event keeps the history at ten records or fewer. */
  lemma EveryEventKeepsHistoryBounded(v: ViewState, text: string, lang: string,
                                      item: TranslationRecord, req: TranslateRequest,
                                      t: TranslateOutcome, s: SpeechOutcome,
                                      l: LanguagesOutcome, id: int, now: string)
    requires Bounded(v)
    ensures Bounded(InputChanged(v, text)) && Bounded(SourceSelected(v, lang))
    ensures Bounded(TargetSelected(v, lang)) && Bounded(Swapped(v)) && Bounded(Cleared(v))
    ensures Bounded(HistoryToggled(v)) && Bounded(HistorySelected(v, item))
    ensures Bounded(TranslateBegun(v).state) && Bounded(TranslateCompleted(v, req, t, id, now))
    ensures Bounded(SpeechBegun(v).state) && Bounded(SpeechCompleted(v, s))
    ensures Bounded(PlaybackEnded(v)) && Bounded(PlaybackFailed(v))
    ensures Bounded(LanguagesFetched(v, l))
  {
  }

  /** A failed speech call keeps the translation and stops speaking; a
      successful one keeps speaking until playback ends or fails. */
  lemma SpeechCycle(v: ViewState, s: SpeechOutcome)
    requires v.translatedText != ""
    ensures var w := SpeechCompleted(SpeechBegun(v).state, s);
      w.translatedText == v.translatedText &&
      (w.isSpeaking <==> PlaybackStarts(s)) &&
      !PlaybackEnded(w).isSpeaking && !PlaybackFailed(w).isSpeaking
  {
  }

  /** Listening uses the locale of the target language when the table has it,
      and every locale sent is one of the table's. */
  lemma SpeechUsesTargetLocale(v: ViewState)
    requires v.translatedText != "" && v.targetLang in SupportedLanguages
    ensures SpeechBegun(v).request.Some?
    ensures SpeechBegun(v).request.value.languageCode == Some(SupportedLanguages[v.targetLang])
    ensures IsIndianLocale(SupportedLanguages[v.targetLang])
  {
  }

  /** Typing and clearing bring the character counter in step with the input
      from any state. A swap and a history selection set the input without the
      counter (see SwapLeavesCounterBehind). */
  lemma CharCountFollowsInput(v: ViewState, text: string)
    ensures CharCountInSync(InputChanged(v, text)) && CharCountInSync(Cleared(v))
  {
  }

  /** Choosing languages, toggling the panel and the translate click keep the
      counter in step with the input. */
  lemma ValidationKeepsCharCount(v: ViewState, lang: string)
    requires CharCountInSync(v)
    ensures CharCountInSync(SourceSelected(v, lang)) && CharCountInSync(TargetSelected(v, lang))
    ensures CharCountInSync(HistoryToggled(v)) && CharCountInSync(TranslateBegun(v).state)
  {
  }

  /** Completions, playback events and the language fetch keep the counter in
      step with the input. */
  lemma CompletionsKeepCharCount(v: ViewState, req: TranslateRequest, t: TranslateOutcome,
                                 s: SpeechOutcome, l: LanguagesOutcome, id: int, now: string)
    requires CharCountInSync(v)
    ensures CharCountInSync(TranslateCompleted(v, req, t, id, now))
    ensures CharCountInSync(SpeechBegun(v).state) && CharCountInSync(SpeechCompleted(v, s))
    ensures CharCountInSync(PlaybackEnded(v)) && CharCountInSync(PlaybackFailed(v))
    ensures CharCountInSync(LanguagesFetched(v, l))
  {
  }

  /** A swap whose translation is longer than the input leaves the counter
      showing the old input's length. */
  lemma SwapLeavesCounterBehind()
    ensures var v := Initial.(inputText := "Hi", charCount := 2, translatedText := "Namaste");
      CharCountInSync(v) && !CharCountInSync(Swapped(v))
  {
  }

  /** "Hello" from English to Hindi, answered with a translation: the output
      shows it, the history holds one record and no error is shown. */
  lemma HelloScenario(ts: Option<string>, user: Option<string>, id: int, now: string)
    ensures var v := InputChanged(Initial, "Hello");
      var b := TranslateBegun(v);
      b.request.Some? &&
      var w := TranslateCompleted(b.state, b.request.value, Translated("नमस्ते", ts, user), id, now);
      w.translatedText == "नमस्ते" && |w.history| == 1 && w.error == "" && !w.isLoading
  {
  }

  /** "Hello" from English to English: nothing is sent and the error says so. */
  lemma SameLanguageScenario()
    ensures var v := TargetSelected(InputChanged(Initial, "Hello"), "English");
      TranslateBegun(v).request == None &&
      TranslateBegun(v).state.error == SameLanguagesError && !TranslateBegun(v).state.isLoading
  {
  }

  /** A translate call that fails in transport: the connectivity message is
      shown, loading stops and the output stays what it was. */
  lemma TransportFailureScenario(v: ViewState, id: int, now: string)
    requires !IsBlank(v.inputText) && v.sourceLang != v.targetLang
    ensures TranslateBegun(v).request.Some?
    ensures var b := TranslateBegun(v);
      var w := TranslateCompleted(b.state, b.request.value, TransportFailed, id, now);
      w.error == ConnectionError && !w.isLoading && w.translatedText == v.translatedText &&
      w.history == v.history
  {
  }

  /** A speech response with `success: true` but no audio reports the fallback
      message and stops speaking. */
  lemma SpeechWithoutAudioScenario(v: ViewState)
    requires v.translatedText != ""
    ensures var w := SpeechCompleted(SpeechBegun(v).state, SpeechResponse(true, None, None));
      w.error == SpeechErrorPrefix + SpeechFailedMessage && !w.isSpeaking &&
      w.translatedText == v.translatedText
  {
  }
}
