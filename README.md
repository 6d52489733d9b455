# Bharat Bhasha Translator: the view-state machine

This project models the state of the translator page in `src/App.js` and the
event handlers that change it: typing, choosing languages, swapping them,
clearing, showing the history, picking a history entry, translating, listening
to the translation, and the mount-time fetch of the language list. It also
models the bounded translation history and the table of language locales.

The page is a React component. Every handler reads the state as it was when the
event fired, and its setters take effect together afterwards. The model
therefore has two layers:

- `ViewModel` gives each event a pure transition from the state before to the
  state after. Its contracts state what the page promises.
- `TranslatorApp.App` is a class whose fields are the component's state
  variables. Its methods are the handlers; each updates the same fields as the
  handler's setters, and its postcondition ties the new state to the transition
  of the same name. Swapping assigns both languages at once, so it is a true
  exchange, as it is in React.

Network calls are not made. A handler that issues a call is split in two. The
first half validates and returns the request it would send. The second half
takes the request and an outcome value: a translation, a failure the service
reported, or a transport failure. The request carries everything the
completion reads from the handler's closure: the input text, both languages,
and the clock and user strings shown in the header. A history record therefore
describes the request as it was issued, even if the page changed while the call
was out. The history update itself applies to the history as it is when the
call ends, because the source uses a functional updater.

JavaScript details are written out. `trim` removes ECMAScript white space and
line terminators. `length` counts UTF-16 code units. `a || b` on a string that
may be absent falls back when the value is absent or empty.

Two facts about the code are worth stating on their own:

- The character counter is written only by typing and clearing. A swap or a
  history selection changes the input without updating the counter, so the
  counter can show the old length. This is modelled as written:
  `ViewProperties.SwapLeavesCounterBehind` gives an instance.
- The language table has ten entries: English and nine Indian languages
  (`Languages.TableSize`).

`TranslatorApp.SwapSession` is a usage scenario rather than a model of a
handler: a client of `App` that types, translates and swaps twice, and proves
from the methods' contracts alone that the second swap changes nothing.

## Model

| member | source | states |
|---|---|---|
| JsText.OrElse | src/App.js:176 | the JavaScript "or" fallback: the value when it is present and non-empty, the fallback otherwise |
| JsText.TrimStart | src/App.js:138 | the result is a suffix of the input, everything dropped is white space, and it is empty or starts with a non-white-space character |
| JsText.TrimEnd | src/App.js:138 | the result is a prefix of the input, everything dropped is white space, and it is empty or ends with a non-white-space character |
| JsText.Trim | src/App.js:138 | `trim()`: the result is the part of the input between a leading and a trailing run of white space, and it is empty or starts and ends with a non-white-space character |
| JsText.TrimEmptyIffBlank | src/App.js:138 | `!text.trim()` holds exactly when every character of the text is white space |
| JsText.Utf16Length | src/App.js:69 | `text.length` counts UTF-16 code units: between the number of code points and twice that, and equal to it when all code points are in the Basic Multilingual Plane |
| Languages.LanguageCode | src/App.js:356-367 | the lookup finds a code exactly for the ten names in the table, and every code found has the form `xx-IN` |
| Languages.CodesDistinct | src/App.js:356-367 | two different languages of the table never share a locale code |
| Languages.TableSize | src/App.js:356-367 | the table has exactly ten entries |
| History.Prepend | src/App.js:164-174 | the new record is first, followed by the first at most nine old records in their old order; the length is min(old length + 1, 10) |
| History.PrependAllNewestFirst | src/App.js:164-174 | after any run of successful translations the history holds the newest records first, followed by what is left of the earlier history, and its length is min(total, 10) |
| History.KeepsTenMostRecent | src/App.js:173 | from an empty history, after N translations it holds exactly the min(N, 10) most recent ones, newest first |
| ViewModel.InputChanged | src/App.js:66-70 | typing sets the input and a counter equal to its UTF-16 length; nothing else changes |
| ViewModel.SourceSelected | src/App.js:241 | the "From" selector sets the source language only |
| ViewModel.TargetSelected | src/App.js:258 | the "To" selector sets the target language only |
| ViewModel.Swapped | src/App.js:72-79 | with no translation nothing changes; otherwise the languages are exchanged, the input becomes the old translation and the translation becomes empty; nothing else changes |
| ViewModel.Cleared | src/App.js:89-94 | input, translation and error become empty and the counter 0; languages, history, panel, loading and speaking flags are unchanged |
| ViewModel.HistoryToggled | src/App.js:125-127 | the panel flag is negated and nothing else changes |
| ViewModel.HistorySelected | src/App.js:129-135 | the record's original text, translation and both languages are copied into the state and the panel closes; nothing else changes |
| ViewModel.TranslateBegun | src/App.js:137-149 | a blank input sets "Please enter some text to translate" and issues nothing; otherwise equal languages set "Source and target languages are the same" and issue nothing; in both cases nothing else changes; otherwise the error is cleared, loading starts and the request carries the current input, languages, clock and user |
| ViewModel.RecordFor | src/App.js:165-172 | the record holds the issued text and languages, the returned translation, the given id, and the service's timestamp or the current time when it sent none |
| ViewModel.TranslateCompleted | src/App.js:158-183 | loading stops in every outcome; on success the translation is shown, the record is prepended to the at most nine older entries, the clock and user take the service's values or the issued ones, and the error is untouched; a service failure shows its message or "Translation failed"; a transport failure shows "Error connecting to the translation service"; on failure the translation and the history are unchanged |
| ViewModel.SpeechBegun | src/App.js:96-105 | with no translation nothing happens and nothing is sent; otherwise speaking starts and the request carries the translation and the target language's locale |
| ViewModel.SpeechFailure | src/App.js:116-120 | the message after the prefix is the service's message, "Failed to generate speech" when it sent none, or the thrown error's message |
| ViewModel.SpeechCompleted | src/App.js:107-122 | when the service succeeds with audio the state is unchanged and speaking continues; otherwise the error becomes "Text-to-speech error: " followed by the failure message and speaking stops; the translation is never changed |
| ViewModel.PlaybackEnded | src/App.js:110 | the end of playback clears the speaking flag only |
| ViewModel.PlaybackFailed | src/App.js:111-114 | a playback error sets "Failed to play audio" and clears the speaking flag |
| ViewModel.LanguagesFetched | src/App.js:27-37 | a successful response sets the language list, an unsuccessful one changes nothing, a transport failure sets "Failed to fetch supported languages" |
| ViewProperties.ToggleTwiceIsIdentity | src/App.js:125-127 | two toggles leave the state as it was |
| ViewProperties.SelectIdempotent | src/App.js:129-135 | selecting a history entry twice equals selecting it once |
| ViewProperties.SwapTwiceIsSwapOnce | src/App.js:72-79 | a second swap is a no-op |
| ViewProperties.ClearIdempotent | src/App.js:89-94 | clearing twice equals clearing once |
| ViewProperties.SwapThenTranslateGoesBack | src/App.js:72-79 | after a swap, translating sends the old translation from the old target language to the old source language |
| ViewProperties.IssuedAndTranslatedClearsError | src/App.js:148-159 | an issued translation that succeeds leaves the error empty |
| ViewProperties.RecordUsesIssuedValues | src/App.js:152-171 | the record added on success holds the input and languages of the moment the call was issued, whatever the state when it ends |
| ViewProperties.RejectedClickChangesOnlyError | src/App.js:138-146 | a refused click changes only the error, to one of the two validation messages, and leaves the loading flag as it was |
| ViewProperties.BlankReportedBeforeSameLanguage | src/App.js:138-146 | a blank input with equal languages reports the blank input |
| ViewProperties.EveryEventKeepsHistoryBounded | src/App.js:164-174 | no event takes the history above ten records |
| ViewProperties.SpeechCycle | src/App.js:96-123 | after a speech call the translation is unchanged and speaking continues exactly when playback starts; the end or failure of playback stops it |
| ViewProperties.SpeechUsesTargetLocale | src/App.js:102-105 | a speech request for a target language of the table carries that language's `xx-IN` code |
| ViewProperties.CharCountFollowsInput | src/App.js:66-70 | after typing or clearing the counter equals the input's UTF-16 length |
| ViewProperties.ValidationKeepsCharCount | src/App.js:137-149 | choosing languages, toggling the panel and the translate click keep the counter equal to the input's length |
| ViewProperties.CompletionsKeepCharCount | src/App.js:96-123 | translate and speech completions, playback events and the language fetch keep the counter equal to the input's length |
| ViewProperties.SwapLeavesCounterBehind | src/App.js:72-79 | a swap can leave the counter at the old input's length |
| ViewProperties.HelloScenario | src/App.js:137-174 | "Hello" from English to Hindi answered with a translation shows it, leaves one history record, no error and loading off |
| ViewProperties.SameLanguageScenario | src/App.js:143-146 | "Hello" from English to English sends nothing and shows "Source and target languages are the same" |
| ViewProperties.TransportFailureScenario | src/App.js:178-183 | a transport failure shows the connection message, stops loading and keeps the translation and history |
| ViewProperties.SpeechWithoutAudioScenario | src/App.js:107-121 | a successful speech response without audio shows "Text-to-speech error: Failed to generate speech" and stops speaking |
| TranslatorApp.App.constructor | src/App.js:10-23 | the initial state: empty texts, English to Hindi, no languages, flags off, no error, counter 0, empty history, panel closed |
| TranslatorApp.App.HandleInputChange | src/App.js:66-70 | the new state is `InputChanged` of the old one and the history bound holds |
| TranslatorApp.App.SelectSourceLanguage | src/App.js:241 | the new state is `SourceSelected` of the old one |
| TranslatorApp.App.SelectTargetLanguage | src/App.js:258 | the new state is `TargetSelected` of the old one |
| TranslatorApp.App.SwapLanguages | src/App.js:72-79 | the new state is `Swapped` of the old one |
| TranslatorApp.App.ClearAll | src/App.js:89-94 | the new state is `Cleared` of the old one |
| TranslatorApp.App.ToggleHistory | src/App.js:125-127 | the new state is `HistoryToggled` of the old one |
| TranslatorApp.App.SelectFromHistory | src/App.js:129-135 | the new state is `HistorySelected` of the old one |
| TranslatorApp.App.BeginTranslate | src/App.js:137-149 | the new state and the returned request are those of `TranslateBegun` |
| TranslatorApp.App.CompleteTranslate | src/App.js:150-183 | the new state is `TranslateCompleted` of the old one, so loading is off and the history stays at ten records or fewer |
| TranslatorApp.App.BeginSpeak | src/App.js:96-105 | the new state and the returned request are those of `SpeechBegun` |
| TranslatorApp.App.CompleteSpeak | src/App.js:106-122 | the new state is `SpeechCompleted` of the old one, and `playing` tells whether playback begins |
| TranslatorApp.App.OnPlaybackEnded | src/App.js:110 | the new state is `PlaybackEnded` of the old one |
| TranslatorApp.App.OnPlaybackError | src/App.js:111-114 | the new state is `PlaybackFailed` of the old one |
| TranslatorApp.App.CompleteFetchLanguages | src/App.js:27-37 | the new state is `LanguagesFetched` of the old one |

## Left out

- Rendering and JSX (src/App.js:186-352), styles and icons: presentation only. The translate button is disabled while loading or while the input is blank, and the listen button while speaking; these are attributes of the view, and the handlers themselves do not check them, so the model does not either.
- The HTTP calls: their results are the outcome parameters of the completion methods, and the requests are returned values.
- Audio playback: decoding the base64 data and playing it are not modelled. Its end and its error are the events `OnPlaybackEnded` and `OnPlaybackError`. A rejected `play()` promise is not caught by the source and is not modelled.
- `copyToClipboard` and the copied-message flag: they use the browser clipboard and a two-second timer.
- The system-info fetch on mount and the one-minute clock: wall-clock time and a cosmetic header. The clock and user strings are still fields, because a successful translation writes them.
- `Date.now()` record ids and the ISO timestamp fallback: they are the parameters `id` and `now`.
- The `maxLength` of the text area: a DOM attribute that no handler enforces.
- Languages.LanguageCode: a language name that is also a property the table object inherits from `Object.prototype` (such as `toString` or `__proto__`) would look up that property instead of `undefined`; the model treats every name outside the table as absent.
- JavaScript strings may hold lone surrogates; the model's strings are sequences of Unicode scalar values.
- ViewModel.TranslateCompleted: a success response without `translated_text` would store `undefined`; the model takes the translation to be a string.
- ViewModel.LanguagesFetched: a successful response without a `languages` field is taken to carry a list.
- The chat front end: it is not part of this model.
