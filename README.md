# Pager: a Dafny model

Pager listens to a meeting and pages its user when they are called on. A Flask server
(`flask_app/app.py`) runs a background detection thread. The thread records five seconds
of audio and has it transcribed. It appends the lower-cased, stripped text to a running
transcript and checks it for the user's wake words. For every wake word it hears, it
phones the user through Twilio and asks Google Gemini to summarise the meeting so far.
The routes of the server change the settings (phone number, comma-separated wake words),
save the API keys to a `.env` file, start and stop the thread, and return the log.

Beside the server sit:

- a Tkinter form for Twilio credentials, which validates them, saves them to an INI file
  and places a test call (`twilio_gui_component.py`);
- the Gemini client, which looks for an API key in JSON, INI or text files, falls back to
  `GOOGLE_API_KEY` and sends the prompt (`Components/gemini_component.py`);
- two versions of the Twilio call function. The newer one takes the credentials as
  arguments (`Components/call_component.py`). The older one reads them from a
  configuration file (`Components/make_call_component.py`).

The model is split into modules that follow the files:

| module | file | role |
|---|---|---|
| `Wrappers` | `wrappers.dfy` | `Option`, and `Outcome` (a value returned or an exception raised) |
| `Text` | `text.dfy` | the Python string operations used by the program: `strip`, `lower` (ASCII), `in`, `split`, `join` |
| `IniConfig` | `ini.dfy` | what `configparser` shows of a parsed file: sections, the `DEFAULT` section inherited by every other section, option names compared in lower case, the `%` interpolation applied when a value is read and the check applied when one is stored |
| `CallComponent` | `call_component.dfy` | the placeholder guards, the TwiML and the call request |
| `MakeCallComponent` | `make_call_component.dfy` | the same call, with its settings read from the configuration file |
| `GeminiKeys` | `gemini.dfy` | the key search over files, the key choice, the prompt |
| `TwilioGuiComponent` | `twilio_gui.dfy` | validation, the saved file, loading, and the form as a class |
| `FlaskApp` | `flask_app.dfy` | settings, `.env` content, one turn of the detection loop, the shared server state as a value and as a class |

The outside world enters in three ways:

- **Oracle arguments.** Recording and transcription, the Twilio call and the Gemini call
  are arguments whose answers are given. `CycleInput` gives what one turn of the loop
  hears and what each call returns or raises. `create` stands for Twilio's
  `calls.create`, and `generate` for Gemini's `generate_content`.
- **Parameters.** The file system is a parameter: a map from path to text, or to `None`
  when the file cannot be read. So are the JSON and INI parsers, and whether a write
  fails.
- **Requests.** The Flask server returns the requests a turn makes (`PhoneCall`,
  `Summary`), in order, so that properties can be stated about them.

The detection thread has no threads in the model. It is a program counter in the server
state: the thread is alive, and it has or has not entered its `while` loop.
`ThreadStep` runs one step of `detection_loop`:

- its first log line;
- the flag test and exit;
- one turn of the loop.

The route handlers are methods of the same `Detector` object.

Behaviour of the code a reader might not expect, which the model keeps:

- every wake word in the text fires;
- duplicate wake words are kept;
- the transcript is never cleared, not even by a new start;
- the newer call component never reads its configuration file for the values it uses;
- a stop logs both "Stopping detection thread..." and, at the thread's next step,
  "Detection stopped.".

## Model

| member | source | states |
|---|---|---|
| Text.Strip | flask_app/app.py:226 | `str.strip()` leaves no whitespace at either end and never lengthens the text; `Text.StripIsSlice` shows it is a slice of the input |
| Text.TrimLeftFacts | flask_app/app.py:143 | the leading-whitespace part of `strip()` keeps a suffix that does not start with whitespace, and drops only whitespace |
| Text.TrimRightFacts | flask_app/app.py:143 | the trailing-whitespace part of `strip()` keeps a prefix that does not end with whitespace, and drops only whitespace |
| Text.StripIsSlice | flask_app/app.py:143 | the stripped text is a contiguous slice of the original |
| Text.StripIdempotent | twilio_gui_component.py:153-171 | stripping twice is stripping once |
| Text.StripKeepsAbsent | flask_app/app.py:226 | stripping never introduces a character that was not there |
| Text.Lower | flask_app/app.py:143 | lower-casing keeps the length and maps each ASCII capital to its small letter, leaving every other character |
| Text.LowerIsLower | flask_app/app.py:149 | the result of lower-casing has no capital left |
| Text.LowerOfLower | flask_app/app.py:149 | lower-casing lower-case text changes nothing |
| Text.ContainsIff | flask_app/app.py:149 | `sub in s` holds exactly when `sub` starts at some position of `s` |
| Text.Split | flask_app/app.py:226 | `str.split(sep)` gives at least one piece |
| Text.SplitAvoidsSeparator | flask_app/app.py:226 | no piece of a split holds the separator |
| Text.JoinSplit | flask_app/app.py:226 | joining the pieces of a split with the separator gives back the text |
| Text.SplitJoin | flask_app/app.py:184 | splitting a join of separator-free pieces gives back the pieces |
| Text.JoinContainsPart | flask_app/app.py:158 | every part shows up in the joined text |
| IniConfig.RawGet | Components/make_call_component.py:20-23 | the stored value of an option is the section's value for the lower-cased option name, or the `DEFAULT` section's value when the section lacks it |
| IniConfig.Get | Components/make_call_component.py:20-23 | `config[section][key]` returns a value without `%` exactly as stored; any other value goes through `Interpolate`, which expands `%%` and `%(name)s` and raises the interpolation errors |
| IniConfig.GetOr | twilio_gui_component.py:102-113 | `config[section].get(key, fallback)` reads the option through interpolation when it exists, and gives the fallback, uninterpolated, otherwise |
| IniConfig.PlainValueUnchanged | Components/make_call_component.py:20-23 | text without `%` comes through interpolation unchanged |
| IniConfig.SetError | twilio_gui_component.py:129-138 | storing a value raises `ValueError` exactly when a `%` is left once the `%%` escapes and the `%(name)s` references are removed |
| IniConfig.NoReferenceReadsUnescaped | twilio_gui_component.py:102-113 | for text without `(`, interpolation succeeds exactly when storing the text is accepted, and then it halves every `%%` |
| IniConfig.GetWithoutReference | twilio_gui_component.py:102-113 | an option of a parsed file whose value holds no `(`, or no `%`, reads without error exactly when storing that value is accepted, and then reads with every `%%` halved |
| IniConfig.EscapeRoundTrip | twilio_gui_component.py:129-138 | text with every `%` doubled is accepted when stored and reads back as the original text |
| IniConfig.TrailingPercentFails | twilio_gui_component.py:102 | a value whose only `%` is its last character fails to interpolate |
| IniConfig.TrailingPercentRaises | twilio_gui_component.py:102 | reading an option whose value has its only `%` at the end raises |
| IniConfig.TwoOptionSection | twilio_gui_component.py:129-138 | a section written with two distinct lower-case options holds both, with their values |
| CallComponent.TwimlRecoversMessage | Components/call_component.py:49-54 | the TwiML begins with the XML declaration and `<Response><Say>` head, ends with the pause and goodbye, and holds the message unchanged in between |
| CallComponent.TwimlInjective | Components/call_component.py:49-54 | different messages give different TwiML documents |
| CallComponent.Dial | Components/call_component.py:31-70 | Twilio is contacted exactly when neither the credential guard (equality with the sample SID or token) nor the phone guard (the sample numbers as substrings) fires. The request carries the numbers and the TwiML of the message. The result is true exactly when `calls.create` returned |
| CallComponent.MakePhoneCall | Components/call_component.py:7-28 | the arguments are used as given, and a missing message is the default greeting |
| CallComponent.PlaceholdersNeverCall | Components/call_component.py:31-38 | a sample SID, token or number blocks the call whatever Twilio would answer |
| MakeCallComponent.Setting | Components/make_call_component.py:20-23 | a read is a `KeyError` exactly when the section or option is missing, and otherwise reads the option through interpolation |
| MakeCallComponent.ReadInOrder | Components/make_call_component.py:19-37 | the reads run in order and stop at the first one that does not return: a `KeyError` there is caught, an interpolation error there escapes; when all return, their values are kept in order |
| MakeCallComponent.MakePhoneCall | Components/make_call_component.py:7-65 | a missing file, or a missing setting met before any read raised, gives false without a request; the interpolation error of the first read that raises one escapes; when all four reads return, it behaves as `Dial` on their values |
| MakeCallComponent.MissingSettingNoCall | Components/make_call_component.py:19-37 | a file lacking one of the four settings, whose present settings read without error, never leads to a call |
| MakeCallComponent.AgreesWithCallComponent | Components/make_call_component.py:15-65 | on a complete file whose values read without error, the older component and the newer one handed those values give the same request and result |
| MakeCallComponent.CallNeedsCompleteFile | Components/make_call_component.py:9-37 | a call is only placed from a file holding all four settings, each read without error, to its `my_phone`, from its `twilio_phone` |
| MakeCallComponent.DialsSavedGuiFile | Components/make_call_component.py:15-65 | the file the GUI saves, found at this component's path, places the call with the stripped form, each `%%` halved, when no field holds a line break or a possible `%(name)s` reference (a field with both `%` and `(`) |
| GeminiKeys.FirstKeyIff | Components/gemini_component.py:53-55 | the search over key names finds nothing exactly when no name is in the object; when one is, the first name present wins |
| GeminiKeys.TopLevelKeyWins | Components/gemini_component.py:53-55 | a top-level key name wins over every nested section |
| GeminiKeys.NestedKeyNeedsNoTopLevelKey | Components/gemini_component.py:53-61 | a key is taken from a nested section only when none of the five top-level names is present |
| GeminiKeys.JsonFileKey | Components/gemini_component.py:49-61 | the two loops of the JSON branch return what `JsonKey` specifies: top-level names first, then the `google`, `gemini`, `api` sections that are objects, and nothing for a document that is not an object |
| GeminiKeys.IniOptionKeyIff | Components/gemini_component.py:69-71 | a section yields nothing exactly when it holds none of the key names; otherwise the first name it holds is read, through interpolation |
| GeminiKeys.SectionKeyIff | Components/gemini_component.py:57-61 | the nested search yields nothing exactly when none of `google`, `gemini`, `api` is an object holding a key name; otherwise the first key name of the first such section |
| GeminiKeys.IniSectionKeyIff | Components/gemini_component.py:67-71 | a file yields nothing exactly when no section is present and holding a key name; otherwise the read is in the first such section |
| GeminiKeys.DefaultInheritedByApiSection | Components/gemini_component.py:67-71 | an `api_key` in `DEFAULT` is read through the `api` section when that section lacks one, and comes back as stored when it holds no `%` |
| GeminiKeys.IniOptionSearch | Components/gemini_component.py:69-71 | the inner loop of the INI branch reads the first present option of a section, as `IniOptionKey` specifies |
| GeminiKeys.IniSectionSearch | Components/gemini_component.py:67-71 | the outer loop of the INI branch reads the first section's first option, in the order `api`, `google`, `gemini`, `credentials`, `DEFAULT` |
| GeminiKeys.IniFileKey | Components/gemini_component.py:63-81 | an INI file yields the first option found when it reads without error, and nothing when reading it raises (the `except` moves on to the next file) |
| GeminiKeys.IniFileWithoutKey | Components/gemini_component.py:63-81 | an INI file in which no searched section holds a searched key yields nothing |
| GeminiKeys.AfterLast | Components/gemini_component.py:41-46 | the text after the last separator is no longer than the input and holds no separator |
| GeminiKeys.FinalComponent | Components/gemini_component.py:41 | the final path component is the name after the directory |
| GeminiKeys.SuffixOfName | Components/gemini_component.py:46 | `Path.suffix` of `dir/stem.ext` is `.ext` |
| GeminiKeys.LowerSuffixOfName | Components/gemini_component.py:46 | the lower-cased suffix of a name with a lower-case extension is that extension |
| GeminiKeys.DefaultSuffixes | Components/gemini_component.py:25-32 | the six default files are three JSON files, two INI files and one text file, by suffix |
| GeminiKeys.FirstYieldWins | Components/gemini_component.py:40-81 | over any list, the search returns what the first item that yields something yields, every earlier item yielding nothing; it fails exactly when no item yields |
| GeminiKeys.SearchFilesFirstWins | Components/gemini_component.py:40-86 | the file loop returns the key of the first file that yields one, every earlier file yielding nothing; it fails exactly when no file yields a key |
| GeminiKeys.FilesToTry | Components/gemini_component.py:35-38 | a non-empty `config_file` is the only file tried; otherwise the six defaults are tried |
| GeminiKeys.ExplicitFileOnly | Components/gemini_component.py:35-86 | with an explicit file, the result depends on that file alone |
| GeminiKeys.ReadFileKey | Components/gemini_component.py:42-81 | reading one file gives what `FileKey` specifies: nothing for a missing, unreadable or unparsable file or for an INI key whose reading raises, otherwise the key of its JSON, INI or stripped text content |
| GeminiKeys.LoadApiKey | Components/gemini_component.py:8-86 | the loop over files returns the first key found, or raises the not-found error, as `LoadApiKeySpec` specifies |
| GeminiKeys.ChooseApiKey | Components/gemini_component.py:121-131 | a non-empty explicit key wins; then a key loaded from the files; then a non-empty `GOOGLE_API_KEY`; else the missing-key error |
| GeminiKeys.KeyHasASource | Components/gemini_component.py:121-131 | the choice fails exactly when all three sources are empty, and otherwise returns one of them |
| GeminiKeys.PromptGemini | Components/gemini_component.py:88-158 | a failed key choice is re-raised unchanged; otherwise the model's answer is returned, or its error re-raised with the prefix "Error calling Gemini API: " |
| TwilioGuiComponent.FirstInvalid | twilio_gui_component.py:150-181 | each refusal happens exactly when its check is the first one to fail, in the order SID, token, your number, Twilio number, then the two `+` prefixes |
| TwilioGuiComponent.ValidateInput | twilio_gui_component.py:150-181 | the form is accepted exactly when the stripped SID and token are non-empty and both stripped numbers start with `+` |
| TwilioGuiComponent.ValidationIgnoresPadding | twilio_gui_component.py:153-171 | a form and its stripped copy are refused for the same reason |
| TwilioGuiComponent.StoreError | twilio_gui_component.py:129-138 | storing the form raises exactly when a stripped field is refused, with the error of the first refused field in the order SID, token, your number, Twilio number |
| TwilioGuiComponent.FillStopsAtFirstError | twilio_gui_component.py:98-117 | the `delete`-then-`insert` steps: entries before the first read that raises hold what was read, or keep their text when their section is absent; that entry is left empty; later entries are untouched; loading succeeds exactly when no read raises |
| TwilioGuiComponent.LoadStopsAtFirstError | twilio_gui_component.py:98-117 | the same for the four reads of `load_config` on a parsed file |
| TwilioGuiComponent.FirstReadRaises | twilio_gui_component.py:100-117 | when reading the SID raises, loading empties the SID entry, leaves the others and reports that exception |
| TwilioGuiComponent.SavedFileHasCallSettings | twilio_gui_component.py:126-143 | the saved file holds the four settings the older call component reads, stored as the stripped values of the form, for fields without a line break |
| TwilioGuiComponent.SavedSettingsReadBack | twilio_gui_component.py:102-138 | each saved setting without a line break and without both `%` and `(`, that was accepted when stored reads back with every `%%` halved |
| TwilioGuiComponent.LoadedFieldsOfSaved | twilio_gui_component.py:98-138 | loading the saved file fills all four entries with the stored values, each `%%` halved, without error, whatever the entries held before, for fields without a line break and without both `%` and `(` |
| TwilioGuiComponent.SaveThenLoad | twilio_gui_component.py:92-143 | loading what was saved reports success and gives back the stripped form with every `%%` halved, and exactly the stripped form when no field holds `%`; stated for fields without a line break and without both `%` and `(`, so parenthesised phone numbers are covered |
| TwilioGuiComponent.StrayPercentStopsSave | twilio_gui_component.py:129-132 | a valid form whose stripped SID ends in its only `%` makes the save raise and leaves the window as it was |
| TwilioGuiComponent.StrayPercentStopsLoad | twilio_gui_component.py:98-117 | a stored SID ending in its only `%` (such as `50%`) makes loading fail with the SID entry already emptied, the others untouched, and the exception in the status |
| TwilioGuiComponent.CallStatus | twilio_gui_component.py:206-214 | the status after the call function answered: success, failure, or the exception text |
| TwilioGuiComponent.StripAppendSpace | twilio_gui_component.py:190 | the newline the text widget appends never survives `strip()` |
| TwilioGuiComponent.Load | twilio_gui_component.py:92-117 | without a file nothing changes; with one, the entries are what the reads filled in and the status is the success line, or the failure line with the exception of the read that raised; the message and the file are never touched |
| TwilioGuiComponent.Save | twilio_gui_component.py:119-148 | the save returns true exactly when the form is valid, every stripped field is accepted when stored, and the write succeeds. It raises exactly when the form is valid and a field is refused, and then nothing changes. A refused form changes nothing. A failed write changes only the status. A success writes the stripped form and never changes the entries or the message |
| TwilioGuiComponent.Call | twilio_gui_component.py:183-215 | the call function is called exactly once, with the stripped message, exactly when the save succeeds, the message is not empty and a function is attached. An exception from the save escapes with the window unchanged. A failed save, or a successful one with an empty message, leaves the window as the save left it |
| TwilioGuiComponent.TwilioGui.constructor | twilio_gui_component.py:7-90 | a new window has empty entries, the default message, no status, and has then loaded the file on disk |
| TwilioGuiComponent.TwilioGui.LoadConfig | twilio_gui_component.py:92-117 | the fields become what `Load` gives |
| TwilioGuiComponent.TwilioGui.SaveCredentials | twilio_gui_component.py:119-148 | the fields and the result are what `Save` gives |
| TwilioGuiComponent.TwilioGui.MakeCall | twilio_gui_component.py:183-215 | the fields and the message passed to the call function are what `Call` gives |
| FlaskApp.CleanPiecesStripped | flask_app/app.py:226 | the kept pieces are never more than the pieces, and each is non-empty and stripped |
| FlaskApp.CleanPiecesAvoid | flask_app/app.py:226 | dropping and stripping pieces introduces no new character |
| FlaskApp.ParsedWakeWordsAreClean | flask_app/app.py:225-226 | every parsed wake word is non-empty, stripped and free of commas |
| FlaskApp.DisplayedWakeWordsParseBack | flask_app/app.py:184-226 | the list shown on the page, saved back unchanged, gives the same wake words |
| FlaskApp.DefaultWakeWordsAreClean | flask_app/app.py:48 | the default wake words survive that round trip |
| FlaskApp.KeysOf | flask_app/app.py:201-205 | every key is the form's value, or `""` when the form lacks it |
| FlaskApp.EnvFileLines | flask_app/app.py:120-125 | the `.env` file is exactly the five `NAME=value` lines, each ended by a newline, when no value holds a newline |
| FlaskApp.SplitLines | flask_app/app.py:120-125 | newline-ended lines split back into the lines and a final empty piece |
| FlaskApp.PromptHoldsEveryUtterance | flask_app/app.py:158-160 | the summary prompt holds every utterance of the transcript |
| FlaskApp.Normalize | flask_app/app.py:143 | the stored utterance is stripped and lower-case |
| FlaskApp.Matching | flask_app/app.py:148-149 | the matching positions are positions of the list |
| FlaskApp.FireIffMatch | flask_app/app.py:149-163 | a wake word does nothing exactly when its lower-cased form is not in the text; when it is, the word fires at its own position and its first line is the detection line |
| FlaskApp.ScanFiresMatchingWords | flask_app/app.py:148-166 | without an exception, exactly the matching words fire, in list order; an exception stops the loop at a matching word, after the earlier matching words |
| FlaskApp.ExpectedRequests | flask_app/app.py:151-162 | `n` firings make `2n` requests, alternating call and summary |
| FlaskApp.ScanWithoutError | flask_app/app.py:148-163 | without an exception, the log is the detection, call-sent and response lines of each matching word, and the requests alternate call and summary |
| FlaskApp.CallResultIgnored | flask_app/app.py:151-157 | the loop does the same whatever value `make_phone_call` returns, true or false |
| FlaskApp.WiredCallIgnored | flask_app/app.py:151-156 | with the newer call component wired in, the loop runs as if every call had returned true, whatever Twilio answers |
| FlaskApp.ScanLogHasNoErrorLine | flask_app/app.py:148-163 | the wake-word loop itself never logs an error line |
| FlaskApp.HeardSpec | flask_app/app.py:143-166 | once the text is in, the turn appends exactly that text to the transcript and logs it first |
| FlaskApp.CycleSpec | flask_app/app.py:141-166 | a failed recording or transcription logs only the error and leaves the transcript alone; otherwise one normalised utterance is appended and logged first |
| FlaskApp.ErrorOnlyLast | flask_app/app.py:145-166 | a log made of a first line, the loop's lines and an error line for an exception has an error line only at its end |
| FlaskApp.CycleReportsErrorLast | flask_app/app.py:141-166 | a turn logs an error exactly when an exception ended it, as its last line and only there |
| FlaskApp.Initial | flask_app/app.py:48-62 | the server starts with an empty log and transcript, with no thread, and in a valid state |
| FlaskApp.SettingsUpdated | flask_app/app.py:218-227 | the phone number and wake words become the form's values, with `""` for a missing field. Nothing else changes |
| FlaskApp.SettingsUpdatedKeepsValid | flask_app/app.py:224-226 | new settings keep the state valid, because the parsed wake words are clean |
| FlaskApp.UnchangedFormKeepsSettings | flask_app/app.py:181-227 | posting back the settings the page shows changes nothing |
| FlaskApp.KeysSaved | flask_app/app.py:193-215 | the keys become the form's values even when the write fails; on success the `.env` content of the new keys is written and one line logged. Validity is kept |
| FlaskApp.Started | flask_app/app.py:229-238 | with a thread alive nothing changes; otherwise a new thread with a cleared flag is started and logged. Validity is kept |
| FlaskApp.Stopped | flask_app/app.py:240-246 | the flag is raised and the request logged, whether or not a thread runs |
| FlaskApp.ThreadStepped | flask_app/app.py:132-171 | the thread's next step: nothing when dead; the start line on entry; the stopped line and exit when the flag is up; otherwise one turn |
| FlaskApp.ThreadStepKeepsValid | flask_app/app.py:132-171 | every step of the thread keeps a normalised transcript and a loop that only runs while the thread lives |
| FlaskApp.StepsOnlyAppendToLog | flask_app/app.py:67-73 | no route and no step of the thread removes or rewrites a log line |
| FlaskApp.TranscriptOnlyGrows | flask_app/app.py:143-144 | a step appends at most one utterance, exactly one when a turn's transcription succeeds; start and stop never touch the transcript |
| FlaskApp.StopEndsThreadAtNextStep | flask_app/app.py:140-171 | after a stop, a running thread ends at its next step, logging the stop request and then "Detection stopped."; a start before that step is lost |
| FlaskApp.StartIdempotent | flask_app/app.py:233 | a second start changes nothing |
| FlaskApp.Detector.constructor | flask_app/app.py:48-62 | the fields are the initial server state |
| FlaskApp.Detector.LogMessage | flask_app/app.py:67-73 | the message is appended to the log and nothing else changes |
| FlaskApp.Detector.GetLogs | flask_app/app.py:248-254 | the route returns the whole log |
| FlaskApp.Detector.UpdateSettings | flask_app/app.py:218-227 | the new state is `SettingsUpdated` |
| FlaskApp.Detector.SaveApiKeys | flask_app/app.py:193-215 | the new state and the file written are `KeysSaved` |
| FlaskApp.Detector.StartDetection | flask_app/app.py:229-238 | the new state is `Started` |
| FlaskApp.Detector.StopDetection | flask_app/app.py:240-246 | the new state is `Stopped` |
| FlaskApp.Detector.FireWord | flask_app/app.py:149-163 | one wake word appends the lines `Fire` gives |
| FlaskApp.Detector.ScanWords | flask_app/app.py:148-163 | the loop over wake words appends the log of `ScanFrom` and returns its requests and exception |
| FlaskApp.Detector.Heard | flask_app/app.py:143-166 | the rest of a turn appends to the transcript and the log what `HeardSpec` gives and returns its requests |
| FlaskApp.Detector.Cycle | flask_app/app.py:141-169 | a turn changes only the transcript and the log, to what `CycleSpec` gives, and returns its requests |
| FlaskApp.Detector.ThreadStep | flask_app/app.py:132-171 | the new state and the requests are those of `ThreadStepped` |

## Left out

- Audio capture (PyAudio, the BlackHole device search, the WAV file), the Whisper
  transcription, Twilio's REST client and the Gemini SDK are outside the model. Their
  answers are oracle arguments.
- Threads, `time.sleep` and the race between the handler and the new thread are not
  modelled. The thread's steps are interleaved explicitly with the route calls, one at a
  time. The model lets `start_detection` log "Detection thread started." before the
  thread's own "Detection started..." line, which is one of the orders the race allows.
- `Text.Lower` folds ASCII capitals only. Python's `str.lower` also folds other scripts.
- `save_api_keys` builds a new OpenAI client in a local variable (`flask_app/app.py:211`),
  so the transcription client keeps its old key. The model has no transcription client.
- The `.env` path computed from `__file__` is a parameter of `KeysSaved`. A failed
  `open` raises and the route fails, with the keys already updated. The model keeps the
  updated keys and logs nothing. A write that fails after `open` has truncated `.env`
  leaves an empty or partial file; the model keeps the old content when the write fails.
- `prompt_gemini`'s model name, the float generation settings, the safety settings and
  any failure of `genai.configure` or the model constructor are not modelled. Only the
  `generate_content` call is an oracle.
- Both call components build the Twilio `Client` outside their `try`
  (`Components/call_component.py:45`, `Components/make_call_component.py:40`), so a
  failing constructor raises to the caller. In `CallComponent.Dial`, which both
  components use, only `calls.create` can fail. In the
  Flask loop such an exception is part of the `callAt` oracle, which `WiredCallIgnored`
  does not cover.
- `None` phone numbers given to the newer `make_phone_call` raise a `TypeError` at the
  `in` test (`Components/call_component.py:36`). A `None` SID or token passes the guards
  and reaches `Client(None, ...)` at line 45, the constructor left out above. The model
  takes strings, as the Flask server always passes them.
- Files that `configparser` cannot parse: `config.read` raises for a malformed file in
  `load_config`, in the older call component, and in the newer
  `CallComponent.MakePhoneCall`, which reads `Components/twilio_config.ignore` whenever
  an argument is empty (`Components/call_component.py:15-17`) although it never uses the
  values. The model takes every file as already parsed and the newer component as never
  reading. In the Gemini key search a parse failure is the `None` answer of `parseIni`,
  which moves on to the next file, as the source's `except` does.
- The GUI writes `twilio_config.ignore` in the working directory
  (`twilio_gui_component.py:142`). The older call component reads
  `Components/twilio_config.ignore` (`Components/make_call_component.py:9,16`). The two
  are the same file only when the GUI ran inside `Components/` and the component runs
  one directory above it. `DialsSavedGuiFile` assumes that they are.
- The exception texts of `configparser` show values with Python's `repr`. The model
  writes the text between single quotes, which agrees with `repr` only for text without
  quotes, backslashes or unprintable characters.
- A write that fails after `open` has truncated the file leaves an empty or partial
  `twilio_config.ignore`. The model keeps the old file when `writeError` is given.
- TwilioGuiComponent.Save: the written file is taken to read back as exactly
  `CredentialsIni`, the stripped values. `config.write` writes a `\n` in a value as a
  continuation line, which is stripped (or dropped, when it starts with `#`) on reading,
  and a `\r` ends the line so that `config.read` raises. So `SavedFileHasCallSettings`,
  `SavedSettingsReadBack`, `LoadedFieldsOfSaved`, `SaveThenLoad` and `DialsSavedGuiFile`
  require that no stripped field holds a line break (`SingleLine`).
- TwilioGuiComponent.SaveThenLoad, TwilioGuiComponent.SavedSettingsReadBack,
  TwilioGuiComponent.LoadedFieldsOfSaved, MakeCallComponent.DialsSavedGuiFile: stated
  for fields that are each without `(` or without `%` (`Unreferenced`). A field holding
  both may hold a `%(name)s` reference to one of the stored options, which reads back
  expanded; only `IniConfig.Interpolate` describes that case.
- A failure of the existence check in the Gemini key search is not modelled.
  `file_path.exists()` runs outside the `try` (`Components/gemini_component.py:42`). On
  Python 3.12 it raises any `OSError` other than a missing or unreachable path, such as
  a `PermissionError` from a directory that cannot be searched. That error escapes
  `load_api_key`, and `prompt_gemini` does not catch it (:125). In the model a file that
  cannot be read is `None` and the search always moves on to the next file.
- The Tkinter layout, colours and message boxes are not modelled.
- The call function handed to the GUI may return any value. The model takes its
  truthiness as a boolean.
- The `__main__` blocks (the audio device log, the port 5000/8080 fallback, the demo
  GUI, the sample calls), `record_audio`, `transcribe` and `main.py` are not modelled.
  The template `index` renders is not modelled; its data are covered by
  `DisplayWakeWords` and `SettingsForm`.
- TwilioGuiComponent.CallStatus: states the three statuses as implications, one per
  outcome, rather than as a single characterisation.
- GeminiKeys.AfterLast: only its length bound and the absence of the separator are
  stated on the function. That it is the text after the last separator is stated by
  `AfterLastNone` and `AfterLastSplit`. `Path.suffix` is modelled on the final component
  after the last `/`, with the rules of current Python versions.
