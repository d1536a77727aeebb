/** `flask_app/app.py`: the web front end and the wake-word detection loop.

    The module-level state of the app (the wake words, the phone number, the API keys,
    the transcript, the log and the stop flag) is the class `Detector`. Recording,
    Whisper transcription, the Twilio call and the Gemini request are outside the
    model: what each of them answers in one cycle is a `CycleInput`, and the calls the
    cycle makes are returned as `Request` values. */
module FlaskApp {
  import opened Wrappers
  import opened Text
  import CallComponent

  // ---------------------------------------------------------------- settings

  const DefaultWakeWords: seq<string> := ["justin", "mohammad", "data lake 2.0"]

  /** A wake word as the settings parser produces it. */
  predicate CleanWord(w: string) {
    w != "" && IsStripped(w) && ',' !in w
  }

  /** `[w.strip() for w in pieces if w.strip()]`: the stripped pieces that are not
      empty, in order. */
  function CleanPieces(pieces: seq<string>): seq<string>
    decreases |pieces|
  {
    if pieces == [] then []
    else (if Strip(pieces[0]) != "" then [Strip(pieces[0])] else []) + CleanPieces(pieces[1..])
  }

  /** Cleaning keeps only non-empty stripped pieces, never more than there were. */
  lemma {:induction false} CleanPiecesStripped(pieces: seq<string>)
    ensures |CleanPieces(pieces)| <= |pieces|
    ensures forall k :: 0 <= k < |CleanPieces(pieces)| ==> CleanPieces(pieces)[k] != "" && IsStripped(CleanPieces(pieces)[k])
    decreases |pieces|
  {
    if pieces != [] {
      CleanPiecesStripped(pieces[1..]);
      var head := if Strip(pieces[0]) != "" then [Strip(pieces[0])] else [];
      var rest := CleanPieces(pieces[1..]);
      assert CleanPieces(pieces) == head + rest;
      forall k | 0 <= k < |head + rest|
        ensures (head + rest)[k] != "" && IsStripped((head + rest)[k])
      {
        if k >= |head| {
          assert (head + rest)[k] == rest[k - |head|];
        }
      }
    }
  }

  /** A character no piece holds is held by no cleaned piece. */
  lemma {:induction false} CleanPiecesAvoid(pieces: seq<string>, c: char)
    requires forall k :: 0 <= k < |pieces| ==> c !in pieces[k]
    ensures forall k :: 0 <= k < |CleanPieces(pieces)| ==> c !in CleanPieces(pieces)[k]
    decreases |pieces|
  {
    if pieces != [] {
      StripKeepsAbsent(pieces[0], c);
      CleanPiecesAvoid(pieces[1..], c);
    }
  }

  /** The wake-word list `update_settings` builds from the form's comma-separated
      value. */
  function ParseWakeWords(words: string): seq<string> {
    CleanPieces(Split(words, ','))
  }

  /** Every parsed wake word is non-empty, stripped and free of commas. */
  lemma ParsedWakeWordsAreClean(words: string)
    ensures forall k :: 0 <= k < |ParseWakeWords(words)| ==> CleanWord(ParseWakeWords(words)[k])
  {
    var pieces := Split(words, ',');
    SplitAvoidsSeparator(words, ',');
    CleanPiecesStripped(pieces);
    CleanPiecesAvoid(pieces, ',');
  }

  /** What the index page shows in the wake-word field: `", ".join(wake_words)`. */
  function DisplayWakeWords(ws: seq<string>): string {
    Join(ws, ", ")
  }

  /** Each word with the space that follows the comma before it. */
  function Pad(ws: seq<string>): (r: seq<string>)
    ensures |r| == |ws|
    ensures forall k :: 0 <= k < |ws| ==> r[k] == " " + ws[k]
    decreases |ws|
  {
    if ws == [] then [] else [" " + ws[0]] + Pad(ws[1..])
  }

  lemma {:induction false} JoinPad(ws: seq<string>)
    requires |ws| >= 1
    ensures Join(Pad(ws), ",") == " " + Join(ws, ", ")
    decreases |ws|
  {
    if |ws| > 1 {
      JoinPad(ws[1..]);
      assert Pad(ws)[1..] == Pad(ws[1..]);
      assert ", " == "," + " ";
    }
  }

  /** `", ".join(ws)` split at the commas gives the words, each after the first with a
      leading space. */
  lemma DisplayedPieces(ws: seq<string>)
    requires |ws| >= 1
    ensures DisplayWakeWords(ws) == Join([ws[0]] + Pad(ws[1..]), ",")
  {
    if |ws| > 1 {
      JoinPad(ws[1..]);
      assert ([ws[0]] + Pad(ws[1..]))[1..] == Pad(ws[1..]);
      assert ", " == "," + " ";
    }
  }

  /** A wake word after the space of `", "` strips back to itself. */
  lemma PaddedWord(w: string)
    requires CleanWord(w)
    ensures Strip(" " + w) == w
  {
    StripLeadingSpace(' ', w);
    StripOfStripped(w);
    assert " " + w == [' '] + w;
  }

  lemma {:induction false} CleanPad(ws: seq<string>)
    requires forall k :: 0 <= k < |ws| ==> CleanWord(ws[k])
    ensures CleanPieces(Pad(ws)) == ws
    decreases |ws|
  {
    if ws != [] {
      var p := Pad(ws);
      PaddedWord(ws[0]);
      assert p == [" " + ws[0]] + Pad(ws[1..]);
      assert p[1..] == Pad(ws[1..]);
      assert forall k :: 0 <= k < |ws[1..]| ==> ws[1..][k] == ws[k + 1];
      CleanPad(ws[1..]);
      assert CleanPieces(p) == [ws[0]] + CleanPieces(p[1..]);
      assert [ws[0]] + ws[1..] == ws;
    }
  }

  /** Submitting the settings form as the index page fills it in gives back the same
      wake words, in the same order and with duplicates kept. */
  lemma DisplayedWakeWordsParseBack(ws: seq<string>)
    requires forall k :: 0 <= k < |ws| ==> CleanWord(ws[k])
    ensures ParseWakeWords(DisplayWakeWords(ws)) == ws
  {
    if ws == [] {
      assert Split("", ',') == [""];
      assert CleanPieces([""]) == [] by {
        assert Strip("") == "";
        assert [""][1..] == [];
      }
    } else {
      var pieces := [ws[0]] + Pad(ws[1..]);
      DisplayedPieces(ws);
      SplitJoin(pieces, ',');
      CleanPad(ws[1..]);
      StripOfStripped(ws[0]);
      assert pieces[1..] == Pad(ws[1..]);
      assert [ws[0]] + ws[1..] == ws;
    }
  }

  /** The default wake words are clean, so they survive a round trip through the form. */
  lemma DefaultWakeWordsAreClean()
    ensures forall k :: 0 <= k < |DefaultWakeWords| ==> CleanWord(DefaultWakeWords[k])
  {
    assert CleanWord(DefaultWakeWords[0]);
    assert CleanWord(DefaultWakeWords[1]);
    assert CleanWord(DefaultWakeWords[2]);
  }

  // ---------------------------------------------------------------- API keys

  datatype ApiKeys = ApiKeys(openai: string, twilioSid: string, twilioToken: string,
                             twilioPhone: string, gemini: string)

  /** A text field a handler reads with `.get(name, "")`: `None` when it is absent. */
  function OrEmpty(field: Option<string>): (v: string)
    ensures field.Some? ==> v == field.value
    ensures field.None? ==> v == ""
  {
    if field.Some? then field.value else ""
  }

  /** The five key sources: the environment variables `OPENAI_API_KEY`, `TWILIO_SID`,
      `TWILIO_TOKEN`, `TWILIO_PHONE` and `GEMINI_API_KEY` at start-up, or the form fields
      `openai_api_key`, `twilio_sid`, `twilio_token`, `twilio_phone` and `gemini_api_key`
      of `save_api_keys`. */
  datatype KeyFields = KeyFields(openai: Option<string>, twilioSid: Option<string>, twilioToken: Option<string>,
                                 twilioPhone: Option<string>, gemini: Option<string>)

  /** The keys taken from their sources, `""` for each one that is missing. The ensures
      say this field by field, as the source's `get(name, "")` calls do. */
  function KeysOf(fields: KeyFields): (k: ApiKeys)
    ensures k.openai == OrEmpty(fields.openai) && k.gemini == OrEmpty(fields.gemini)
    ensures k.twilioSid == OrEmpty(fields.twilioSid) && k.twilioToken == OrEmpty(fields.twilioToken)
    ensures k.twilioPhone == OrEmpty(fields.twilioPhone)
  {
    ApiKeys(OrEmpty(fields.openai), OrEmpty(fields.twilioSid), OrEmpty(fields.twilioToken),
            OrEmpty(fields.twilioPhone), OrEmpty(fields.gemini))
  }

  /** The five lines of the `.env` file, in their fixed order. */
  function EnvLines(k: ApiKeys): seq<string> {
    ["OPENAI_API_KEY=" + k.openai, "TWILIO_SID=" + k.twilioSid, "TWILIO_TOKEN=" + k.twilioToken,
     "TWILIO_PHONE=" + k.twilioPhone, "GEMINI_API_KEY=" + k.gemini]
  }

  /** What `save_env_file` writes: each line followed by a line break, in order. */
  function EnvFileContent(k: ApiKeys): string {
    Lines(EnvLines(k))
  }

  /** The text of a file written line by line, each `write` ending with `\n`. */
  function Lines(ls: seq<string>): string
    decreases |ls|
  {
    if ls == [] then "" else ls[0] + "\n" + Lines(ls[1..])
  }

  /** Reading back lines that hold no line break: the lines, then the empty text after
      the last break. */
  lemma {:induction false} SplitLines(ls: seq<string>)
    requires forall k :: 0 <= k < |ls| ==> '\n' !in ls[k]
    ensures Split(Lines(ls), '\n') == ls + [""]
    decreases |ls|
  {
    if ls == [] {
      assert Split("", '\n') == [""];
    } else {
      SplitLines(ls[1..]);
      SplitAtSeparator(ls[0], '\n', Lines(ls[1..]));
      assert "\n" == ['\n'];
      assert [ls[0]] + (ls[1..] + [""]) == ls + [""];
    }
  }

  lemma NoNewline(prefix: string, v: string)
    requires '\n' !in prefix && '\n' !in v
    ensures '\n' !in prefix + v
  {
  }

  /** When no key holds a line break, the file reads back as exactly the five
      `NAME=value` lines, in order, each ended by a line break. */
  lemma EnvFileLines(k: ApiKeys)
    requires '\n' !in k.openai && '\n' !in k.twilioSid && '\n' !in k.twilioToken
    requires '\n' !in k.twilioPhone && '\n' !in k.gemini
    ensures Split(EnvFileContent(k), '\n') == EnvLines(k) + [""]
  {
    NoNewline("OPENAI_API_KEY=", k.openai);
    NoNewline("TWILIO_SID=", k.twilioSid);
    NoNewline("TWILIO_TOKEN=", k.twilioToken);
    NoNewline("TWILIO_PHONE=", k.twilioPhone);
    NoNewline("GEMINI_API_KEY=", k.gemini);
    SplitLines(EnvLines(k));
  }

  // ---------------------------------------------------------------- one cycle

  const StartedLine: string := "Detection started. Listening for wake words..."
  const StoppedLine: string := "Detection stopped."
  const ThreadStartedLine: string := "Detection thread started."
  const StoppingLine: string := "Stopping detection thread..."

  function TranscriptionLine(text: string): string { "Transcription: " + text }
  function DetectedLine(word: string): string { "Wake word '" + word + "' detected!" }
  function CallSentLine(phone: string): string { "  -- Phone call sent to " + phone + " --" }
  function ResponseLine(response: string): string { "  -- Gemini response: " + response + " --" }
  function ErrorLine(error: string): string { "Error: " + error }
  function SavedKeysLine(envPath: string): string { "API keys saved to .env file at " + envPath }

  /** A line that reports an exception. */
  predicate IsErrorLine(line: string) {
    "Error: " <= line
  }

  const PromptHead: string :=
    "The following is the transcript of a meeting going on. The main user has been called on in the meeting "
    + "and requires an urgent summarization of everything discussed. Generate a summary of everything discussed "
    + "in the meeting. Transcription: ```"

  /** The Gemini prompt: the fixed request, then every utterance so far, joined by
      single spaces, between triple back-quotes. */
  function SummaryPrompt(transcript: seq<string>): string {
    PromptHead + Join(transcript, " ") + "```"
  }

  /** The prompt holds every utterance of the transcript. */
  lemma PromptHoldsEveryUtterance(transcript: seq<string>, k: nat)
    requires k < |transcript|
    ensures Contains(SummaryPrompt(transcript), transcript[k])
  {
    JoinContainsPart(transcript, " ", k);
    ContainsSuffix(PromptHead, Join(transcript, " "), transcript[k]);
    var i := ContainsWitness(PromptHead + Join(transcript, " "), transcript[k]);
    var p := SummaryPrompt(transcript);
    assert p[i..] == (PromptHead + Join(transcript, " "))[i..] + "```";
    ContainsAt(p, transcript[k], i);
  }

  /** `transcribe(...).lower().strip()`. */
  function Normalize(heard: string): (text: string)
    ensures IsStripped(text) && IsLower(text)
  {
    LowerIsLower(heard);
    StripKeepsLower(Lower(heard));
    Strip(Lower(heard))
  }

  /** A call to a service outside the model. */
  datatype Request =
    | PhoneCall(sid: string, token: string, to: string, from: string)
    | Summary(prompt: string, apiKey: string)

  /** What the outside world answers during one cycle: the transcription (or the
      exception recording or transcribing raised), and for the wake word at each
      position of the list, what `make_phone_call` and `prompt_gemini` return or raise. */
  datatype CycleInput = CycleInput(heard: Outcome<string>, callAt: nat -> Outcome<bool>,
                                   summaryAt: nat -> Outcome<string>)

  /** The wake-word loop from position `i` on: the lines it logs, the requests it makes,
      the positions of the words that fired, and the exception that ended it, if any. */
  datatype Scan = Scan(log: seq<string>, requests: seq<Request>, triggered: seq<nat>, error: Option<string>)

  /** Positions from `i` on whose word, lower-cased, occurs in `text`. */
  function Matching(words: seq<string>, i: nat, text: string): (r: seq<nat>)
    ensures forall k :: 0 <= k < |r| ==> i <= r[k] < |words|
    decreases |words| - i
  {
    if i >= |words| then []
    else (if Contains(text, Lower(words[i])) then [i] else []) + Matching(words, i + 1, text)
  }

  /** One turn of the `for word in wake_words` loop, for the word at position `i`: a
      word fires when its lower case occurs in `text`; it then logs the detection,
      requests the call, logs that the call was sent, requests the summary and logs the
      answer, as far as the first exception. */
  function Fire(word: string, i: nat, text: string, keys: ApiKeys, phone: string, prompt: string,
                callOutcome: Outcome<bool>, summaryOutcome: Outcome<string>): Scan
  {
    if !Contains(text, Lower(word)) then Scan([], [], [], None)
    else
      var detected := DetectedLine(word);
      var call := PhoneCall(keys.twilioSid, keys.twilioToken, phone, keys.twilioPhone);
      match callOutcome
      case Raised(e) => Scan([detected], [call], [i], Some(e))
      case Returned(_) =>
        var sent := CallSentLine(phone);
        var summary := Summary(prompt, keys.gemini);
        match summaryOutcome
        case Raised(e) => Scan([detected, sent], [call, summary], [i], Some(e))
        case Returned(response) => Scan([detected, sent, ResponseLine(response)], [call, summary], [i], None)
  }

  /** A wake word does nothing exactly when its lower case does not occur in the text;
      when it occurs, it fires at its own position. */
  lemma FireIffMatch(word: string, i: nat, text: string, keys: ApiKeys, phone: string, prompt: string,
                     callOutcome: Outcome<bool>, summaryOutcome: Outcome<string>)
    ensures var f := Fire(word, i, text, keys, phone, prompt, callOutcome, summaryOutcome);
      && (!Contains(text, Lower(word)) <==> f == Scan([], [], [], None))
      && (Contains(text, Lower(word)) ==> f.triggered == [i] && |f.log| >= 1 && f.log[0] == DetectedLine(word))
  {
  }

  /** The `for word in wake_words` loop from position `i`, up to the first exception. */
  function ScanFrom(words: seq<string>, i: nat, text: string, keys: ApiKeys, phone: string, prompt: string,
                    callAt: nat -> Outcome<bool>, summaryAt: nat -> Outcome<string>): Scan
    decreases |words| - i
  {
    if i >= |words| then Scan([], [], [], None)
    else
      var f := Fire(words[i], i, text, keys, phone, prompt, callAt(i), summaryAt(i));
      if f.error.Some? then f
      else Prepended(f.log, f.requests, f.triggered, ScanFrom(words, i + 1, text, keys, phone, prompt, callAt, summaryAt))
  }

  /** The lines, requests and firing positions of a first stretch of the loop in front
      of the rest. */
  function Prepended(log: seq<string>, requests: seq<Request>, fired: seq<nat>, rest: Scan): Scan {
    Scan(log + rest.log, requests + rest.requests, fired + rest.triggered, rest.error)
  }

  lemma PrependedAssoc(log: seq<string>, requests: seq<Request>, fired: seq<nat>,
                       log': seq<string>, requests': seq<Request>, fired': seq<nat>, rest: Scan)
    ensures Prepended(log, requests, fired, Prepended(log', requests', fired', rest))
         == Prepended(log + log', requests + requests', fired + fired', rest)
  {
  }

  lemma AppendAssoc(a: seq<string>, b: seq<string>, c: seq<string>)
    ensures a + b + c == a + (b + c)
  {
  }

  /** Without an exception every matching word fires, in list order, duplicates
      included; an exception stops the loop at a matching word, after the words that
      match before it. */
  lemma {:induction false} ScanFiresMatchingWords(words: seq<string>, i: nat, text: string, keys: ApiKeys,
                                                  phone: string, prompt: string,
                                                  callAt: nat -> Outcome<bool>, summaryAt: nat -> Outcome<string>)
    ensures var s := ScanFrom(words, i, text, keys, phone, prompt, callAt, summaryAt);
      && (s.error.None? ==> s.triggered == Matching(words, i, text))
      && (s.error.Some? ==> s.triggered != [] && s.triggered <= Matching(words, i, text))
    decreases |words| - i
  {
    if i < |words| {
      ScanFiresMatchingWords(words, i + 1, text, keys, phone, prompt, callAt, summaryAt);
      var f := Fire(words[i], i, text, keys, phone, prompt, callAt(i), summaryAt(i));
      var rest := ScanFrom(words, i + 1, text, keys, phone, prompt, callAt, summaryAt);
      var m := Matching(words, i + 1, text);
      if !Contains(text, Lower(words[i])) {
        assert f.triggered == [] && f.error.None?;
        assert [] + rest.triggered == rest.triggered;
      } else {
        assert f.triggered == [i];
        assert Matching(words, i, text) == [i] + m;
        if f.error.None? {
          assert rest.error.Some? ==> rest.triggered <= m;
        }
      }
    }
  }

  /** The lines and requests for the given firing positions when nothing raises: per
      word, its detection, the call-sent line and the summary, and a call request and a
      summary request. */
  function ExpectedLog(words: seq<string>, fired: seq<nat>, phone: string,
                       summaryAt: nat -> Outcome<string>): seq<string>
    decreases |fired|
  {
    if fired == [] then []
    else
      var j := fired[0];
      [DetectedLine(if j < |words| then words[j] else ""), CallSentLine(phone),
       ResponseLine(if summaryAt(j).Returned? then summaryAt(j).value else "")]
      + ExpectedLog(words, fired[1..], phone, summaryAt)
  }

  function ExpectedRequests(n: nat, call: Request, summary: Request): (r: seq<Request>)
    ensures |r| == 2 * n
    ensures forall k :: 0 <= k < |r| ==> r[k] == if k % 2 == 0 then call else summary
  {
    if n == 0 then []
    else
      var rest := ExpectedRequests(n - 1, call, summary);
      var r := [call, summary] + rest;
      assert forall k :: 2 <= k < |r| ==> r[k] == rest[k - 2] && (k - 2) % 2 == k % 2;
      r
  }

  /** A loop that ends without an exception logs three lines and makes two requests
      (the call, then the summary of the same prompt) per matching word. */
  lemma {:induction false} ScanWithoutError(words: seq<string>, i: nat, text: string, keys: ApiKeys,
                                            phone: string, prompt: string,
                                            callAt: nat -> Outcome<bool>, summaryAt: nat -> Outcome<string>)
    requires ScanFrom(words, i, text, keys, phone, prompt, callAt, summaryAt).error.None?
    ensures var s := ScanFrom(words, i, text, keys, phone, prompt, callAt, summaryAt);
      && s.log == ExpectedLog(words, Matching(words, i, text), phone, summaryAt)
      && s.requests == ExpectedRequests(|Matching(words, i, text)|,
                                        PhoneCall(keys.twilioSid, keys.twilioToken, phone, keys.twilioPhone),
                                        Summary(prompt, keys.gemini))
    decreases |words| - i
  {
    if i < |words| {
      var f := Fire(words[i], i, text, keys, phone, prompt, callAt(i), summaryAt(i));
      var rest := ScanFrom(words, i + 1, text, keys, phone, prompt, callAt, summaryAt);
      var m := Matching(words, i + 1, text);
      assert f.error.None?;
      assert ScanFrom(words, i, text, keys, phone, prompt, callAt, summaryAt) == Prepended(f.log, f.requests, f.triggered, rest);
      ScanWithoutError(words, i + 1, text, keys, phone, prompt, callAt, summaryAt);
      if Contains(text, Lower(words[i])) {
        assert Matching(words, i, text) == [i] + m;
        assert ([i] + m)[1..] == m;
        assert f.log == [DetectedLine(words[i]), CallSentLine(phone), ResponseLine(summaryAt(i).value)];
      } else {
        assert f == Scan([], [], [], None);
        assert [] + rest.log == rest.log && [] + rest.requests == rest.requests;
        assert Matching(words, i, text) == m;
      }
    }
  }

  /** What `make_phone_call` returns is never looked at: two answers that differ only
      in the returned value give the same loop. */
  lemma {:induction false} CallResultIgnored(words: seq<string>, i: nat, text: string, keys: ApiKeys,
                                             phone: string, prompt: string, callAt: nat -> Outcome<bool>,
                                             callAt': nat -> Outcome<bool>, summaryAt: nat -> Outcome<string>)
    requires forall j :: callAt(j) == callAt'(j) || (callAt(j).Returned? && callAt'(j).Returned?)
    ensures ScanFrom(words, i, text, keys, phone, prompt, callAt, summaryAt)
         == ScanFrom(words, i, text, keys, phone, prompt, callAt', summaryAt)
    decreases |words| - i
  {
    if i < |words| {
      CallResultIgnored(words, i + 1, text, keys, phone, prompt, callAt, callAt', summaryAt);
      assert callAt(i) == callAt'(i) || (callAt(i).Returned? && callAt'(i).Returned?);
    }
  }

  /** What `make_phone_call` answers when it is the call component's function, called
      as the loop calls it: no message, the saved Twilio keys, the configured number. */
  function WiredCall(keys: ApiKeys, phone: string, create: CallComponent.CreateRequest -> Outcome<string>)
    : nat -> Outcome<bool>
  {
    j => Returned(CallComponent.MakePhoneCall(None, keys.twilioSid, keys.twilioToken, phone,
                                              keys.twilioPhone, create).ok)
  }

  /** With the call component wired in, whatever Twilio does, the loop runs as if every
      call had returned true: the component reports failures by its result, which the
      loop never looks at. */
  lemma WiredCallIgnored(words: seq<string>, i: nat, text: string, keys: ApiKeys, phone: string, prompt: string,
                         create: CallComponent.CreateRequest -> Outcome<string>, summaryAt: nat -> Outcome<string>)
    ensures ScanFrom(words, i, text, keys, phone, prompt, WiredCall(keys, phone, create), summaryAt)
         == ScanFrom(words, i, text, keys, phone, prompt, j => Returned(true), summaryAt)
  {
    var always: nat -> Outcome<bool> := j => Returned(true);
    CallResultIgnored(words, i, text, keys, phone, prompt, WiredCall(keys, phone, create), always, summaryAt);
  }

  /** A line that does not start with `E` reports no exception. */
  lemma NotErrorLine(line: string)
    requires |line| > 0 && line[0] != 'E'
    ensures !IsErrorLine(line)
  {
    assert "Error: "[0] == 'E';
  }

  lemma ErrorLineIsErrorLine(e: string)
    ensures IsErrorLine(ErrorLine(e))
  {
    assert ErrorLine(e)[..|"Error: "|] == "Error: ";
  }

  predicate NoErrorLine(log: seq<string>) {
    forall k :: 0 <= k < |log| ==> !IsErrorLine(log[k])
  }

  /** The wake-word loop itself logs no exception line. */
  lemma {:induction false} ScanLogHasNoErrorLine(words: seq<string>, i: nat, text: string, keys: ApiKeys,
                                                 phone: string, prompt: string,
                                                 callAt: nat -> Outcome<bool>, summaryAt: nat -> Outcome<string>)
    ensures NoErrorLine(ScanFrom(words, i, text, keys, phone, prompt, callAt, summaryAt).log)
    decreases |words| - i
  {
    if i < |words| {
      ScanLogHasNoErrorLine(words, i + 1, text, keys, phone, prompt, callAt, summaryAt);
      if Contains(text, Lower(words[i])) {
        NotErrorLine(DetectedLine(words[i]));
        NotErrorLine(CallSentLine(phone));
        if callAt(i).Returned? && summaryAt(i).Returned? {
          var line := ResponseLine(summaryAt(i).value);
          NotErrorLine(line);
          var s := ScanFrom(words, i, text, keys, phone, prompt, callAt, summaryAt);
          var rest := ScanFrom(words, i + 1, text, keys, phone, prompt, callAt, summaryAt);
          assert s.log == [DetectedLine(words[i]), CallSentLine(phone), line] + rest.log;
          assert forall k :: 3 <= k < |s.log| ==> s.log[k] == rest.log[k - 3];
          assert !IsErrorLine(s.log[0]) && !IsErrorLine(s.log[1]) && !IsErrorLine(s.log[2]);
        }
      }
    }
  }

  /** The effect of one turn of the `while` loop on the transcript and the log, and
      the requests it makes. */
  datatype CycleResult = CycleResult(transcription: seq<string>, log: seq<string>, requests: seq<Request>,
                                     error: Option<string>)

  /** One turn of the `while` loop: record and transcribe, append the normalised text
      to the transcript and log it, run the wake-word loop with the summary prompt of
      the whole transcript, and log the exception that ended the turn, if any. */
  function CycleSpec(transcription: seq<string>, words: seq<string>, phone: string, keys: ApiKeys,
                     input: CycleInput): (r: CycleResult)
    ensures input.heard.Raised? ==>
      r == CycleResult(transcription, [ErrorLine(input.heard.error)], [], Some(input.heard.error))
    ensures input.heard.Returned? ==>
      && r.transcription == transcription + [Normalize(input.heard.value)]
      && |r.log| >= 1 && r.log[0] == TranscriptionLine(Normalize(input.heard.value))
  {
    match input.heard
    case Raised(e) => CycleResult(transcription, [ErrorLine(e)], [], Some(e))
    case Returned(heard) => HeardSpec(transcription, words, phone, keys, Normalize(heard), input.callAt, input.summaryAt)
  }

  /** The exception line, when an exception ended the wake-word loop. */
  function ErrorTail(error: Option<string>): seq<string> {
    if error.Some? then [ErrorLine(error.value)] else []
  }

  /** The rest of a turn once the normalised text is in: append it to the transcript
      and log it, then run the wake-word loop with the summary prompt of the whole
      transcript, and log the exception that ended the loop, if any. */
  function HeardSpec(transcription: seq<string>, words: seq<string>, phone: string, keys: ApiKeys, text: string,
                     callAt: nat -> Outcome<bool>, summaryAt: nat -> Outcome<string>): (r: CycleResult)
    ensures r.transcription == transcription + [text]
    ensures |r.log| >= 1 && r.log[0] == TranscriptionLine(text)
  {
    var t := transcription + [text];
    var s := ScanFrom(words, 0, text, keys, phone, SummaryPrompt(t), callAt, summaryAt);
    CycleResult(t, [TranscriptionLine(text)] + s.log + ErrorTail(s.error), s.requests, s.error)
  }

  /** The shape of a turn's log: a first line, the lines of the loop, and the
      exception line when an exception ended it. */
  lemma ErrorOnlyLast(first: string, body: seq<string>, error: Option<string>, log: seq<string>)
    requires !IsErrorLine(first) && NoErrorLine(body)
    requires log == [first] + body + (if error.Some? then [ErrorLine(error.value)] else [])
    ensures error.Some? <==> |log| >= 1 && IsErrorLine(log[|log| - 1])
    ensures error.Some? ==> log[|log| - 1] == ErrorLine(error.value)
    ensures forall k :: 0 <= k < |log| - 1 ==> !IsErrorLine(log[k])
  {
    assert forall k :: 1 <= k < |body| + 1 ==> log[k] == body[k - 1];
    if error.Some? {
      ErrorLineIsErrorLine(error.value);
    } else if body != [] {
      assert log[|log| - 1] == body[|body| - 1];
    }
  }

  /** A turn logs an exception exactly when one ended it, as its last line and only
      there. */
  lemma CycleReportsErrorLast(transcription: seq<string>, words: seq<string>, phone: string, keys: ApiKeys,
                              input: CycleInput)
    ensures var r := CycleSpec(transcription, words, phone, keys, input);
      && (r.error.Some? <==> |r.log| >= 1 && IsErrorLine(r.log[|r.log| - 1]))
      && (r.error.Some? ==> r.log[|r.log| - 1] == ErrorLine(r.error.value))
      && (forall k :: 0 <= k < |r.log| - 1 ==> !IsErrorLine(r.log[k]))
  {
    var r := CycleSpec(transcription, words, phone, keys, input);
    if input.heard.Raised? {
      assert r.log == [ErrorLine(input.heard.error)] && r.error == Some(input.heard.error);
      ErrorLineIsErrorLine(input.heard.error);
    } else {
      var text := Normalize(input.heard.value);
      var prompt := SummaryPrompt(transcription + [text]);
      var s := ScanFrom(words, 0, text, keys, phone, prompt, input.callAt, input.summaryAt);
      assert r.log == [TranscriptionLine(text)] + s.log + (if s.error.Some? then [ErrorLine(s.error.value)] else []);
      assert r.error == s.error;
      ScanLogHasNoErrorLine(words, 0, text, keys, phone, prompt, input.callAt, input.summaryAt);
      NotErrorLine(TranscriptionLine(text));
      ErrorOnlyLast(TranscriptionLine(text), s.log, s.error, r.log);
    }
  }

  // ---------------------------------------------------------------- server state

  /** The module-level variables the routes and the detection thread share, with the
      detection thread reduced to whether it is alive and whether it has entered its
      `while` loop. */
  datatype Server = Server(wakeWords: seq<string>, phoneNumber: string, apiKeys: ApiKeys,
                           transcription: seq<string>, logs: seq<string>, stopFlag: bool,
                           threadAlive: bool, inLoop: bool)

  /** What holds between any two steps: a thread in its loop is alive, the wake words
      are as the settings parser leaves them, and every utterance is lower-case and
      stripped. */
  predicate Valid(s: Server) {
    && (s.inLoop ==> s.threadAlive)
    && (forall k :: 0 <= k < |s.wakeWords| ==> CleanWord(s.wakeWords[k]))
    && Normal(s.transcription)
  }

  /** The state at import time, with the API keys from the environment. */
  function Initial(env: KeyFields): (s: Server)
    ensures Valid(s) && s.logs == [] && s.transcription == [] && !s.threadAlive
  {
    DefaultWakeWordsAreClean();
    Server(DefaultWakeWords, "", KeysOf(env), [], [], false, false, false)
  }

  /** `log_message`: the message goes at the end of the log. */
  function Logged(s: Server, msg: string): Server {
    s.(logs := s.logs + [msg])
  }

  /** The two fields of the settings form, `phone_number` and `wake_words`. */
  datatype SettingsFields = SettingsFields(phoneNumber: Option<string>, wakeWords: Option<string>)

  /** `update_settings`: the raw phone number and the parsed wake words replace the old
      ones; nothing else changes. */
  function SettingsUpdated(s: Server, form: SettingsFields): (r: Server)
    ensures r.phoneNumber == OrEmpty(form.phoneNumber)
    ensures r.wakeWords == ParseWakeWords(OrEmpty(form.wakeWords))
    ensures r.(phoneNumber := s.phoneNumber, wakeWords := s.wakeWords) == s
  {
    s.(phoneNumber := OrEmpty(form.phoneNumber), wakeWords := ParseWakeWords(OrEmpty(form.wakeWords)))
  }

  /** New settings keep the state valid: the parsed wake words are clean. */
  lemma SettingsUpdatedKeepsValid(s: Server, form: SettingsFields)
    requires Valid(s)
    ensures Valid(SettingsUpdated(s, form))
  {
    ParsedWakeWordsAreClean(OrEmpty(form.wakeWords));
  }

  /** The settings form as the index page fills it in. */
  function SettingsForm(s: Server): SettingsFields {
    SettingsFields(Some(s.phoneNumber), Some(DisplayWakeWords(s.wakeWords)))
  }

  /** Submitting the settings form unedited changes nothing. */
  lemma UnchangedFormKeepsSettings(s: Server)
    requires Valid(s)
    ensures SettingsUpdated(s, SettingsForm(s)) == s
  {
    DisplayedWakeWordsParseBack(s.wakeWords);
  }

  /** `save_api_keys`: the keys are replaced by the form's; the `.env` file gets their
      five lines and the save is logged, unless opening the file fails, in which case
      the request ends with the keys replaced and nothing logged. The second component
      is what was written to the file. */
  function KeysSaved(s: Server, form: KeyFields, envPath: string, openFails: bool): (r: (Server, Option<string>))
    ensures Valid(s) ==> Valid(r.0)
    ensures r.0.apiKeys == KeysOf(form)
    ensures openFails ==> r == (s.(apiKeys := KeysOf(form)), None)
    ensures !openFails ==> r == (s.(apiKeys := KeysOf(form), logs := s.logs + [SavedKeysLine(envPath)]),
                                 Some(EnvFileContent(KeysOf(form))))
  {
    var t := s.(apiKeys := KeysOf(form));
    if openFails then (t, None) else (Logged(t, SavedKeysLine(envPath)), Some(EnvFileContent(t.apiKeys)))
  }

  /** `start_detection`: a new thread is started, with the stop flag cleared, only when
      none is alive; otherwise nothing happens. */
  function Started(s: Server): (r: Server)
    ensures Valid(s) ==> Valid(r)
    ensures s.threadAlive ==> r == s
    ensures !s.threadAlive ==> r.threadAlive && !r.inLoop && !r.stopFlag && r.logs == s.logs + [ThreadStartedLine]
    ensures r.(stopFlag := s.stopFlag, threadAlive := s.threadAlive, inLoop := s.inLoop, logs := s.logs) == s
  {
    if s.threadAlive then s
    else Logged(s.(stopFlag := false, threadAlive := true, inLoop := false), ThreadStartedLine)
  }

  /** `stop_detection`: the flag is raised and the request logged, whether or not a
      thread is running. */
  function Stopped(s: Server): (r: Server)
    ensures Valid(s) ==> Valid(r)
    ensures r.stopFlag && r.logs == s.logs + [StoppingLine]
    ensures r.(stopFlag := s.stopFlag, logs := s.logs) == s
  {
    Logged(s.(stopFlag := true), StoppingLine)
  }

  /** One turn of the detection loop on the shared state. */
  function Cycled(s: Server, input: CycleInput): (Server, seq<Request>) {
    var c := CycleSpec(s.transcription, s.wakeWords, s.phoneNumber, s.apiKeys, input);
    (s.(transcription := c.transcription, logs := s.logs + c.log), c.requests)
  }

  /** The next thing the detection thread does: nothing when it is not alive; on entry,
      log that detection started; at the top of the loop with the flag raised, log the
      stop and end; otherwise run one turn. */
  function ThreadStepped(s: Server, input: CycleInput): (r: (Server, seq<Request>))
    ensures !s.threadAlive ==> r == (s, [])
    ensures s.threadAlive && !s.inLoop ==> r == (Logged(s.(inLoop := true), StartedLine), [])
    ensures s.threadAlive && s.inLoop && s.stopFlag ==>
      r == (Logged(s.(threadAlive := false, inLoop := false), StoppedLine), [])
    ensures s.threadAlive && s.inLoop && !s.stopFlag ==> r == Cycled(s, input)
  {
    if !s.threadAlive then (s, [])
    else if !s.inLoop then (Logged(s.(inLoop := true), StartedLine), [])
    else if s.stopFlag then (Logged(s.(threadAlive := false, inLoop := false), StoppedLine), [])
    else Cycled(s, input)
  }

  predicate Normal(transcription: seq<string>) {
    forall k :: 0 <= k < |transcription| ==> IsStripped(transcription[k]) && IsLower(transcription[k])
  }

  lemma AppendKeepsNormal(transcription: seq<string>, text: string)
    requires Normal(transcription) && IsStripped(text) && IsLower(text)
    ensures Normal(transcription + [text])
  {
    var t := transcription + [text];
    assert forall k :: 0 <= k < |transcription| ==> t[k] == transcription[k];
  }

  /** The detection thread's steps keep `Valid`: the utterance a turn adds is
      normalised, and a thread only enters its loop while alive. */
  lemma ThreadStepKeepsValid(s: Server, input: CycleInput)
    requires Valid(s)
    ensures Valid(ThreadStepped(s, input).0)
  {
    if s.threadAlive && s.inLoop && !s.stopFlag && input.heard.Returned? {
      var c := CycleSpec(s.transcription, s.wakeWords, s.phoneNumber, s.apiKeys, input);
      AppendKeepsNormal(s.transcription, Normalize(input.heard.value));
      assert ThreadStepped(s, input).0 == s.(transcription := c.transcription, logs := s.logs + c.log);
    }
  }

  /** No step removes or rewrites a log line: `get_logs` always sees the earlier log
      as a prefix. */
  lemma StepsOnlyAppendToLog(s: Server, settings: SettingsFields, keys: KeyFields, envPath: string, openFails: bool,
                             input: CycleInput)
    ensures s.logs <= SettingsUpdated(s, settings).logs && s.logs <= KeysSaved(s, keys, envPath, openFails).0.logs
    ensures s.logs <= Started(s).logs && s.logs <= Stopped(s).logs && s.logs <= ThreadStepped(s, input).0.logs
  {
  }

  /** A cycle appends exactly one utterance when the transcription succeeds and none
      when it fails; earlier utterances are never dropped, across stops and starts. */
  lemma TranscriptOnlyGrows(s: Server, input: CycleInput)
    ensures var t := ThreadStepped(s, input).0.transcription;
      && s.transcription <= t
      && |t| <= |s.transcription| + 1
      && (s.threadAlive && s.inLoop && !s.stopFlag && input.heard.Returned? <==> |t| == |s.transcription| + 1)
    ensures Started(s).transcription == s.transcription && Stopped(s).transcription == s.transcription
  {
    if s.threadAlive && s.inLoop && !s.stopFlag && input.heard.Returned? {
      var c := CycleSpec(s.transcription, s.wakeWords, s.phoneNumber, s.apiKeys, input);
      assert c.transcription == s.transcription + [Normalize(input.heard.value)];
    }
  }

  /** Once the flag is raised, a thread already in its loop stops at its next step and
      logs the stop; a second `start_detection` before that step is lost. */
  lemma StopEndsThreadAtNextStep(s: Server, input: CycleInput)
    requires s.threadAlive && s.inLoop
    ensures var r := ThreadStepped(Stopped(s), input);
      && !r.0.threadAlive && r.1 == [] && r.0.logs == s.logs + [StoppingLine, StoppedLine]
    ensures Started(Stopped(s)) == Stopped(s)
  {
  }

  /** A start request while a thread is alive changes nothing, so starting is
      idempotent. */
  lemma StartIdempotent(s: Server)
    ensures Started(Started(s)) == Started(s)
  {
  }

  /** The shared state as a class: the route handlers and the thread's steps are
      methods that update it in place. */
  class Detector {
    var wakeWords: seq<string>
    var phoneNumber: string
    var apiKeys: ApiKeys
    var transcription: seq<string>
    var logs: seq<string>
    var stopFlag: bool
    var threadAlive: bool
    var inLoop: bool

    function State(): Server
      reads this
    {
      Server(wakeWords, phoneNumber, apiKeys, transcription, logs, stopFlag, threadAlive, inLoop)
    }

    constructor (env: KeyFields)
      ensures State() == Initial(env)
    {
      DefaultWakeWordsAreClean();
      wakeWords := DefaultWakeWords;
      phoneNumber := "";
      apiKeys := KeysOf(env);
      transcription := [];
      logs := [];
      stopFlag := false;
      threadAlive := false;
      inLoop := false;
    }

    method LogMessage(msg: string)
      modifies this`logs
      ensures logs == old(logs) + [msg]
    {
      logs := logs + [msg];
    }

    method GetLogs() returns (r: seq<string>)
      ensures r == logs
    {
      r := logs;
    }

    method UpdateSettings(form: SettingsFields)
      modifies this`phoneNumber, this`wakeWords
      ensures State() == SettingsUpdated(old(State()), form)
    {
      phoneNumber := OrEmpty(form.phoneNumber);
      wakeWords := ParseWakeWords(OrEmpty(form.wakeWords));
    }

    method SaveApiKeys(form: KeyFields, envPath: string, openFails: bool) returns (written: Option<string>)
      modifies this
      ensures (State(), written) == KeysSaved(old(State()), form, envPath, openFails)
    {
      apiKeys := KeysOf(form);
      if openFails {
        written := None;
      } else {
        written := Some(EnvFileContent(apiKeys));
        LogMessage(SavedKeysLine(envPath));
      }
    }

    method StartDetection()
      modifies this
      ensures State() == Started(old(State()))
    {
      if !threadAlive {
        stopFlag := false;
        threadAlive := true;
        inLoop := false;
        LogMessage(ThreadStartedLine);
      }
    }

    method StopDetection()
      modifies this
      ensures State() == Stopped(old(State()))
    {
      stopFlag := true;
      LogMessage(StoppingLine);
    }

    /** The body of the `for` loop for the word at position `i`. */
    method FireWord(i: nat, text: string, prompt: string, callOutcome: Outcome<bool>, summaryOutcome: Outcome<string>)
      returns (requests: seq<Request>, error: Option<string>)
      requires i < |wakeWords|
      modifies this`logs
      ensures var f := Fire(wakeWords[i], i, text, apiKeys, phoneNumber, prompt, callOutcome, summaryOutcome);
        logs == old(logs) + f.log && requests == f.requests && error == f.error
    {
      var word := wakeWords[i];
      requests := [];
      error := None;
      if Contains(text, Lower(word)) {
        LogMessage(DetectedLine(word));
        requests := [PhoneCall(apiKeys.twilioSid, apiKeys.twilioToken, phoneNumber, apiKeys.twilioPhone)];
        match callOutcome {
          case Raised(e) =>
            error := Some(e);
          case Returned(_) =>
            LogMessage(CallSentLine(phoneNumber));
            requests := requests + [Summary(prompt, apiKeys.gemini)];
            match summaryOutcome {
              case Raised(e) =>
                error := Some(e);
              case Returned(response) =>
                LogMessage(ResponseLine(response));
            }
        }
      }
    }

    /** The `for` loop over the wake words, up to the first exception. */
    method ScanWords(text: string, prompt: string, input: CycleInput) returns (requests: seq<Request>, error: Option<string>)
      modifies this`logs
      ensures var s := ScanFrom(wakeWords, 0, text, apiKeys, phoneNumber, prompt, input.callAt, input.summaryAt);
        logs == old(logs) + s.log && requests == s.requests && error == s.error
    {
      ghost var whole := ScanFrom(wakeWords, 0, text, apiKeys, phoneNumber, prompt, input.callAt, input.summaryAt);
      ghost var lines: seq<string> := [];
      ghost var fired: seq<nat> := [];
      requests := [];
      error := None;
      var i := 0;
      while i < |wakeWords| && error.None?
        invariant 0 <= i <= |wakeWords|
        invariant logs == old(logs) + lines
        invariant error.None? ==>
          whole == Prepended(lines, requests, fired,
                             ScanFrom(wakeWords, i, text, apiKeys, phoneNumber, prompt, input.callAt, input.summaryAt))
        invariant error.Some? ==> whole == Scan(lines, requests, fired, error)
        decreases |wakeWords| - i, if error.None? then 1 else 0
      {
        ghost var f := Fire(wakeWords[i], i, text, apiKeys, phoneNumber, prompt, input.callAt(i), input.summaryAt(i));
        ghost var rest := ScanFrom(wakeWords, i + 1, text, apiKeys, phoneNumber, prompt, input.callAt, input.summaryAt);
        ghost var here := ScanFrom(wakeWords, i, text, apiKeys, phoneNumber, prompt, input.callAt, input.summaryAt);
        assert f.error.None? ==> here == Prepended(f.log, f.requests, f.triggered, rest);
        assert f.error.Some? ==> here == f;
        ghost var logsBefore := logs;
        var more, failure := FireWord(i, text, prompt, input.callAt(i), input.summaryAt(i));
        assert more == f.requests && failure == f.error && logs == logsBefore + f.log;
        AppendAssoc(old(logs), lines, f.log);
        PrependedAssoc(lines, requests, fired, f.log, f.requests, f.triggered, rest);
        lines, fired := lines + f.log, fired + f.triggered;
        requests, error := requests + more, failure;
        if error.None? {
          i := i + 1;
        }
      }
    }

    /** The rest of one turn of the `while` loop, once `text` is transcribed. */
    method Heard(text: string, input: CycleInput) returns (requests: seq<Request>)
      modifies this`transcription, this`logs
      ensures var c := HeardSpec(old(transcription), wakeWords, phoneNumber, apiKeys, text, input.callAt, input.summaryAt);
        transcription == c.transcription && logs == old(logs) + c.log && requests == c.requests
    {
      transcription := transcription + [text];
      LogMessage(TranscriptionLine(text));
      var prompt := SummaryPrompt(transcription);
      ghost var scan := ScanFrom(wakeWords, 0, text, apiKeys, phoneNumber, prompt, input.callAt, input.summaryAt);
      var error;
      requests, error := ScanWords(text, prompt, input);
      AppendAssoc(old(logs), [TranscriptionLine(text)], scan.log);
      if error.Some? {
        LogMessage(ErrorLine(error.value));
      }
      AppendAssoc(old(logs), [TranscriptionLine(text)] + scan.log, ErrorTail(scan.error));
    }

    /** One turn of the `while` loop. */
    method Cycle(input: CycleInput) returns (requests: seq<Request>)
      modifies this
      ensures (State(), requests) == Cycled(old(State()), input)
    {
      match input.heard {
        case Raised(e) =>
          requests := [];
          LogMessage(ErrorLine(e));
        case Returned(heard) =>
          var text := Normalize(heard);
          requests := Heard(text, input);
      }
    }

    /** What the detection thread does next. */
    method ThreadStep(input: CycleInput) returns (requests: seq<Request>)
      modifies this
      ensures (State(), requests) == ThreadStepped(old(State()), input)
    {
      requests := [];
      if !threadAlive {
      } else if !inLoop {
        inLoop := true;
        LogMessage(StartedLine);
      } else if stopFlag {
        threadAlive := false;
        inLoop := false;
        LogMessage(StoppedLine);
      } else {
        requests := Cycle(input);
      }
    }
  }
}
