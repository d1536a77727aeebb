/** `twilio_gui_component.py`: the credential form of the Twilio call manager. The
    entry widgets are plain strings; the configuration file `twilio_config.ignore` is
    kept as the parsed view `configparser` has of it (`None` when it does not exist);
    the call function handed to the window is an oracle whose answer is an argument of
    `MakeCall`. Message boxes, colours and layout are not modelled. */
module TwilioGuiComponent {
  import opened Wrappers
  import opened Text
  import opened IniConfig

  /** The four entry fields of the form, as typed. */
  datatype Fields = Fields(sid: string, token: string, yourPhone: string, twilioPhone: string)

  /** Why `validate_input` refused the form: the message box it shows. */
  datatype ValidationError =
    | EmptySid | EmptyToken | EmptyYourPhone | EmptyTwilioPhone
    | YourPhoneFormat | TwilioPhoneFormat

  const DefaultMessage: string :=
    "Hey, this is your local nigerian prince, I require $100 of your support please."

  const SavedStatus: string := "Credentials saved successfully!"
  const SaveFailedPrefix: string := "Failed to save configuration: "
  const LoadedStatus: string := "Configuration loaded successfully"
  const LoadFailedPrefix: string := "Failed to load configuration: "
  const NoCallFunctionStatus: string := "No call function provided to the GUI component"
  const CallSucceededStatus: string := "Call initiated successfully!"
  const CallFailedStatus: string := "Failed to make call. Check console for details."
  const CallErrorPrefix: string := "An error occurred: "

  /** Python's `s.startswith('+')`. */
  predicate StartsWithPlus(s: string) {
    |s| > 0 && s[0] == '+'
  }

  /** The form as `save_credentials` stores it: every field stripped. */
  function Stripped(f: Fields): Fields {
    Fields(Strip(f.sid), Strip(f.token), Strip(f.yourPhone), Strip(f.twilioPhone))
  }

  /** What the form must satisfy to be saved, stated independently of the order of the
      checks: a SID and a token, and two numbers that start with `+` once stripped. */
  predicate Acceptable(f: Fields) {
    && Strip(f.sid) != "" && Strip(f.token) != ""
    && StartsWithPlus(Strip(f.yourPhone)) && StartsWithPlus(Strip(f.twilioPhone))
  }

  /** The chain of checks of `validate_input`: the first one that fails, in the order
      SID, token, your number, Twilio number, then the two `+` prefixes. */
  function FirstInvalid(f: Fields): (r: Option<ValidationError>)
    ensures r == Some(EmptySid) <==> Strip(f.sid) == ""
    ensures r == Some(EmptyToken) <==> Strip(f.sid) != "" && Strip(f.token) == ""
    ensures r == Some(EmptyYourPhone) <==>
      Strip(f.sid) != "" && Strip(f.token) != "" && Strip(f.yourPhone) == ""
    ensures r == Some(EmptyTwilioPhone) <==>
      Strip(f.sid) != "" && Strip(f.token) != "" && Strip(f.yourPhone) != "" && Strip(f.twilioPhone) == ""
    ensures r == Some(YourPhoneFormat) <==>
      && Strip(f.sid) != "" && Strip(f.token) != "" && Strip(f.yourPhone) != "" && Strip(f.twilioPhone) != ""
      && !StartsWithPlus(Strip(f.yourPhone))
    ensures r == Some(TwilioPhoneFormat) <==>
      && Strip(f.sid) != "" && Strip(f.token) != "" && Strip(f.twilioPhone) != ""
      && StartsWithPlus(Strip(f.yourPhone)) && !StartsWithPlus(Strip(f.twilioPhone))
  {
    if Strip(f.sid) == "" then Some(EmptySid)
    else if Strip(f.token) == "" then Some(EmptyToken)
    else if Strip(f.yourPhone) == "" then Some(EmptyYourPhone)
    else if Strip(f.twilioPhone) == "" then Some(EmptyTwilioPhone)
    else if !StartsWithPlus(Strip(f.yourPhone)) then Some(YourPhoneFormat)
    else if !StartsWithPlus(Strip(f.twilioPhone)) then Some(TwilioPhoneFormat)
    else None
  }

  /** `validate_input`: true exactly when no check fails, that is, when the form is
      acceptable. */
  function ValidateInput(f: Fields): (ok: bool)
    ensures ok <==> Acceptable(f)
    ensures ok ==> Strip(f.yourPhone) != "" && Strip(f.twilioPhone) != ""
  {
    FirstInvalid(f).None?
  }

  /** The text of the message box for each refusal. */
  function ErrorMessage(e: ValidationError): string {
    match e
    case EmptySid => "Account SID cannot be empty!"
    case EmptyToken => "Auth Token cannot be empty!"
    case EmptyYourPhone => "Your Phone Number cannot be empty!"
    case EmptyTwilioPhone => "Twilio Phone Number cannot be empty!"
    case YourPhoneFormat => "Your Phone Number must start with '+' and include country code!"
    case TwilioPhoneFormat => "Twilio Phone Number must start with '+' and include country code!"
  }

  /** Validation looks only at stripped values: a form and its stripped copy are
      refused for the same reason. */
  lemma ValidationIgnoresPadding(f: Fields)
    ensures FirstInvalid(Stripped(f)) == FirstInvalid(f)
  {
    StripIdempotent(f.sid);
    StripIdempotent(f.token);
    StripIdempotent(f.yourPhone);
    StripIdempotent(f.twilioPhone);
  }

  /** The configuration file holding `v` as it is: two sections and nothing in
      `DEFAULT`. */
  function ConfigFile(v: Fields): Ini {
    Ini(map["credentials" := map["account_sid" := v.sid, "auth_token" := v.token],
            "phone_numbers" := map["my_phone" := v.yourPhone, "twilio_phone" := v.twilioPhone]],
        map[])
  }

  /** The file `save_credentials` writes, as `config.read` gives it back: the stripped
      fields. This holds for fields on one line (`SingleLine`); the lemmas about reading
      it back require that. */
  function CredentialsIni(f: Fields): Ini {
    ConfigFile(Stripped(f))
  }

  /** Every field of `v` is a value `before_set` accepts. */
  predicate Storable(v: Fields) {
    SetAccepts(v.sid) && SetAccepts(v.token) && SetAccepts(v.yourPhone) && SetAccepts(v.twilioPhone)
  }

  /** The `ValueError` that `config['credentials'] = {...}` and then
      `config['phone_numbers'] = {...}` raise while storing `v`: that of the first field
      `before_set` refuses, in the order SID, token, your number, Twilio number. */
  function StoreError(v: Fields): (e: Option<string>)
    ensures e.None? <==> Storable(v)
  {
    if SetError(v.sid).Some? then SetError(v.sid)
    else if SetError(v.token).Some? then SetError(v.token)
    else if SetError(v.yourPhone).Some? then SetError(v.yourPhone)
    else SetError(v.twilioPhone)
  }

  /** No field of `v` holds `c`. */
  predicate Avoids(v: Fields, c: char) {
    c !in v.sid && c !in v.token && c !in v.yourPhone && c !in v.twilioPhone
  }

  /** No field of `v` can hold a `%(name)s` reference: each is without `(` or without
      `%`. */
  predicate Unreferenced(v: Fields) {
    HoldsNoReference(v.sid) && HoldsNoReference(v.token)
    && HoldsNoReference(v.yourPhone) && HoldsNoReference(v.twilioPhone)
  }

  /** No field of `v` holds a line break. Only then does the file `config.write`
      produces read back as the values stored: a `\n` is written as a continuation line,
      which is stripped (or, starting with `#`, dropped) when read, and a `\r` ends the
      line, leaving a line without `=` that makes `config.read` raise. */
  predicate SingleLine(v: Fields) {
    Avoids(v, '\n') && Avoids(v, '\r')
  }

  /** Each field read back through interpolation when it holds no reference: every
      `%%` halved. */
  function Unescaped(v: Fields): Fields {
    Fields(Replace(v.sid, "%%", "%"), Replace(v.token, "%%", "%"),
           Replace(v.yourPhone, "%%", "%"), Replace(v.twilioPhone, "%%", "%"))
  }

  /** The entries in the order `load_config` fills them. */
  function EntryList(f: Fields): seq<string> {
    [f.sid, f.token, f.yourPhone, f.twilioPhone]
  }

  /** What `load_config` reads for each entry, in that order: `None` when the entry's
      section is absent, otherwise what `config[section].get(option, '')` returns or
      raises. */
  function LoadReads(ini: Ini): seq<Option<Outcome<string>>> {
    var creds := HasSection(ini, "credentials");
    var phones := HasSection(ini, "phone_numbers");
    [if creds then Some(GetOr(ini, "credentials", "account_sid", "")) else None,
     if creds then Some(GetOr(ini, "credentials", "auth_token", "")) else None,
     if phones then Some(GetOr(ini, "phone_numbers", "my_phone", "")) else None,
     if phones then Some(GetOr(ini, "phone_numbers", "twilio_phone", "")) else None]
  }

  /** The `delete`-then-`insert` steps of `load_config`, entry by entry: an entry whose
      section is absent keeps its text, a read that returns replaces it, and a read
      that raises leaves the entry empty and ends the loading with its exception. */
  function Fill(answers: seq<Option<Outcome<string>>>, entries: seq<string>): (r: (seq<string>, Option<string>))
    requires |answers| == |entries|
    ensures |r.0| == |entries|
    decreases |answers|
  {
    if answers == [] then (entries, None)
    else if answers[0].Some? && answers[0].value.Raised? then ([""] + entries[1..], Some(answers[0].value.error))
    else
      var rest := Fill(answers[1..], entries[1..]);
      ([if answers[0].None? then entries[0] else answers[0].value.value] + rest.0, rest.1)
  }

  /** The entries after `load_config` has read `ini` into `current`, and the exception
      that ended it, if any. */
  function LoadedFields(ini: Ini, current: Fields): (Fields, Option<string>) {
    FilledFields(LoadReads(ini), current)
  }

  /** `Fill` on the four entries of `current`, as a form. */
  function FilledFields(answers: seq<Option<Outcome<string>>>, current: Fields): (Fields, Option<string>)
    requires |answers| == 4
  {
    var (entries, error) := Fill(answers, EntryList(current));
    (Fields(entries[0], entries[1], entries[2], entries[3]), error)
  }

  /** The position of the first read that raised, or the number of reads. */
  function FirstRaised(answers: seq<Option<Outcome<string>>>): (k: nat)
    ensures k <= |answers|
    ensures k < |answers| ==> answers[k].Some? && answers[k].value.Raised?
    ensures forall i :: 0 <= i < k ==> answers[i].None? || answers[i].value.Returned?
    decreases |answers|
  {
    if answers == [] then 0
    else if answers[0].Some? && answers[0].value.Raised? then 0
    else 1 + FirstRaised(answers[1..])
  }

  /** Loading stops at the first read that raises, stated position by position: the
      entries before it hold what was read (or keep their text when their section is
      absent), that entry is empty, the later ones are untouched, and the exception is
      that read's. Loading succeeds exactly when no read raises. */
  lemma {:induction false} FillStopsAtFirstError(answers: seq<Option<Outcome<string>>>, entries: seq<string>)
    requires |answers| == |entries|
    ensures var r := Fill(answers, entries);
            var k := FirstRaised(answers);
            && (forall i :: 0 <= i < k ==>
                  r.0[i] == if answers[i].None? then entries[i] else answers[i].value.value)
            && (k < |answers| ==> r.0[k] == "" && r.1 == Some(answers[k].value.error))
            && (forall i :: k < i < |answers| ==> r.0[i] == entries[i])
            && (r.1.None? <==> k == |answers|)
    decreases |answers|
  {
    if answers != [] && !(answers[0].Some? && answers[0].value.Raised?) {
      FillStopsAtFirstError(answers[1..], entries[1..]);
      var rest := Fill(answers[1..], entries[1..]);
      var r := Fill(answers, entries);
      assert forall i :: 1 <= i < |entries| ==> r.0[i] == rest.0[i - 1];
      assert forall i :: 1 <= i < |answers| ==> answers[i] == answers[1..][i - 1];
    }
  }

  /** `load_config` on a parsed file: `FillStopsAtFirstError` for its four reads. */
  lemma LoadStopsAtFirstError(ini: Ini, current: Fields)
    ensures var r := LoadedFields(ini, current);
            var answers := LoadReads(ini);
            var k := FirstRaised(answers);
            && (forall i :: 0 <= i < k ==>
                  EntryList(r.0)[i] == if answers[i].None? then EntryList(current)[i] else answers[i].value.value)
            && (k < 4 ==> EntryList(r.0)[k] == "" && r.1 == Some(answers[k].value.error))
            && (forall i :: k < i < 4 ==> EntryList(r.0)[i] == EntryList(current)[i])
            && (r.1.None? <==> k == 4)
  {
    var answers := LoadReads(ini);
    FillStopsAtFirstError(answers, EntryList(current));
    var f := Fill(answers, EntryList(current));
    assert EntryList(LoadedFields(ini, current).0) == f.0;
  }

  lemma ConfigFileCredentials(v: Fields)
    ensures HasOption(ConfigFile(v), "credentials", "account_sid")
    ensures HasOption(ConfigFile(v), "credentials", "auth_token")
    ensures RawGet(ConfigFile(v), "credentials", "account_sid") == v.sid
    ensures RawGet(ConfigFile(v), "credentials", "auth_token") == v.token
  {
    TwoOptionSection(ConfigFile(v), "credentials", "account_sid", v.sid, "auth_token", v.token);
  }

  lemma ConfigFilePhoneNumbers(v: Fields)
    ensures HasOption(ConfigFile(v), "phone_numbers", "my_phone")
    ensures HasOption(ConfigFile(v), "phone_numbers", "twilio_phone")
    ensures RawGet(ConfigFile(v), "phone_numbers", "my_phone") == v.yourPhone
    ensures RawGet(ConfigFile(v), "phone_numbers", "twilio_phone") == v.twilioPhone
  {
    TwoOptionSection(ConfigFile(v), "phone_numbers", "my_phone", v.yourPhone, "twilio_phone", v.twilioPhone);
  }

  /** The saved file holds all four settings the configuration-reading call component
      asks for, stored as the stripped values of the form. The GUI writes
      `twilio_config.ignore` in the working directory, while that component reads
      `Components/twilio_config.ignore`: it finds this file only when the GUI ran inside
      `Components/` and the component runs one directory above. */
  lemma SavedFileHasCallSettings(f: Fields)
    requires SingleLine(Stripped(f))
    ensures && HasOption(CredentialsIni(f), "credentials", "account_sid")
            && HasOption(CredentialsIni(f), "credentials", "auth_token")
            && HasOption(CredentialsIni(f), "phone_numbers", "my_phone")
            && HasOption(CredentialsIni(f), "phone_numbers", "twilio_phone")
    ensures RawGet(CredentialsIni(f), "credentials", "account_sid") == Strip(f.sid)
    ensures RawGet(CredentialsIni(f), "credentials", "auth_token") == Strip(f.token)
    ensures RawGet(CredentialsIni(f), "phone_numbers", "my_phone") == Strip(f.yourPhone)
    ensures RawGet(CredentialsIni(f), "phone_numbers", "twilio_phone") == Strip(f.twilioPhone)
  {
    ConfigFileCredentials(Stripped(f));
    ConfigFilePhoneNumbers(Stripped(f));
  }

  /** Each of the four saved settings reads back through interpolation with its `%%`
      halved, when the field holds no reference (no `(`, or no `%`) and `before_set`
      accepted it. */
  lemma SavedSettingsReadBack(f: Fields)
    requires Storable(Stripped(f)) && Unreferenced(Stripped(f)) && SingleLine(Stripped(f))
    ensures && HasOption(CredentialsIni(f), "credentials", "account_sid")
            && HasOption(CredentialsIni(f), "credentials", "auth_token")
            && HasOption(CredentialsIni(f), "phone_numbers", "my_phone")
            && HasOption(CredentialsIni(f), "phone_numbers", "twilio_phone")
    ensures Get(CredentialsIni(f), "credentials", "account_sid") == Returned(Unescaped(Stripped(f)).sid)
    ensures Get(CredentialsIni(f), "credentials", "auth_token") == Returned(Unescaped(Stripped(f)).token)
    ensures Get(CredentialsIni(f), "phone_numbers", "my_phone") == Returned(Unescaped(Stripped(f)).yourPhone)
    ensures Get(CredentialsIni(f), "phone_numbers", "twilio_phone") == Returned(Unescaped(Stripped(f)).twilioPhone)
  {
    SavedFileHasCallSettings(f);
    var ini := CredentialsIni(f);
    GetWithoutReference(ini, "credentials", "account_sid");
    GetWithoutReference(ini, "credentials", "auth_token");
    GetWithoutReference(ini, "phone_numbers", "my_phone");
    GetWithoutReference(ini, "phone_numbers", "twilio_phone");
  }

  /** The four reads of `load_config` on the saved file all return, with every `%%`
      halved. */
  lemma LoadReadsOfSaved(f: Fields)
    requires Storable(Stripped(f)) && Unreferenced(Stripped(f)) && SingleLine(Stripped(f))
    ensures var u := Unescaped(Stripped(f));
            LoadReads(CredentialsIni(f))
            == [Some(Returned(u.sid)), Some(Returned(u.token)), Some(Returned(u.yourPhone)), Some(Returned(u.twilioPhone))]
  {
    SavedSettingsReadBack(f);
  }

  /** Four reads that all return fill the form with what they returned. */
  lemma FilledWithReturned(v: Fields, current: Fields)
    ensures FilledFields([Some(Returned(v.sid)), Some(Returned(v.token)), Some(Returned(v.yourPhone)),
                          Some(Returned(v.twilioPhone))], current) == (v, None)
  {
    var answers := [Some(Returned(v.sid)), Some(Returned(v.token)), Some(Returned(v.yourPhone)), Some(Returned(v.twilioPhone))];
    assert FirstRaised(answers) == 4;
    FillStopsAtFirstError(answers, EntryList(current));
    assert Fill(answers, EntryList(current)).0 == EntryList(v);
  }

  /** Loading the saved file reads back all four settings, with every `%%` halved. */
  lemma LoadedFieldsOfSaved(f: Fields, current: Fields)
    requires Storable(Stripped(f)) && Unreferenced(Stripped(f)) && SingleLine(Stripped(f))
    ensures LoadedFields(CredentialsIni(f), current) == (Unescaped(Stripped(f)), None)
  {
    LoadReadsOfSaved(f);
    FilledWithReturned(Unescaped(Stripped(f)), current);
  }

  /** The status line after the call function answered `result`: success for a truthy
      answer, failure for a falsy one, the exception text when it raised. */
  function CallStatus(result: Outcome<bool>): (status: string)
    ensures result == Returned(true) ==> status == CallSucceededStatus
    ensures result == Returned(false) ==> status == CallFailedStatus
    ensures result.Raised? ==> status == CallErrorPrefix + result.error
  {
    match result
    case Returned(ok) => if ok then CallSucceededStatus else CallFailedStatus
    case Raised(e) => CallErrorPrefix + e
  }

  /** A trailing newline never survives `strip()`. */
  lemma {:induction false} TrimLeftAppendSpace(s: string, c: char)
    requires IsSpace(c)
    ensures TrimLeft(s + [c]) == if TrimLeft(s) == [] then [] else TrimLeft(s) + [c]
    decreases |s|
  {
    if s == [] {
      assert ([c])[1..] == [];
    } else if IsSpace(s[0]) {
      assert (s + [c])[1..] == s[1..] + [c];
      TrimLeftAppendSpace(s[1..], c);
    } else {
    }
  }

  lemma StripAppendSpace(s: string, c: char)
    requires IsSpace(c)
    ensures Strip(s + [c]) == Strip(s)
  {
    TrimLeftAppendSpace(s, c);
    var t := TrimLeft(s);
    if t != [] {
      assert (t + [c])[..|t + [c]| - 1] == t;
    }
  }

  /** What the window shows and what is on disk: the four entries, the message box
      text, the status line and the configuration file. */
  datatype Window = Window(entries: Fields, message: string, status: string, configFile: Option<Ini>)

  /** `load_config` on the window: without a file nothing changes; with one the entries
      are loaded and the status line reports success or the exception that ended the
      loading. */
  function Load(w: Window): (r: Window)
    ensures r.message == w.message && r.configFile == w.configFile
    ensures w.configFile.None? ==> r == w
    ensures w.configFile.Some? ==>
      var (entries, error) := LoadedFields(w.configFile.value, w.entries);
      && r.entries == entries
      && r.status == if error.None? then LoadedStatus else LoadFailedPrefix + error.value
  {
    match w.configFile
    case None => w
    case Some(ini) =>
      var (entries, error) := LoadedFields(ini, w.entries);
      w.(entries := entries, status := if error.None? then LoadedStatus else LoadFailedPrefix + error.value)
  }

  /** `save_credentials` on the window, with `writeError` the exception the write
      raised, if any: the window and what the method returned or raised. A refused form
      changes nothing and returns false. A stripped field that `before_set` refuses
      raises its `ValueError` before the `try`, so nothing is written and the status
      stays. A failed write changes only the status line. The entries and the message
      are never changed. */
  function Save(w: Window, writeError: Option<string>): (r: (Window, Outcome<bool>))
    ensures r.1 == Returned(true) <==>
      ValidateInput(w.entries) && Storable(Stripped(w.entries)) && writeError.None?
    ensures r.1.Raised? <==> ValidateInput(w.entries) && !Storable(Stripped(w.entries))
    ensures r.1.Raised? ==> r.0 == w && StoreError(Stripped(w.entries)) == Some(r.1.error)
    ensures r.0.entries == w.entries && r.0.message == w.message
    ensures !ValidateInput(w.entries) ==> r == (w, Returned(false))
    ensures r.1 == Returned(true) ==> r.0.configFile == Some(CredentialsIni(w.entries)) && r.0.status == SavedStatus
    ensures ValidateInput(w.entries) && Storable(Stripped(w.entries)) && writeError.Some? ==>
      r == (w.(status := SaveFailedPrefix + writeError.value), Returned(false))
  {
    if !ValidateInput(w.entries) then (w, Returned(false))
    else
      match StoreError(Stripped(w.entries))
      case Some(e) => (w, Raised(e))
      case None =>
        match writeError
        case None => (w.(configFile := Some(CredentialsIni(w.entries)), status := SavedStatus), Returned(true))
        case Some(e) => (w.(status := SaveFailedPrefix + e), Returned(false))
  }

  /** A successful save followed by a load gives back the stripped form with each `%%`
      halved, and reports success; when no field holds `%`, exactly the stripped form.
      Stated for fields that hold no `%(name)s` reference (each is without `(` or
      without `%`, so a number such as `+1 (415) 555-0100` is covered), and without a
      line break, which the file does not give back unchanged. */
  lemma SaveThenLoad(w: Window, writeError: Option<string>)
    requires Save(w, writeError).1 == Returned(true)
    requires Unreferenced(Stripped(w.entries)) && SingleLine(Stripped(w.entries))
    ensures Load(Save(w, writeError).0).entries == Unescaped(Stripped(w.entries))
    ensures Load(Save(w, writeError).0).status == LoadedStatus
    ensures Avoids(Stripped(w.entries), '%') ==> Load(Save(w, writeError).0).entries == Stripped(w.entries)
  {
    var v := Stripped(w.entries);
    LoadedFieldsOfSaved(w.entries, w.entries);
    if Avoids(v, '%') {
      ReplaceAbsent(v.sid, "%%", "%");
      ReplaceAbsent(v.token, "%%", "%");
      ReplaceAbsent(v.yourPhone, "%%", "%");
      ReplaceAbsent(v.twilioPhone, "%%", "%");
    }
  }

  /** A stripped SID whose only `%` is its last character, such as `50%`, makes the
      save raise: nothing is written and the window is left as it was. */
  lemma StrayPercentStopsSave(w: Window, writeError: Option<string>)
    requires ValidateInput(w.entries)
    requires var sid := Strip(w.entries.sid);
      && sid[|sid| - 1] == '%' && '%' !in sid[..|sid| - 1] && '(' !in sid
    ensures Save(w, writeError).1.Raised?
    ensures Save(w, writeError).0 == w
  {
    var sid := Strip(w.entries.sid);
    TrailingPercentFails(map[], sid, 1);
    NoReferenceReadsUnescaped(map[], sid, 1);
  }

  /** `load_config` when the first read raises: the SID entry is emptied, the others
      are untouched, and the exception is that read's. */
  lemma FirstReadRaises(ini: Ini, current: Fields)
    requires HasOption(ini, "credentials", "account_sid")
    requires Get(ini, "credentials", "account_sid").Raised?
    ensures LoadedFields(ini, current) == (current.(sid := ""), Some(Get(ini, "credentials", "account_sid").error))
  {
    var answers := LoadReads(ini);
    assert answers[0] == Some(Get(ini, "credentials", "account_sid"));
    assert Fill(answers, EntryList(current)) == ([""] + EntryList(current)[1..], Some(answers[0].value.error));
  }

  /** A stored SID whose only `%` is its last character, such as `50%`, makes
      `load_config` fail: the SID entry has already been emptied, the others are
      untouched, and the status reports the exception. */
  lemma StrayPercentStopsLoad(w: Window)
    requires w.configFile.Some? && HasOption(w.configFile.value, "credentials", "account_sid")
    requires var sid := RawGet(w.configFile.value, "credentials", "account_sid");
      |sid| >= 1 && sid[|sid| - 1] == '%' && '%' !in sid[..|sid| - 1]
    ensures Load(w).entries == w.entries.(sid := "")
    ensures Get(w.configFile.value, "credentials", "account_sid").Raised?
    ensures Load(w).status == LoadFailedPrefix + Get(w.configFile.value, "credentials", "account_sid").error
  {
    TrailingPercentRaises(w.configFile.value, "credentials", "account_sid");
    FirstReadRaises(w.configFile.value, w.entries);
  }

  /** `make_call` on the window, with `result` what the call function answered: the
      window and what the method did, that is the message handed to the call function,
      if it was called, or the exception the save raised. The call happens exactly when
      the save succeeds, the stripped message is not empty and a call function is
      attached; it receives the stripped message. */
  function Call(w: Window, hasCallFunction: bool, writeError: Option<string>, result: Outcome<bool>)
    : (r: (Window, Outcome<Option<string>>))
    ensures r.0.entries == w.entries && r.0.message == w.message
    ensures r.1.Returned? && r.1.value.Some? <==>
      && ValidateInput(w.entries) && Storable(Stripped(w.entries)) && writeError.None?
      && Strip(w.message) != "" && hasCallFunction
    ensures r.1.Returned? && r.1.value.Some? ==> r.1.value.value == Strip(w.message) && r.0.status == CallStatus(result)
    ensures Save(w, writeError).1.Raised? ==> r == (w, Raised(Save(w, writeError).1.error))
    ensures Save(w, writeError).1 == Returned(false) ==> r == (Save(w, writeError).0, Returned(None))
    ensures Save(w, writeError).1 == Returned(true) ==> r.0.configFile == Some(CredentialsIni(w.entries))
    ensures Save(w, writeError).1 == Returned(true) && Strip(w.message) == "" ==>
      r == (Save(w, writeError).0, Returned(None))
    ensures Save(w, writeError).1 == Returned(true) && Strip(w.message) != "" && !hasCallFunction ==>
      r.0.status == NoCallFunctionStatus && r.1 == Returned(None)
  {
    var (saved, outcome) := Save(w, writeError);
    StripAppendSpace(w.message, '\n');
    var text := Strip(w.message + "\n");
    match outcome
    case Raised(e) => (saved, Raised(e))
    case Returned(ok) =>
      if !ok then (saved, Returned(None))
      else if text == "" then (saved, Returned(None))
      else if !hasCallFunction then (saved.(status := NoCallFunctionStatus), Returned(None))
      else (saved.(status := CallStatus(result)), Returned(Some(text)))
  }

  /** The window: its four entries, the message box text, the status line, the
      configuration file on disk and whether a call function was attached. */
  class TwilioGui {
    var sid: string
    var token: string
    var yourPhone: string
    var twilioPhone: string
    var message: string
    var status: string
    var configFile: Option<Ini>
    const hasCallFunction: bool

    function Entries(): Fields
      reads this
    {
      Fields(sid, token, yourPhone, twilioPhone)
    }

    function State(): Window
      reads this
    {
      Window(Entries(), message, status, configFile)
    }

    /** `TwilioGUI(root, make_call_function)`: empty entries, the default message,
        then `load_config` on the file found on disk. */
    constructor (hasCallFunction: bool, onDisk: Option<Ini>)
      ensures this.hasCallFunction == hasCallFunction
      ensures State() == Load(Window(Fields("", "", "", ""), DefaultMessage, "", onDisk))
    {
      this.hasCallFunction := hasCallFunction;
      sid, token, yourPhone, twilioPhone := "", "", "", "";
      message := DefaultMessage;
      status := "";
      configFile := onDisk;
      new;
      LoadConfig();
    }

    /** `load_config`. */
    method LoadConfig()
      modifies this`sid, this`token, this`yourPhone, this`twilioPhone, this`status
      ensures State() == Load(old(State()))
    {
      if configFile.Some? {
        var (f, error) := LoadedFields(configFile.value, Entries());
        sid, token, yourPhone, twilioPhone := f.sid, f.token, f.yourPhone, f.twilioPhone;
        status := if error.None? then LoadedStatus else LoadFailedPrefix + error.value;
        assert Entries() == f;
      }
    }

    /** `save_credentials`: validate, store the stripped form in the parser (which may
        raise), then write it. */
    method SaveCredentials(writeError: Option<string>) returns (saved: Outcome<bool>)
      modifies this
      ensures (State(), saved) == Save(old(State()), writeError)
    {
      if !ValidateInput(Entries()) {
        return Returned(false);
      }
      var refused := StoreError(Stripped(Entries()));
      if refused.Some? {
        return Raised(refused.value);
      }
      var written := CredentialsIni(Entries());
      match writeError {
        case None =>
          configFile := Some(written);
          status := SavedStatus;
          return Returned(true);
        case Some(e) =>
          status := SaveFailedPrefix + e;
          return Returned(false);
      }
    }

    /** `make_call`: save first (an exception there ends the call); then read the
        message (the text widget hands it back with a newline appended), refuse an empty
        one, refuse when no call function is attached, and otherwise call once with the
        stripped message. */
    method MakeCall(writeError: Option<string>, result: Outcome<bool>) returns (called: Outcome<Option<string>>)
      modifies this
      ensures (State(), called) == Call(old(State()), hasCallFunction, writeError, result)
    {
      var saved := SaveCredentials(writeError);
      if saved.Raised? {
        return Raised(saved.error);
      }
      if !saved.value {
        return Returned(None);
      }
      var text := Strip(message + "\n");
      if text == "" {
        return Returned(None);
      }
      if !hasCallFunction {
        status := NoCallFunctionStatus;
        return Returned(None);
      }
      status := CallStatus(result);
      return Returned(Some(text));
    }
  }
}
