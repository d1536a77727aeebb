/** `Components/make_call_component.py`: the older call component, which takes its
    credentials and numbers from the configuration file `Components/twilio_config.ignore`
    instead of its arguments. That is not the path the GUI writes (`twilio_config.ignore`,
    relative to the working directory): the two meet only when the program runs one
    directory above the file the GUI saved. The file is given already parsed, `None`
    when it does not exist. */
module MakeCallComponent {
  import opened Wrappers
  import opened IniConfig
  import CallComponent
  import TwilioGuiComponent

  const DefaultMessage: string :=
    "Hello! This is an automated call from your Python script. Thank you for using Twilio!"

  /** The four options read with `config[section][key]`; a missing section or option is
      a `KeyError`. (`HasOption` is false for every option of a missing section.) */
  predicate HasCallSettings(ini: Ini) {
    && HasOption(ini, "credentials", "account_sid")
    && HasOption(ini, "credentials", "auth_token")
    && HasOption(ini, "phone_numbers", "my_phone")
    && HasOption(ini, "phone_numbers", "twilio_phone")
  }

  /** `config[section][key]`: `None` for the `KeyError` of a missing section or option,
      otherwise the interpolated value or the interpolation error. */
  function Setting(ini: Ini, section: string, key: string): (r: Option<Outcome<string>>)
    ensures r.None? <==> !HasOption(ini, section, key)
    ensures r.Some? ==> r.value == Get(ini, section, key)
  {
    if HasOption(ini, section, key) then Some(Get(ini, section, key)) else None
  }

  /** The four reads in the order of the source: SID, token, your number, Twilio number. */
  function CallSettings(ini: Ini): seq<Option<Outcome<string>>> {
    [Setting(ini, "credentials", "account_sid"), Setting(ini, "credentials", "auth_token"),
     Setting(ini, "phone_numbers", "my_phone"), Setting(ini, "phone_numbers", "twilio_phone")]
  }

  /** The position of the first read that does not return a value, or the number of
      settings. */
  function FirstUnread(settings: seq<Option<Outcome<string>>>): (k: nat)
    ensures k <= |settings|
    ensures k < |settings| ==> !(settings[k].Some? && settings[k].value.Returned?)
    ensures forall i :: 0 <= i < k ==> settings[i].Some? && settings[i].value.Returned?
    decreases |settings|
  {
    if settings == [] || !(settings[0].Some? && settings[0].value.Returned?) then 0
    else 1 + FirstUnread(settings[1..])
  }

  /** The reads of the `try` block, one after the other: `None` when one meets a
      `KeyError` (which the `except KeyError` catches), the interpolation error of the
      first read that raises one (which no handler catches), or all the values. */
  function ReadInOrder(settings: seq<Option<Outcome<string>>>): (r: Option<Outcome<seq<string>>>)
    ensures var k := FirstUnread(settings);
      && (k == |settings| ==>
            && r.Some? && r.value.Returned? && |r.value.value| == |settings|
            && forall i :: 0 <= i < |settings| ==> r.value.value[i] == settings[i].value.value)
      && (k < |settings| && settings[k].None? ==> r.None?)
      && (k < |settings| && settings[k].Some? ==> r == Some(Raised(settings[k].value.error)))
    decreases |settings|
  {
    if settings == [] then Some(Returned([]))
    else
      match settings[0]
      case None => None
      case Some(Raised(e)) => Some(Raised(e))
      case Some(Returned(v)) =>
        match ReadInOrder(settings[1..])
        case Some(Returned(vs)) => Some(Returned([v] + vs))
        case other => other
  }

  /** `make_phone_call(message)`: false without contacting Twilio when the file is
      missing or a read meets a missing setting; the interpolation error of the first
      read that raises one escapes the function; otherwise the same placeholder guards
      and call as the newer component, with the interpolated values. */
  function MakePhoneCall(message: Option<string>, config: Option<Ini>,
                         create: CallComponent.CreateRequest -> Outcome<string>): (r: Outcome<CallComponent.CallAttempt>)
    ensures config.None? ==> r == Returned(CallComponent.CallAttempt(None, false))
    ensures config.Some? ==>
      var settings := CallSettings(config.value);
      var k := FirstUnread(settings);
      && (k < 4 && settings[k].None? ==> r == Returned(CallComponent.CallAttempt(None, false)))
      && (k < 4 && settings[k].Some? ==> r == Raised(settings[k].value.error))
      && (k == 4 ==>
            r == Returned(CallComponent.Dial(if message.Some? then message.value else DefaultMessage,
                                             settings[0].value.value, settings[1].value.value,
                                             settings[2].value.value, settings[3].value.value, create)))
  {
    match config
    case None => Returned(CallComponent.CallAttempt(None, false))
    case Some(ini) =>
      match ReadInOrder(CallSettings(ini))
      case None => Returned(CallComponent.CallAttempt(None, false))
      case Some(Raised(e)) => Raised(e)
      case Some(Returned(values)) =>
        Returned(CallComponent.Dial(if message.Some? then message.value else DefaultMessage,
                                    values[0], values[1], values[2], values[3], create))
  }

  /** A file that lacks one of the four settings, and whose earlier settings read
      without error, never leads to a call: the `KeyError` is caught. */
  lemma MissingSettingNoCall(message: Option<string>, ini: Ini, create: CallComponent.CreateRequest -> Outcome<string>)
    requires !HasCallSettings(ini)
    requires forall i :: 0 <= i < 4 && CallSettings(ini)[i].Some? ==> CallSettings(ini)[i].value.Returned?
    ensures MakePhoneCall(message, Some(ini), create) == Returned(CallComponent.CallAttempt(None, false))
  {
    var settings := CallSettings(ini);
    if !HasOption(ini, "credentials", "account_sid") {
      assert settings[0].None?;
    } else if !HasOption(ini, "credentials", "auth_token") {
      assert settings[1].None?;
    } else if !HasOption(ini, "phone_numbers", "my_phone") {
      assert settings[2].None?;
    } else {
      assert settings[3].None?;
    }
  }

  /** With a complete configuration file whose values read without error the two
      components behave alike: this one gives what the newer one gives when handed
      the interpolated values. */
  lemma AgreesWithCallComponent(message: string, ini: Ini, create: CallComponent.CreateRequest -> Outcome<string>)
    requires HasCallSettings(ini)
    requires && Get(ini, "credentials", "account_sid").Returned?
             && Get(ini, "credentials", "auth_token").Returned?
             && Get(ini, "phone_numbers", "my_phone").Returned?
             && Get(ini, "phone_numbers", "twilio_phone").Returned?
    ensures MakePhoneCall(Some(message), Some(ini), create)
         == Returned(CallComponent.MakePhoneCall(Some(message), Get(ini, "credentials", "account_sid").value,
                                                 Get(ini, "credentials", "auth_token").value,
                                                 Get(ini, "phone_numbers", "my_phone").value,
                                                 Get(ini, "phone_numbers", "twilio_phone").value, create))
  {
    assert FirstUnread(CallSettings(ini)) == 4;
  }

  /** A call is only ever placed from a file holding all four settings, each read
      without error, and it goes to the file's `my_phone` from its `twilio_phone`. */
  lemma CallNeedsCompleteFile(message: Option<string>, config: Option<Ini>,
                              create: CallComponent.CreateRequest -> Outcome<string>)
    requires MakePhoneCall(message, config, create).Returned?
    requires MakePhoneCall(message, config, create).value.request.Some?
    ensures config.Some? && HasCallSettings(config.value)
    ensures && Get(config.value, "credentials", "account_sid").Returned?
            && Get(config.value, "credentials", "auth_token").Returned?
            && Get(config.value, "phone_numbers", "my_phone").Returned?
            && Get(config.value, "phone_numbers", "twilio_phone").Returned?
    ensures MakePhoneCall(message, config, create).value.request.value.to
         == Get(config.value, "phone_numbers", "my_phone").value
    ensures MakePhoneCall(message, config, create).value.request.value.from
         == Get(config.value, "phone_numbers", "twilio_phone").value
  {
    var settings := CallSettings(config.value);
    assert FirstUnread(settings) == 4;
  }

  /** The file the GUI saves, when found at this component's path, places the call
      with the stripped form, each `%%` halved, provided no field holds a reference
      (each is without `(` or without `%`) or a line break. */
  lemma DialsSavedGuiFile(message: string, f: TwilioGuiComponent.Fields,
                          create: CallComponent.CreateRequest -> Outcome<string>)
    requires TwilioGuiComponent.Storable(TwilioGuiComponent.Stripped(f))
    requires TwilioGuiComponent.Unreferenced(TwilioGuiComponent.Stripped(f))
    requires TwilioGuiComponent.SingleLine(TwilioGuiComponent.Stripped(f))
    ensures var u := TwilioGuiComponent.Unescaped(TwilioGuiComponent.Stripped(f));
      MakePhoneCall(Some(message), Some(TwilioGuiComponent.CredentialsIni(f)), create)
      == Returned(CallComponent.MakePhoneCall(Some(message), u.sid, u.token, u.yourPhone, u.twilioPhone, create))
  {
    TwilioGuiComponent.SavedSettingsReadBack(f);
    AgreesWithCallComponent(message, TwilioGuiComponent.CredentialsIni(f), create);
  }
}
