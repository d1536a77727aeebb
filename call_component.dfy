/** `Components/call_component.py`: place one Twilio call that speaks a message.
    The Twilio REST client is outside the model; its `calls.create` is the oracle
    `create`, which either returns the new call's SID or raises. */
module CallComponent {
  import opened Wrappers
  import opened Text

  const DefaultMessage: string := "Hello! You have been called by the Laziness-101"

  /** The values shipped in the sample configuration, which mean "not set up yet". */
  const SidPlaceholder: string := "your_account_sid_here"
  const TokenPlaceholder: string := "your_auth_token_here"
  const MyPhonePlaceholder: string := "+1YOURNUMBER"
  const TwilioPhonePlaceholder: string := "+1TWILIONUMBER"

  const TwimlHead: string :=
    "<?xml version=\"1.0\" encoding=\"UTF-8\"?>\n<Response>\n    <Say voice=\"alice\">"
  const TwimlTail: string :=
    "</Say>\n    <Pause length=\"1\"/>\n    <Say voice=\"alice\">Call completed. Goodbye!</Say>\n</Response>"

  /** The TwiML document of the call: the message in the first `<Say>`, a one-second
      `<Pause>`, then the fixed goodbye. */
  function Twiml(message: string): string {
    TwimlHead + message + TwimlTail
  }

  /** The text of the first `<Say>` of a document laid out as `Twiml` lays it out. */
  function SpokenMessage(twiml: string): string
    requires |TwimlHead| + |TwimlTail| <= |twiml|
  {
    twiml[|TwimlHead|..|twiml| - |TwimlTail|]
  }

  /** The document starts with the XML declaration and embeds `message` unchanged. */
  lemma TwimlRecoversMessage(message: string)
    ensures |TwimlHead| + |TwimlTail| <= |Twiml(message)|
    ensures Twiml(message)[..|TwimlHead|] == TwimlHead
    ensures Twiml(message)[|Twiml(message)| - |TwimlTail|..] == TwimlTail
    ensures SpokenMessage(Twiml(message)) == message
  {
    var t := Twiml(message);
    assert t[..|TwimlHead|] == TwimlHead;
    assert t[|TwimlHead|..|t| - |TwimlTail|] == message;
    assert t[|t| - |TwimlTail|..] == TwimlTail;
  }

  /** Two different messages never give the same TwiML. */
  lemma TwimlInjective(m1: string, m2: string)
    requires Twiml(m1) == Twiml(m2)
    ensures m1 == m2
  {
    TwimlRecoversMessage(m1);
    TwimlRecoversMessage(m2);
  }

  /** The arguments of `client.calls.create`, with the credentials of the client. */
  datatype CreateRequest = CreateRequest(accountSid: string, authToken: string, to: string, from: string, twiml: string)

  /** What one `make_phone_call` did: the request it sent to Twilio, if any, and the
      boolean it returned. */
  datatype CallAttempt = CallAttempt(request: Option<CreateRequest>, ok: bool)

  /** The SID and token guard: equality with the sample values. */
  predicate CredentialsArePlaceholders(sid: string, token: string) {
    sid == SidPlaceholder || token == TokenPlaceholder
  }

  /** The phone-number guard: the sample numbers occurring anywhere in the numbers. */
  predicate PhonesArePlaceholders(to: string, from: string) {
    Contains(to, MyPhonePlaceholder) || Contains(from, TwilioPhonePlaceholder)
  }

  /** The guards and the call that both call components share. Twilio is contacted
      exactly when neither guard fires; the call goes to `to` from `from`, speaking
      `message`; the result is true exactly when `create` returned. */
  function Dial(message: string, sid: string, token: string, to: string, from: string,
                create: CreateRequest -> Outcome<string>): (r: CallAttempt)
    ensures r.request.Some? <==> !CredentialsArePlaceholders(sid, token) && !PhonesArePlaceholders(to, from)
    ensures r.request.Some? ==> r.request.value == CreateRequest(sid, token, to, from, Twiml(message))
    ensures r.ok <==> r.request.Some? && create(r.request.value).Returned?
  {
    if CredentialsArePlaceholders(sid, token) then CallAttempt(None, false)
    else if PhonesArePlaceholders(to, from) then CallAttempt(None, false)
    else
      var request := CreateRequest(sid, token, to, from, Twiml(message));
      match create(request)
      case Returned(_) => CallAttempt(Some(request), true)
      case Raised(_) => CallAttempt(Some(request), false)
  }

  /** `make_phone_call(message, sid, token, phone_number, twilio_phone)`: the supplied
      credentials and numbers are used as they are (the configuration file it may read
      is never consulted), and an omitted message is the default greeting. A thin
      wrapper whose ensures pass the arguments on; what the call does is stated by
      `Dial` and `PlaceholdersNeverCall`. */
  function MakePhoneCall(message: Option<string>, sid: string, token: string, phoneNumber: string,
                         twilioPhone: string, create: CreateRequest -> Outcome<string>): (r: CallAttempt)
    ensures message.None? ==> r == Dial(DefaultMessage, sid, token, phoneNumber, twilioPhone, create)
    ensures message.Some? ==> r == Dial(message.value, sid, token, phoneNumber, twilioPhone, create)
  {
    Dial(if message.Some? then message.value else DefaultMessage, sid, token, phoneNumber, twilioPhone, create)
  }

  /** A sample SID, token or number blocks the call whatever Twilio would do. */
  lemma PlaceholdersNeverCall(message: string, sid: string, token: string, to: string, from: string,
                              create: CreateRequest -> Outcome<string>)
    requires sid == SidPlaceholder || token == TokenPlaceholder
             || Contains(to, MyPhonePlaceholder) || Contains(from, TwilioPhonePlaceholder)
    ensures Dial(message, sid, token, to, from, create) == CallAttempt(None, false)
  {
  }
}
