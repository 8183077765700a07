/**
 * The four HTTP handlers of the messaging hook: the inbound-message webhook,
 * the status callback, the endpoint that sends the check-in prompt, and the
 * endpoint that simulates an inbound message. Each is a method that takes
 * the `Host`, which records what the handler does outside itself. The
 * webhook, send-prompt and test handlers are proved equal to pure functions
 * of their inputs and of how the outside world answers; the status callback
 * leaves the record as it was.
 */
module Handlers {
  import opened Wrappers
  import Js
  import Base64
  import Channel
  import Extraction
  import Entries

  type Json = Js.Json

  /** Settings read from the environment; an unset variable reads as the empty string. */
  datatype Config = Config(accountSid: string, authToken: string, twilioPhone: string, ownPhone: string, publicUrl: string)

  /**
   * A message handed to the messaging provider: the account and the token the
   * request is signed with (its `Authorization` header is
   * `BasicAuthorization(account, token)`, which `Host.Post` demands), and the
   * form fields of the request.
   */
  datatype Outbound = Outbound(
    account: string, token: string,
    from: string, to: string, body: string, statusCallback: Option<string>)

  /**
   * What a handler does outside itself: asks the model to extract the fields of
   * a message (the request carries `Extraction.Prompt(body)`, whose text is
   * described there), stores a record, posts a message.
   */
  datatype Effect = Asked(body: Option<string>) | Saved(record: Entries.Fields) | Posted(message: Outbound)

  /** How the messaging provider answered a post: it could not be reached, or it replied with a status and a JSON body (`null` when there is none). */
  datatype ProviderAnswer = Unreachable | Replied(status: int, json: Json)

  /**
   * How the outside world behaves during one request: the model's answer,
   * `JSON.parse` (None when it throws), and whether the store accepts a record.
   */
  datatype World = World(completion: Extraction.Completion, parse: string -> Option<Json>, accepts: Entries.Fields -> bool)

  /** The record of what handlers did, in order. */
  class Host {
    var log: seq<Effect>

    constructor()
      ensures log == []
    {
      log := [];
    }

    /** Sends the extraction prompt for the message to the model and returns its answer. */
    method Complete(message: Option<string>, w: World) returns (c: Extraction.Completion)
      modifies this
      ensures c == w.completion
      ensures log == old(log) + [Asked(message)]
    {
      log := log + [Asked(message)];
      c := w.completion;
    }

    /** `saveRecord`: the record is stored when the store accepts it, and the call throws otherwise. */
    method Save(r: Entries.Record, w: World) returns (ok: bool)
      modifies this
      ensures ok == w.accepts(r.fields)
      ensures log == old(log) + (if ok then [Saved(r.fields)] else [])
    {
      ok := w.accepts(r.fields);
      if ok {
        log := log + [Saved(r.fields)];
      }
    }

    /** Posts a message to the provider, signed with the header built from its credentials, and returns the answer. */
    method Post(m: Outbound, header: string, answer: ProviderAnswer) returns (a: ProviderAnswer)
      requires header == BasicAuthorization(m.account, m.token)
      modifies this
      ensures a == answer
      ensures log == old(log) + [Posted(m)]
    {
      log := log + [Posted(m)];
      a := answer;
    }
  }

  /* ---------------------------------------------------------------------- */
  /* Credentials                                                             */
  /* ---------------------------------------------------------------------- */

  /** The `Authorization` header the hook builds from the account and its token. */
  function BasicAuthorization(sid: string, token: string): string {
    "Basic " + Base64.Encoded(Js.Utf16(sid + ":" + token))
  }

  method Authorization(sid: string, token: string) returns (header: string)
    ensures header == BasicAuthorization(sid, token)
  {
    var encoded := Base64.Encode(Js.Utf16(sid + ":" + token));
    header := "Basic " + encoded;
  }

  /** A text whose every character fits one octet. */
  predicate OneOctetText(s: string) {
    forall k | 0 <= k < |s| :: s[k] as int < 0x100
  }

  /** The octets of such a text. */
  function Octets(s: string): (b: seq<Base64.Byte>)
    requires OneOctetText(s)
    ensures |b| == |s| && Base64.Widen(b) == Js.Utf16(s)
  {
    Js.Utf16OfLatin1(s);
    Base64.Narrow(Js.Utf16(s))
  }

  /**
   * The header is the one of section 2 of RFC 7617 (the base64 encoding of
   * RFC 4648 of `sid:token`) exactly when `sid:token` has a multiple of three
   * characters; otherwise its padding is `A` instead of `=`.
   */
  lemma StandardHeaderIff(sid: string, token: string)
    requires OneOctetText(sid + ":" + token)
    ensures BasicAuthorization(sid, token) == "Basic " + Base64.StdEncode(Octets(sid + ":" + token))
      <==> (|sid| + 1 + |token|) % 3 == 0
  {
    var c := sid + ":" + token;
    var b := Octets(c);
    Base64.AgreesExactlyWhenMultipleOfThree(b);
    var h := BasicAuthorization(sid, token);
    var std := "Basic " + Base64.StdEncode(b);
    if h == std {
      assert h[6..] == Base64.Encoded(Js.Utf16(c));
      assert std[6..] == Base64.StdEncode(b);
    }
  }

  /** With a 34-character account id and the 32-character token the hook expects, the header is not the standard one. */
  lemma TwilioShapedCredentials(sid: string, token: string)
    requires |sid| == 34 && |token| == 32 && OneOctetText(sid + ":" + token)
    ensures BasicAuthorization(sid, token) != "Basic " + Base64.StdEncode(Octets(sid + ":" + token))
  {
    StandardHeaderIff(sid, token);
  }

  /* ---------------------------------------------------------------------- */
  /* The inbound-message webhook                                             */
  /* ---------------------------------------------------------------------- */

  /** The confirmation text, with the check mark as the source file spells it. */
  const ConfirmationText: string := "\U{E2}\U{153}\U{201C} Check-in recorded. Thanks!"

  /** A handler's outcome: the HTTP status of its reply and what it did, in order. */
  datatype Run = Run(status: int, effects: seq<Effect>)

  /**
   * The confirmation: from the provider number, cleaned and given the
   * sender's channel prefix, to the sender's address as it came in.
   */
  function Confirmation(cfg: Config, from: Option<string>): Outbound {
    var channel := Channel.Name(Channel.Classify(from));
    Outbound(
      cfg.accountSid, cfg.authToken,
      Channel.Format(Channel.Strip(cfg.twilioPhone), channel), Js.Render(from), ConfirmationText, None)
  }

  /**
   * The webhook. The model is asked, its answer or the fallback is stored, and
   * the confirmation is posted; a failure to extract or to store ends the
   * request with 500, and what becomes of the confirmation does not matter.
   */
  function Webhook(cfg: Config, from: Option<string>, body: Option<string>, now: string, w: World): Run {
    var p := Prepare(body, now, w);
    if p.Unreadable? || !w.accepts(p.record) then Run(500, [Asked(body)])
    else Run(200, [Asked(body), Saved(p.record), Posted(Confirmation(cfg, from))])
  }

  /** What the extraction of a message gives a handler: nothing it can read, or the extracted value and the record built from it. */
  datatype Prepared = Unreadable | Ready(extracted: Json, record: Entries.Fields)

  /** The extraction escaped or gave `null`, whose fields cannot be read; otherwise the record of the message. */
  function Prepare(body: Option<string>, now: string, w: World): Prepared {
    var x := Extraction.Extract(body, w.completion, w.parse);
    if x.Escaped? || x.value.Null? then Unreadable
    else Ready(x.value, Entries.EntryFields(now, body, x.value))
  }

  /** Asks the model about the message, builds the record and saves it; `ok` tells whether it was stored. */
  method Store(host: Host, body: Option<string>, now: string, w: World) returns (p: Prepared, ok: bool)
    modifies host
    ensures p == Prepare(body, now, w)
    ensures ok <==> p.Ready? && w.accepts(p.record)
    ensures host.log == old(host.log) + [Asked(body)] + (if ok then [Saved(p.record)] else [])
  {
    var completion := host.Complete(body, w);
    var x := Extraction.Extract(body, completion, w.parse);
    if x.Escaped? || x.value.Null? {
      return Unreadable, false;
    }
    var record := Entries.BuildRecord(now, body, x.value);
    ok := host.Save(record, w);
    p := Ready(x.value, record.fields);
  }

  method HandleWebhook(
    host: Host, cfg: Config, from: Option<string>, body: Option<string>, now: string,
    w: World, confirmation: ProviderAnswer)
    returns (status: int)
    modifies host
    ensures status == Webhook(cfg, from, body, now, w).status
    ensures host.log == old(host.log) + Webhook(cfg, from, body, now, w).effects
  {
    var _, stored := Store(host, body, now, w);
    if stored {
      SendConfirmation(host, cfg, from, confirmation);
      status := 200;
    } else {
      status := 500;
    }
  }

  /** Posts the confirmation; its answer is not looked at. */
  method SendConfirmation(host: Host, cfg: Config, from: Option<string>, confirmation: ProviderAnswer)
    modifies host
    ensures host.log == old(host.log) + [Posted(Confirmation(cfg, from))]
  {
    var channel := Channel.Name(Channel.Classify(from));
    var header := Authorization(cfg.accountSid, cfg.authToken);
    var sender := Channel.Format(Channel.Strip(cfg.twilioPhone), channel);
    var message := Outbound(cfg.accountSid, cfg.authToken, sender, Js.Render(from), ConfirmationText, None);
    var _ := host.Post(message, header, confirmation);
  }

  /** The model is always asked first; the reply is 200 exactly when a record was stored, and the confirmation only follows a stored record. */
  lemma WebhookSavesBeforeConfirming(cfg: Config, from: Option<string>, body: Option<string>, now: string, w: World)
    ensures Webhook(cfg, from, body, now, w).status in {200, 500}
    ensures Webhook(cfg, from, body, now, w).effects[0] == Asked(body)
    ensures Webhook(cfg, from, body, now, w).status == 200 ==>
      |Webhook(cfg, from, body, now, w).effects| == 3 &&
      Webhook(cfg, from, body, now, w).effects[1].Saved? && Webhook(cfg, from, body, now, w).effects[2].Posted?
    ensures Webhook(cfg, from, body, now, w).status == 500 ==> Webhook(cfg, from, body, now, w).effects == [Asked(body)]
  {
  }

  /** Whether the model's answer is unusable: the call failed, did not answer 200, had no text, or its text does not parse. */
  predicate Unusable(w: World) {
    var c := w.completion;
    c.CallFailed? || c.status != 200 || c.text.None? || w.parse(Extraction.Cleaned(c.text.value)).None?
  }

  /** When the model is unusable the message is still stored, as the fallback record. */
  lemma OutageStoresFallback(cfg: Config, from: Option<string>, body: string, now: string, w: World)
    requires Unusable(w) && w.accepts(Entries.EntryFields(now, Some(body), Extraction.Fallback(body)))
    ensures Webhook(cfg, from, Some(body), now, w).status == 200
    ensures Webhook(cfg, from, Some(body), now, w).effects[1] == Saved(Entries.EntryFields(now, Some(body), Extraction.Fallback(body)))
  {
    Extraction.FallbackWhenUnusable(Some(body), w.completion, w.parse);
  }

  /** A store that takes exactly the records its schema admits. */
  ghost predicate SchemaStore(w: World) {
    forall r: Entries.Fields :: w.accepts(r) == Entries.Conforms(r)
  }

  /** With such a store, a non-empty message survives an unusable model. */
  lemma OutageWithSchemaStore(cfg: Config, from: Option<string>, body: string, now: string, w: World)
    requires Unusable(w) && SchemaStore(w) && body != "" && now != ""
    ensures Webhook(cfg, from, Some(body), now, w).status == 200
  {
    Entries.FallbackConforms(now, body);
    OutageStoresFallback(cfg, from, body, now, w);
  }

  /** An empty message is refused by such a store whatever the model says, since the text is required. */
  lemma EmptyMessageRefused(cfg: Config, from: Option<string>, now: string, w: World)
    requires SchemaStore(w)
    ensures Webhook(cfg, from, Some(""), now, w).status == 500
    ensures Webhook(cfg, from, Some(""), now, w).effects == [Asked(Some(""))]
  {
    var x := Extraction.Extract(Some(""), w.completion, w.parse);
    if !x.Escaped? && !x.value.Null? {
      EmptyTextNonConforming(now, x.value);
    }
  }

  /** A record whose text is empty does not fit the schema. */
  lemma EmptyTextNonConforming(now: string, x: Json)
    requires !x.Null?
    ensures !Entries.Conforms(Entries.EntryFields(now, Some(""), x))
  {
    var r := Entries.EntryFields(now, Some(""), x);
    Entries.FieldListed(Entries.RawText);
    assert r[Entries.RawText] == Some(Js.Str(""));
    assert !Entries.FieldConforms(r, Entries.RawText);
  }

  /** A missing message with an unusable model makes building the fallback throw: 500, nothing stored. */
  lemma AbsentMessageOutage(cfg: Config, from: Option<string>, now: string, w: World)
    requires Unusable(w)
    ensures Webhook(cfg, from, None, now, w) == Run(500, [Asked(None)])
  {
    Extraction.FallbackWhenUnusable(None, w.completion, w.parse);
  }

  /** A reply that parses to `null` cannot be read field by field: 500, nothing stored. */
  lemma NullReplyFails(cfg: Config, from: Option<string>, body: Option<string>, now: string, w: World)
    requires Extraction.ReplyText(w.completion).Some? && w.parse(Extraction.ReplyText(w.completion).value) == Some(Js.Null)
    ensures Webhook(cfg, from, body, now, w).status == 500
    ensures |Webhook(cfg, from, body, now, w).effects| == 1
  {
  }

  /**
   * The confirmation goes back to the sender's address as it came in, from the
   * provider number cleaned of its prefix and prefixed again for WhatsApp.
   */
  lemma ConfirmationAddressing(cfg: Config, from: Option<string>, body: Option<string>, now: string, w: World)
    requires Webhook(cfg, from, body, now, w).status == 200
    ensures Webhook(cfg, from, body, now, w).effects[2].Posted?
    ensures Webhook(cfg, from, body, now, w).effects[2].message.to == Js.Render(from)
    ensures Webhook(cfg, from, body, now, w).effects[2].message.body == ConfirmationText
    ensures Channel.Classify(from) == Channel.WhatsApp ==>
      Js.StartsWith(Webhook(cfg, from, body, now, w).effects[2].message.from, Channel.WhatsAppPrefix) &&
      Channel.Strip(Webhook(cfg, from, body, now, w).effects[2].message.from) == Channel.Strip(cfg.twilioPhone)
    ensures Channel.Classify(from) == Channel.Sms ==>
      Webhook(cfg, from, body, now, w).effects[2].message.from == Channel.Strip(cfg.twilioPhone)
  {
    Channel.StripFormatRoundTrip(Channel.Strip(cfg.twilioPhone), "sms");
  }

  /* ---------------------------------------------------------------------- */
  /* The status callback                                                     */
  /* ---------------------------------------------------------------------- */

  /** The fields of a delivery report; the handler only writes them to the log. */
  datatype StatusReport = StatusReport(
    messageSid: Option<string>, messageStatus: Option<string>,
    errorCode: Option<string>, errorMessage: Option<string>,
    to: Option<string>, from: Option<string>)

  /**
   * The status callback: every delivery report, one that reports an error
   * included, is acknowledged with 200, and nothing is asked, stored or sent.
   */
  method HandleStatusCallback(host: Host, report: StatusReport) returns (status: int)
    modifies host
    ensures status == 200
    ensures host.log == old(host.log)
  {
    status := 200;
  }

  /* ---------------------------------------------------------------------- */
  /* Sending the check-in prompt                                             */
  /* ---------------------------------------------------------------------- */

  /** The check-in question sent as the prompt. */
  const PromptText: string := "Quick check-in: Mood (1-5), Energy (L/M/H), Doing, Next hour?"
  const DefaultBaseUrl: string := "https://mood-intel-backend.fly.dev"
  const CallbackPath: string := "/api/sms/status-callback"

  const NotVerifiedText: string :=
    "Phone number not verified. For trial accounts, verify the number at: https://console.twilio.com/us1/develop/phone-numbers/manage/verified"
  const InvalidNumberText: string := "Invalid phone number format"
  const MisconfiguredText: string := "Twilio phone number not configured correctly"
  const GenericFailureText: string := "Failed to send prompt"

  /** How the send-prompt request ended. */
  datatype PromptReply =
    | MissingCredentials
    | PromptSent(to: string)
    | Rejected(status: int, message: Json, code: Option<Json>)
    | SendFailed  // the handler threw: the provider was unreachable, or a request field was not a string

  function ReplyStatus(r: PromptReply): int {
    if r.PromptSent? then 200 else 500
  }

  datatype PromptRun = PromptRun(reply: PromptReply, effects: seq<Effect>)

  /**
   * A field of a JSON request body that the handler reads with `||` and then
   * calls a string method on (`toUpperCase`, `replace`): a falsy value gives
   * way to the default, a string is used, and any other value makes the call
   * throw.
   */
  predicate UsableAsString(field: Option<Json>) {
    !Js.TruthyOpt(field) || field.value.Str?
  }

  function CallbackUrl(cfg: Config): string {
    Js.OrElse(Some(cfg.publicUrl), DefaultBaseUrl) + CallbackPath
  }

  /** The prompt message: both numbers cleaned and prefixed for the channel, with a delivery-report address. */
  function PromptMessage(cfg: Config, to: string, channel: string): Outbound {
    Outbound(
      cfg.accountSid, cfg.authToken,
      Channel.Format(Channel.Strip(cfg.twilioPhone), channel), Channel.Format(Channel.Strip(to), channel),
      PromptText, Some(CallbackUrl(cfg)))
  }

  /** The message shown for a refused post: three known error codes, else the provider's own message, else a generic one. */
  function UserMessage(error: Json): Json {
    var code := Js.OptionalMember(error, "code");
    var message := Js.OptionalMember(error, "message");
    if code == Some(Js.Num(21608.0)) then Js.Str(NotVerifiedText)
    else if code == Some(Js.Num(21211.0)) then Js.Str(InvalidNumberText)
    else if code == Some(Js.Num(21606.0)) then Js.Str(MisconfiguredText)
    else if Js.TruthyOpt(message) then message.value
    else Js.Str(GenericFailureText)
  }

  /**
   * The send-prompt endpoint; the recipient and the channel default to the own
   * number and SMS. The channel is upper-cased for a log line before the
   * credentials are checked, and the recipient is cleaned after.
   */
  function SendPrompt(cfg: Config, phone: Option<Json>, channel: Option<Json>, answer: ProviderAnswer): PromptRun {
    var to := Js.OrValue(phone, Js.Str(cfg.ownPhone));
    var ch := Js.OrValue(channel, Js.Str("sms"));
    if !ch.Str? then PromptRun(SendFailed, [])
    else if cfg.accountSid == "" || cfg.authToken == "" then PromptRun(MissingCredentials, [])
    else if !to.Str? then PromptRun(SendFailed, [])
    else
      var reply :=
        match answer
        case Unreachable => SendFailed
        case Replied(status, json) =>
          if status == 201 || status == 200 then PromptSent(to.s)
          else Rejected(status, UserMessage(json), Js.OptionalMember(json, "code"));
      PromptRun(reply, [Posted(PromptMessage(cfg, to.s, ch.s))])
  }

  method HandleSendPrompt(host: Host, cfg: Config, phone: Option<Json>, channel: Option<Json>, answer: ProviderAnswer)
    returns (reply: PromptReply)
    modifies host
    ensures reply == SendPrompt(cfg, phone, channel, answer).reply
    ensures host.log == old(host.log) + SendPrompt(cfg, phone, channel, answer).effects
  {
    var to := Js.OrValue(phone, Js.Str(cfg.ownPhone));
    var ch := Js.OrValue(channel, Js.Str("sms"));
    if !ch.Str? {
      return SendFailed;
    }
    if cfg.accountSid == "" || cfg.authToken == "" {
      return MissingCredentials;
    }
    var header := Authorization(cfg.accountSid, cfg.authToken);
    if !to.Str? {
      return SendFailed;
    }
    var sender := Channel.Format(Channel.Strip(cfg.twilioPhone), ch.s);
    var recipient := Channel.Format(Channel.Strip(to.s), ch.s);
    var message := Outbound(cfg.accountSid, cfg.authToken, sender, recipient, PromptText, Some(CallbackUrl(cfg)));
    var a := host.Post(message, header, answer);
    match a
    case Unreachable =>
      reply := SendFailed;
    case Replied(status, json) =>
      if status == 201 || status == 200 {
        reply := PromptSent(to.s);
      } else {
        reply := Rejected(status, UserMessage(json), Js.OptionalMember(json, "code"));
      }
  }

  /**
   * Without an account id or a token nothing is sent and the reply is 500;
   * with both, and with fields that can be read as strings, exactly one message
   * is posted.
   */
  lemma CredentialsGuard(cfg: Config, phone: Option<Json>, channel: Option<Json>, answer: ProviderAnswer)
    ensures SendPrompt(cfg, phone, channel, answer).reply == MissingCredentials <==>
      UsableAsString(channel) && (cfg.accountSid == "" || cfg.authToken == "")
    ensures SendPrompt(cfg, phone, channel, answer).reply == MissingCredentials ==> SendPrompt(cfg, phone, channel, answer).effects == []
    ensures SendPrompt(cfg, phone, channel, answer).effects != [] <==>
      UsableAsString(channel) && UsableAsString(phone) && cfg.accountSid != "" && cfg.authToken != ""
    ensures SendPrompt(cfg, phone, channel, answer).effects != [] ==>
      |SendPrompt(cfg, phone, channel, answer).effects| == 1 && SendPrompt(cfg, phone, channel, answer).effects[0].Posted?
  {
  }

  /**
   * A channel that is truthy but not a string makes `toUpperCase` throw before
   * anything else; a recipient that is truthy but not a string makes `replace`
   * throw before the post. Either way the reply is 500 and nothing is sent.
   */
  lemma NonStringFieldThrows(cfg: Config, phone: Option<Json>, channel: Option<Json>, answer: ProviderAnswer)
    ensures !UsableAsString(channel) ==>
      SendPrompt(cfg, phone, channel, answer) == PromptRun(SendFailed, [])
    ensures UsableAsString(channel) && cfg.accountSid != "" && cfg.authToken != "" && !UsableAsString(phone) ==>
      SendPrompt(cfg, phone, channel, answer) == PromptRun(SendFailed, [])
  {
  }

  /** The request succeeds exactly when the fields are usable, the credentials are there and the provider answers 200 or 201. */
  lemma PromptSucceedsIff(cfg: Config, phone: Option<Json>, channel: Option<Json>, answer: ProviderAnswer)
    ensures ReplyStatus(SendPrompt(cfg, phone, channel, answer).reply) == 200 <==>
      UsableAsString(channel) && UsableAsString(phone) &&
      cfg.accountSid != "" && cfg.authToken != "" && answer.Replied? && (answer.status == 200 || answer.status == 201)
  {
  }

  /** The prompt is the question the extraction prompt quotes, sent to the cleaned recipient only prefixed for `whatsapp`. */
  lemma PromptAddressing(cfg: Config, phone: Option<Json>, channel: Option<Json>, answer: ProviderAnswer)
    requires cfg.accountSid != "" && cfg.authToken != "" && UsableAsString(channel) && UsableAsString(phone)
    ensures SendPrompt(cfg, phone, channel, answer).effects[0].message.body == Extraction.Question
    ensures SendPrompt(cfg, phone, channel, answer).effects[0].message.statusCallback == Some(CallbackUrl(cfg))
    ensures channel == Some(Js.Str("whatsapp")) ==>
      Channel.Strip(SendPrompt(cfg, phone, channel, answer).effects[0].message.to) ==
        Channel.Strip(Js.OrValue(phone, Js.Str(cfg.ownPhone)).s) &&
      Channel.Classify(Some(SendPrompt(cfg, phone, channel, answer).effects[0].message.to)) == Channel.WhatsApp
    ensures channel != Some(Js.Str("whatsapp")) ==>
      SendPrompt(cfg, phone, channel, answer).effects[0].message.to == Channel.Strip(Js.OrValue(phone, Js.Str(cfg.ownPhone)).s)
  {
    var to := Js.OrValue(phone, Js.Str(cfg.ownPhone));
    Channel.StripFormatRoundTrip(Channel.Strip(to.s), "whatsapp");
  }

  /** The delivery-report address is the public address, or the default one, followed by the callback path. */
  lemma CallbackUrlShape(cfg: Config)
    ensures cfg.publicUrl != "" ==> CallbackUrl(cfg) == cfg.publicUrl + CallbackPath
    ensures cfg.publicUrl == "" ==> CallbackUrl(cfg) == "https://mood-intel-backend.fly.dev/api/sms/status-callback"
  {
  }

  /** Whether the error carries one of the three codes the handler explains. */
  predicate KnownCode(error: Json) {
    error.Obj? && "code" in error.members &&
    (error.members["code"] == Js.Num(21608.0) || error.members["code"] == Js.Num(21211.0) || error.members["code"] == Js.Num(21606.0))
  }

  /** The message shown for a refused post is never empty, and a known error code wins over the provider's message. */
  lemma UserMessageFacts(error: Json, message: Json)
    ensures Js.Truthy(UserMessage(error))
    ensures KnownCode(error) ==>
      UserMessage(error) == UserMessage(Js.Obj(error.members["message" := message]))
    ensures error.Obj? && "message" in error.members && Js.Truthy(error.members["message"]) && !KnownCode(error) ==>
      UserMessage(error) == error.members["message"]
  {
    if error.Obj? {
      var m := error.members["message" := message];
      assert "code" in error.members ==> m["code"] == error.members["code"];
      assert ("code" in m) == ("code" in error.members);
    }
  }

  /** The code is compared strictly: a code sent as the text "21608" is not recognised. */
  lemma CodeComparedStrictly()
    ensures UserMessage(Js.Obj(map["code" := Js.Str("21608")])) == Js.Str(GenericFailureText)
  {
  }

  /* ---------------------------------------------------------------------- */
  /* Simulating an inbound message                                           */
  /* ---------------------------------------------------------------------- */

  /** The message simulated when none is given: "4, M, working from cafe, probably code some more", written word by word. */
  const DefaultTestMessage: string :=
    "4," + " " + ("M," + " " + ("working" + " " + ("from" + " " + ("cafe," + " " + ("probably" + " " + ("code" + " " + ("some" + " " + "more")))))))

  /** How a simulated message ended: the entry was created with this text and extraction, or the request failed. */
  datatype TestReply = TestCreated(rawText: string, extracted: Json) | TestFailed

  datatype TestRun = TestRun(reply: TestReply, effects: seq<Effect>)

  /**
   * The test endpoint: the webhook's extraction and record on the given or the
   * default message, without any confirmation. The sender is cleaned with
   * `replace` and the channel upper-cased for a log line before the model is
   * asked, so a sender or a channel that is truthy but not a string ends the
   * request at once; otherwise they only reach the log.
   */
  function TestInbound(message: Option<string>, from: Option<Json>, channel: Option<Json>, now: string, w: World): TestRun {
    var text := Js.OrElse(message, DefaultTestMessage);
    if !UsableAsString(from) || !UsableAsString(channel) then TestRun(TestFailed, [])
    else
      var p := Prepare(Some(text), now, w);
      if p.Unreadable? || !w.accepts(p.record) then TestRun(TestFailed, [Asked(Some(text))])
      else TestRun(TestCreated(text, p.extracted), [Asked(Some(text)), Saved(p.record)])
  }

  method HandleTestInbound(host: Host, message: Option<string>, from: Option<Json>, channel: Option<Json>, now: string, w: World)
    returns (reply: TestReply)
    modifies host
    ensures reply == TestInbound(message, from, channel, now, w).reply
    ensures host.log == old(host.log) + TestInbound(message, from, channel, now, w).effects
  {
    var text := Js.OrElse(message, DefaultTestMessage);
    if !UsableAsString(from) || !UsableAsString(channel) {
      return TestFailed;
    }
    var p, stored := Store(host, Some(text), now, w);
    reply := if stored then TestCreated(text, p.extracted) else TestFailed;
  }

  /** A sender or a channel that cannot be used as a string fails the request before the model is asked. */
  lemma TestFieldsGuard(message: Option<string>, from: Option<Json>, channel: Option<Json>, now: string, w: World)
    ensures TestInbound(message, from, channel, now, w).effects != [] <==> UsableAsString(from) && UsableAsString(channel)
    ensures !UsableAsString(from) || !UsableAsString(channel) ==> TestInbound(message, from, channel, now, w).reply == TestFailed
  {
  }

  /**
   * With a sender and a channel it can read, the test endpoint handles a
   * non-empty message as the webhook does, minus the confirmation.
   */
  lemma TestMirrorsWebhook(
    cfg: Config, sender: Option<string>, from: Option<Json>, channel: Option<Json>, message: string, now: string, w: World)
    requires message != ""
    ensures TestInbound(Some(message), from, channel, now, w).reply.TestCreated? <==>
      UsableAsString(from) && UsableAsString(channel) && Webhook(cfg, sender, Some(message), now, w).status == 200
    ensures TestInbound(Some(message), from, channel, now, w).reply.TestCreated? ==>
      TestInbound(Some(message), from, channel, now, w).effects == Webhook(cfg, sender, Some(message), now, w).effects[..2]
    ensures UsableAsString(from) && UsableAsString(channel) && TestInbound(Some(message), from, channel, now, w).reply.TestFailed? ==>
      TestInbound(Some(message), from, channel, now, w).effects == Webhook(cfg, sender, Some(message), now, w).effects
  {
  }

  /** The test endpoint never posts a message. */
  lemma TestNeverSends(message: Option<string>, from: Option<Json>, channel: Option<Json>, now: string, w: World)
    ensures forall i | 0 <= i < |TestInbound(message, from, channel, now, w).effects| ::
      !TestInbound(message, from, channel, now, w).effects[i].Posted?
  {
  }

  /** An absent or empty message is replaced by the default one, which the fallback counts as nine words. */
  lemma TestDefaultMessage(message: Option<string>, from: Option<Json>, channel: Option<Json>, now: string, w: World)
    requires message.None? || message == Some("")
    requires TestInbound(message, from, channel, now, w).reply.TestCreated?
    ensures TestInbound(message, from, channel, now, w).reply.rawText == DefaultTestMessage
    ensures Extraction.WordCount(DefaultTestMessage) == 9
  {
    DefaultMessageWords();
  }

  predicate IsWord(a: string) {
    a != [] && Extraction.NoSpace(a)
  }

  /** Nine words joined by single spaces count as nine. */
  lemma NineWords(a0: string, a1: string, a2: string, a3: string, a4: string, a5: string, a6: string, a7: string, a8: string)
    requires IsWord(a0) && IsWord(a1) && IsWord(a2) && IsWord(a3) && IsWord(a4)
    requires IsWord(a5) && IsWord(a6) && IsWord(a7) && IsWord(a8)
    ensures Extraction.WordCount(
      a0 + " " + (a1 + " " + (a2 + " " + (a3 + " " + (a4 + " " + (a5 + " " + (a6 + " " + (a7 + " " + a8)))))))) == 9
  {
    Extraction.OneWord(a8);
    var s7 := a7 + " " + a8;
    Extraction.OneMoreWord(a7, a8);
    var s6 := a6 + " " + s7;
    Extraction.OneMoreWord(a6, s7);
    var s5 := a5 + " " + s6;
    Extraction.OneMoreWord(a5, s6);
    var s4 := a4 + " " + s5;
    Extraction.OneMoreWord(a4, s5);
    var s3 := a3 + " " + s4;
    Extraction.OneMoreWord(a3, s4);
    var s2 := a2 + " " + s3;
    Extraction.OneMoreWord(a2, s3);
    var s1 := a1 + " " + s2;
    Extraction.OneMoreWord(a1, s2);
    Extraction.OneMoreWord(a0, s1);
  }

  lemma DefaultMessageWords()
    ensures Extraction.WordCount(DefaultTestMessage) == 9
  {
    assert IsWord("4,") && IsWord("M,") && IsWord("working") && IsWord("from") && IsWord("cafe,");
    assert IsWord("probably") && IsWord("code") && IsWord("some") && IsWord("more");
    NineWords("4,", "M,", "working", "from", "cafe,", "probably", "code", "some", "more");
  }

  /** With a schema store and an unusable model, a simulated message is stored exactly when the sender and the channel can be read. */
  lemma TestOutageStored(message: Option<string>, from: Option<Json>, channel: Option<Json>, now: string, w: World)
    requires Unusable(w) && SchemaStore(w) && now != ""
    ensures TestInbound(message, from, channel, now, w).reply.TestCreated? <==> UsableAsString(from) && UsableAsString(channel)
  {
    var text := Js.OrElse(message, DefaultTestMessage);
    Extraction.FallbackWhenUnusable(Some(text), w.completion, w.parse);
    Entries.FallbackConforms(now, text);
  }
}
