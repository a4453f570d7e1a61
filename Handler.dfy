/** The hook entry point (`main` in telephony_hook/__init__.py) as a function from the
    request, the environment and the SMS service's behaviour to the HTTP answer. */
module Handler {
  import opened Wrappers
  import opened Json
  import opened HookResponse
  import BasicAuth
  import Template

  /** The environment variables the handler reads on every call. */
  datatype Config = Config(
    basicSecret: Option<string>,       // OKTA_BASIC_SECRET
    connectionString: Option<string>,  // ACS_CONNECTION_STRING
    fromShortcode: Option<string>)     // ACS_FROM_SHORTCODE

  /** The request body: parsed JSON, or a body `get_json` refuses with ValueError. */
  datatype Body = Parsed(json: Json) | Malformed

  /** One per-recipient result of the SMS service. Each field is None when the attribute
      is missing or None; `messageIdSnake` is `message_id`, `messageIdCamel` is `messageId`. */
  datatype SendResult = SendResult(successful: Option<bool>,
                                   messageIdSnake: Option<string>,
                                   messageIdCamel: Option<string>)

  /** How the SMS service behaves for this request: building the client from the
      connection string raises, the send raises, or the send returns a single result
      or a list of results. */
  datatype Service =
    | ClientRaises
    | SendRaises
    | ReturnsOne(result: SendResult)
    | ReturnsList(results: seq<SendResult>)

  /** The one send the handler makes: sender short code, recipients, text, and whether a
      delivery report is asked for. */
  datatype SmsRequest = SmsRequest(sender: string, recipients: seq<string>,
                                   message: string, deliveryReport: bool)

  /** The handler's answer and the send it made, if it made one. */
  datatype Handled = Handled(reply: HttpReply, sent: Option<SmsRequest>)

  const ReasonUnauthorized: string := "unauthorized"
  const ReasonInvalidJson: string := "invalid_json"
  const ReasonMissing: string := "missing/unsupported"
  const ReasonConfig: string := "missing ACS config"
  const ReasonException: string := "exception"

  /** The fields read from `data.messageProfile`, after normalisation. */
  datatype Profile = Profile(phone: string, code: string, smsChannel: bool, template: Option<Json>)

  /** The characters Python's `str.strip()` removes: those for which `str.isspace()` holds. */
  predicate IsSpace(c: char) {
    var n := c as int;
    (0x09 <= n <= 0x0D) || (0x1C <= n <= 0x20) || n == 0x85 || n == 0xA0 || n == 0x1680
    || (0x2000 <= n <= 0x200A) || n == 0x2028 || n == 0x2029 || n == 0x202F || n == 0x205F
    || n == 0x3000
  }

  predicate AllSpace(s: string) {
    forall i :: 0 <= i < |s| ==> IsSpace(s[i])
  }

  /** The number of leading whitespace characters. */
  function LeadingSpace(s: string): (n: nat)
    ensures n <= |s| && AllSpace(s[..n]) && (n < |s| ==> !IsSpace(s[n]))
  {
    if s == [] || !IsSpace(s[0]) then 0
    else
      var n := 1 + LeadingSpace(s[1..]);
      assert forall i :: 1 <= i < n ==> s[..n][i] == s[1..][..n - 1][i - 1];
      n
  }

  /** The length of `s` without its trailing whitespace. */
  function TrimmedEnd(s: string): (n: nat)
    ensures n <= |s| && AllSpace(s[n..]) && (n > 0 ==> !IsSpace(s[n - 1]))
  {
    if s == [] || !IsSpace(s[|s| - 1]) then |s|
    else
      var n := TrimmedEnd(s[..|s| - 1]);
      assert forall i :: n <= i < |s| - 1 ==> s[i] == s[..|s| - 1][i];
      n
  }

  /** `r` sits in `s` at offset `i` with only whitespace around it. */
  predicate PaddedAt(s: string, r: string, i: int) {
    0 <= i <= |s| - |r| && s[i..i + |r|] == r && AllSpace(s[..i]) && AllSpace(s[i + |r|..])
  }

  /** `s.strip()`: the text without leading and trailing whitespace. */
  function Strip(s: string): (r: string)
    ensures exists i :: PaddedAt(s, r, i)
    ensures r != [] ==> !IsSpace(r[0]) && !IsSpace(r[|r| - 1])
    ensures r == [] <==> AllSpace(s)
  {
    var i := LeadingSpace(s);
    var t := s[i..];
    var j := TrimmedEnd(t);
    assert t[..j] == s[i..i + j];
    assert s[i + j..] == t[j..];
    assert PaddedAt(s, t[..j], i);
    t[..j]
  }

  /** The channel test `channel.upper() != "SMS"` for a text channel. Upper-casing yields
      "SMS" exactly for three-character texts whose characters upper-case to S, M, S;
      the characters whose upper case is S are `s`, `S` and U+017F (long s). */
  predicate UpperIsSms(s: string) {
    |s| == 3 && s[0] in {'s', 'S', '\U{017F}'} && s[1] in {'m', 'M'} && s[2] in {'s', 'S', '\U{017F}'}
  }

  /** Line 84: `(body.get("data") or {}).get("messageProfile") or {}`, the members of the
      message profile; raises when the body is not an object or when `data` or
      `messageProfile` is a true value that is not an object. */
  function ProfileMembers(body: Json): (r: Py<seq<(string, Json)>>)
    ensures !body.JObject? ==> r.Raises?
    ensures body.JObject? ==> var data := Get(body.members, "data");
      && (data.None? || !Truthy(data.value) ==> r == Returns([]))
      && (data.Some? && Truthy(data.value) && !data.value.JObject? ==> r.Raises?)
      && (data.Some? && data.value.JObject? ==> var profile := Get(data.value.members, "messageProfile");
            && (profile.None? || !Truthy(profile.value) ==> r == Returns([]))
            && (profile.Some? && profile.value.JObject? ==> r == Returns(profile.value.members))
            && (profile.Some? && Truthy(profile.value) && !profile.value.JObject? ==> r.Raises?))
  {
    if !body.JObject? then Raises
    else match AsMembers(Get(body.members, "data"))
      case Raises => Raises
      case Returns(data) => AsMembers(Get(data, "messageProfile"))
  }

  /** The value of a member when it is there and true, else None. */
  function TrueField(mp: seq<(string, Json)>, key: string): (r: Option<Json>)
    ensures r.Some? <==> Get(mp, key).Some? && Truthy(Get(mp, key).value)
    ensures r.Some? ==> r.value == Get(mp, key).value
  {
    var v := Get(mp, key);
    if v.Some? && Truthy(v.value) then v else None
  }

  /** A value that is there and is not text. */
  predicate NotText(v: Option<Json>) {
    v.Some? && !v.value.JString?
  }

  /** Lines 84-88: the normalised fields of the message profile. The phone number is the
      stripped text (empty when missing or false), the code is `str()` of the value (empty
      when missing or false), the channel is SMS when missing or false or when it upper-cases
      to "SMS". Raises where Python would: the profile cannot be read, or a true
      `phoneNumber` or `deliveryChannel` is not text. */
  function ReadProfile(body: Json): (r: Py<Profile>)
    ensures r.Raises? <==> || ProfileMembers(body).Raises?
                           || NotText(TrueField(ProfileMembers(body).value, "phoneNumber"))
                           || NotText(TrueField(ProfileMembers(body).value, "deliveryChannel"))
    ensures r.Returns? ==> var mp := ProfileMembers(body).value;
      && (TrueField(mp, "phoneNumber").None? ==> r.value.phone == [])
      && (TrueField(mp, "phoneNumber").Some? ==> r.value.phone == Strip(TrueField(mp, "phoneNumber").value.s))
      && (r.value.code == [] <==> TrueField(mp, "otpCode").None?)
      && (TrueField(mp, "otpCode").Some? ==> r.value.code == Str(TrueField(mp, "otpCode").value))
      && (r.value.smsChannel <==> TrueField(mp, "deliveryChannel").None?
                                  || UpperIsSms(TrueField(mp, "deliveryChannel").value.s))
      && r.value.template == Get(mp, "msgTemplate")
  {
    match ProfileMembers(body)
    case Raises => Raises
    case Returns(mp) =>
      var phoneField := TrueField(mp, "phoneNumber");
      var codeField := TrueField(mp, "otpCode");
      var channelField := TrueField(mp, "deliveryChannel");
      if phoneField.Some? && !phoneField.value.JString? then Raises
      else if channelField.Some? && !channelField.value.JString? then Raises
      else
        var phone := if phoneField.Some? then Strip(phoneField.value.s) else "";
        var code := if codeField.Some? then Str(codeField.value) else "";
        var sms := if channelField.Some? then UpperIsSms(channelField.value.s) else true;
        Returns(Profile(phone, code, sms, Get(mp, "msgTemplate")))
  }

  /** Line 91: the request can be served only with a phone number, a code and the SMS channel. */
  predicate Servable(p: Profile) {
    p.phone != [] && p.code != [] && p.smsChannel
  }

  /** Line 98: both ACS settings are present and non-empty. */
  predicate HasServiceConfig(c: Config) {
    c.connectionString.Some? && c.connectionString.value != []
    && c.fromShortcode.Some? && c.fromShortcode.value != []
  }

  /** The template as `_render_message` receives it: a false value means "use the
      fallback", text is used as it is, and any other true value raises in `.replace`. */
  function TemplateText(v: Option<Json>): (r: Py<Option<string>>)
    ensures r.Raises? <==> v.Some? && Truthy(v.value) && !v.value.JString?
    ensures r == Returns(None) <==> v.None? || !Truthy(v.value)
    ensures v.Some? && v.value.JString? && v.value.s != [] ==> r == Returns(Some(v.value.s))
  {
    if v.None? || !Truthy(v.value) then Returns(None)
    else if v.value.JString? then Returns(Some(v.value.s))
    else Raises
  }

  /** A text attribute that is there and true (non-empty). */
  predicate Present(v: Option<string>) {
    v.Some? && v.value != []
  }

  /** Lines 112-114: the first result when the service returned a list; raises on an empty list. */
  function FirstResult(s: Service): (r: Py<SendResult>)
    requires s.ReturnsOne? || s.ReturnsList?
    ensures s.ReturnsOne? ==> r == Returns(s.result)
    ensures s.ReturnsList? ==> (r.Raises? <==> s.results == [])
    ensures s.ReturnsList? && s.results != [] ==> r == Returns(s.results[0])
  {
    if s.ReturnsOne? then Returns(s.result)
    else if s.results == [] then Raises
    else Returns(s.results[0])
  }

  /** Line 114: `message_id`, else `messageId`, else "unknown"; an empty id counts as missing. */
  function TransactionId(r: SendResult): (id: string)
    ensures id != []
    ensures Present(r.messageIdSnake) ==> id == r.messageIdSnake.value
    ensures !Present(r.messageIdSnake) && Present(r.messageIdCamel) ==> id == r.messageIdCamel.value
    ensures !Present(r.messageIdSnake) && !Present(r.messageIdCamel) ==> id == UnknownId
  {
    if Present(r.messageIdSnake) then r.messageIdSnake.value
    else if Present(r.messageIdCamel) then r.messageIdCamel.value
    else UnknownId
  }

  /** Lines 113 and 117: SUCCESS exactly when `successful` is true. */
  function SendStatus(r: SendResult): (status: string)
    ensures status == Success <==> r.successful == Some(true)
    ensures status == Failed <==> r.successful != Some(true)
  {
    if r.successful == Some(true) then Success else Failed
  }

  /** `main`: six checks in order, each ending the request with one answer. Every path
      answers with HTTP 200 and exactly one ACS telephony command, whose status is SUCCESS
      or FAILED, whose transaction id is never empty, and whose metadata is one of the
      reason tokens or "shortcode". */
  function Handle(header: Option<string>, config: Config, body: Body, service: Service): (h: Handled)
    ensures h.reply.statusCode == HttpOk
    ensures ReadCommand(h.reply.body).Some?
    ensures var (status, id, meta) := ReadCommand(h.reply.body).value;
      && status in {Success, Failed}
      && id != []
      && meta in {ReasonUnauthorized, ReasonInvalidJson, ReasonMissing, ReasonConfig, ReasonException, DefaultMetadata}
  {
    if !BasicAuth.Authorized(config.basicSecret, header) then
      Handled(FailedWith(ReasonUnauthorized), None)
    else if body.Malformed? then
      Handled(FailedWith(ReasonInvalidJson), None)
    else match ReadProfile(body.json)
      case Raises => Handled(FailedWith(ReasonException), None)
      case Returns(p) =>
        if !Servable(p) then Handled(FailedWith(ReasonMissing), None)
        else if !HasServiceConfig(config) then Handled(FailedWith(ReasonConfig), None)
        else if service.ClientRaises? then Handled(FailedWith(ReasonException), None)
        else match TemplateText(p.template)
          case Raises => Handled(FailedWith(ReasonException), None)
          case Returns(template) =>
            var request := SmsRequest(config.fromShortcode.value, [p.phone],
                                      Template.RenderMessage(template, p.code), true);
            if service.SendRaises? then Handled(FailedWith(ReasonException), Some(request))
            else match FirstResult(service)
              case Raises => Handled(FailedWith(ReasonException), Some(request))
              case Returns(first) =>
                Handled(Reply(Ok(SendStatus(first), TransactionId(first))), Some(request))
  }
}
