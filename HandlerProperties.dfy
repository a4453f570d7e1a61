/** What the hook entry point promises, for every request, environment and service behaviour. */
module HandlerProperties {
  import opened Wrappers
  import opened Json
  import opened HookResponse
  import opened Handler
  import BasicAuth
  import Template

  /** The status, transaction id and metadata the identity provider reads from an answer. */
  function Verdict(h: Handled): Option<(string, string, string)> {
    ReadCommand(h.reply.body)
  }

  /** Check 1: an unauthorized caller is refused before anything else is looked at. */
  lemma UnauthorizedFirst(header: Option<string>, config: Config, body: Body, service: Service)
    requires !BasicAuth.Authorized(config.basicSecret, header)
    ensures Handle(header, config, body, service) == Handled(FailedWith(ReasonUnauthorized), None)
  {
  }

  /** Check 2: an authorized request whose body is not JSON. */
  lemma InvalidJsonSecond(header: Option<string>, config: Config, service: Service)
    requires BasicAuth.Authorized(config.basicSecret, header)
    ensures Handle(header, config, Malformed, service) == Handled(FailedWith(ReasonInvalidJson), None)
  {
  }

  /** Check 3: a readable profile without a phone number, without a code, or for a channel
      other than SMS is refused, whatever the configuration and the service. */
  lemma UnservableThird(header: Option<string>, config: Config, json: Json, service: Service)
    requires BasicAuth.Authorized(config.basicSecret, header)
    requires ReadProfile(json).Returns? && !Servable(ReadProfile(json).value)
    ensures Handle(header, config, Parsed(json), service) == Handled(FailedWith(ReasonMissing), None)
  {
  }

  /** A body whose `data` is missing, null or false, or whose `data` object has a missing,
      null or false `messageProfile`, is read as an empty profile and refused as
      missing/unsupported. */
  lemma EmptyProfileUnservable(header: Option<string>, config: Config, json: Json, service: Service)
    requires BasicAuth.Authorized(config.basicSecret, header)
    requires json.JObject?
    requires var data := Get(json.members, "data");
      || data.None? || !Truthy(data.value)
      || (data.value.JObject? && var profile := Get(data.value.members, "messageProfile");
            profile.None? || !Truthy(profile.value))
    ensures Handle(header, config, Parsed(json), service) == Handled(FailedWith(ReasonMissing), None)
  {
    assert ProfileMembers(json) == Returns([]);
    assert forall key :: TrueField([], key).None?;
  }

  /** Check 4: a servable request without both ACS settings is refused before any send. */
  lemma MissingConfigFourth(header: Option<string>, config: Config, json: Json, service: Service)
    requires BasicAuth.Authorized(config.basicSecret, header)
    requires ReadProfile(json).Returns? && Servable(ReadProfile(json).value)
    requires !HasServiceConfig(config)
    ensures Handle(header, config, Parsed(json), service) == Handled(FailedWith(ReasonConfig), None)
  {
  }

  /** A send happens only when all four checks pass and the template can be rendered; it
      goes from the short code to the one trimmed phone number, carries the rendered
      message and asks for a delivery report. */
  lemma SendOnlyAfterChecks(header: Option<string>, config: Config, body: Body, service: Service)
    requires Handle(header, config, body, service).sent.Some?
    ensures BasicAuth.Authorized(config.basicSecret, header)
    ensures body.Parsed? && ReadProfile(body.json).Returns?
    ensures var p := ReadProfile(body.json).value;
      && Servable(p)
      && HasServiceConfig(config)
      && !service.ClientRaises?
      && TemplateText(p.template).Returns?
      && Handle(header, config, body, service).sent.value
         == SmsRequest(config.fromShortcode.value, [p.phone],
                       Template.RenderMessage(TemplateText(p.template).value, p.code), true)
  {
  }

  /** The answer is SUCCESS exactly when every check passes, the service returns a first
      result, and that result says `successful` is true; the transaction id is then the
      service's message id and the metadata is "shortcode". */
  lemma SuccessExactly(header: Option<string>, config: Config, body: Body, service: Service)
    ensures Verdict(Handle(header, config, body, service)).value.0 == Success
        <==> && BasicAuth.Authorized(config.basicSecret, header)
             && body.Parsed? && ReadProfile(body.json).Returns?
             && Servable(ReadProfile(body.json).value)
             && HasServiceConfig(config)
             && TemplateText(ReadProfile(body.json).value.template).Returns?
             && (service.ReturnsOne? || service.ReturnsList?)
             && FirstResult(service).Returns?
             && FirstResult(service).value.successful == Some(true)
    ensures Verdict(Handle(header, config, body, service)).value.0 == Success ==>
      Verdict(Handle(header, config, body, service)).value
        == (Success, TransactionId(FirstResult(service).value), DefaultMetadata)
  {
    if BasicAuth.Authorized(config.basicSecret, header) && body.Parsed? {
      match ReadProfile(body.json)
      case Raises =>
      case Returns(p) =>
        if Servable(p) && HasServiceConfig(config) && !service.ClientRaises? && TemplateText(p.template).Returns? {
          if !service.SendRaises? {
            assert service.ReturnsOne? || service.ReturnsList?;
          }
        }
    }
  }

  /** When the service answers, the SMS was sent and the answer carries its verdict: SUCCESS or FAILED after
      `successful`, the message id (`message_id`, else `messageId`, else "unknown"), and
      the metadata "shortcode". */
  lemma ServiceVerdictPassedOn(header: Option<string>, config: Config, json: Json, service: Service)
    requires BasicAuth.Authorized(config.basicSecret, header)
    requires ReadProfile(json).Returns? && Servable(ReadProfile(json).value)
    requires HasServiceConfig(config)
    requires TemplateText(ReadProfile(json).value.template).Returns?
    requires service.ReturnsOne? || (service.ReturnsList? && service.results != [])
    ensures var first := if service.ReturnsOne? then service.result else service.results[0];
      Verdict(Handle(header, config, Parsed(json), service))
        == Some((SendStatus(first), TransactionId(first), DefaultMetadata))
    ensures var p := ReadProfile(json).value;
      Handle(header, config, Parsed(json), service).sent
        == Some(SmsRequest(config.fromShortcode.value, [p.phone],
                           Template.RenderMessage(TemplateText(p.template).value, p.code), true))
  {
  }

  /** Failures the handler does not foresee become FAILED/exception: an unreadable profile,
      a client that cannot be built, a template that is not text, a send that raises, or
      an empty result list. */
  lemma ExceptionPaths(header: Option<string>, config: Config, json: Json, service: Service)
    requires BasicAuth.Authorized(config.basicSecret, header)
    requires || ReadProfile(json).Raises?
             || (&& ReadProfile(json).Returns? && Servable(ReadProfile(json).value)
                 && HasServiceConfig(config)
                 && (|| service.ClientRaises?
                     || TemplateText(ReadProfile(json).value.template).Raises?
                     || service.SendRaises?
                     || service == ReturnsList([])))
    ensures Handle(header, config, Parsed(json), service).reply == FailedWith(ReasonException)
  {
  }

  /** The body of the example request below. */
  function ExampleBody(): Json {
    JObject([("data", JObject([("messageProfile",
      JObject([("phoneNumber", JString(" +15550100 ")), ("otpCode", JNumber(42))]))]))])
  }

  lemma ExampleStrip()
    ensures Strip(" +15550100 ") == "+15550100"
  {
    assert LeadingSpace(" +15550100 ") == 1;
    assert TrimmedEnd("+15550100 ") == 9;
  }

  lemma ExampleCode()
    ensures Str(JNumber(42)) == "42"
  {
    assert Digits(4) == "4";
    assert Digits(42) == "42";
  }

  lemma ExampleMembers(mp: seq<(string, Json)>)
    requires mp == [("phoneNumber", JString(" +15550100 ")), ("otpCode", JNumber(42))]
    ensures ProfileMembers(ExampleBody()) == Returns(mp)
    ensures TrueField(mp, "phoneNumber") == Some(JString(" +15550100 "))
    ensures TrueField(mp, "otpCode") == Some(JNumber(42))
    ensures TrueField(mp, "deliveryChannel") == None
    ensures Get(mp, "msgTemplate") == None
  {
  }

  lemma ExampleProfile()
    ensures ReadProfile(ExampleBody()) == Returns(Profile("+15550100", "42", true, None))
  {
    var mp := [("phoneNumber", JString(" +15550100 ")), ("otpCode", JNumber(42))];
    ExampleMembers(mp);
    ExampleStrip();
    ExampleCode();
  }

  /** A request for " +15550100 " with the numeric code 42 and no template, no secret
      configured, and a service that accepts it with message id "abc-123": the SMS goes to
      the trimmed number with the fallback text, and the answer is SUCCESS with transaction
      id "abc-123". */
  lemma AcceptedSendExample()
    ensures var config := Config(None, Some("endpoint=x;accesskey=y"), Some("12345"));
      var service := ReturnsList([SendResult(Some(true), Some("abc-123"), None)]);
      var h := Handle(None, config, Parsed(ExampleBody()), service);
      && Verdict(h) == Some((Success, "abc-123", DefaultMetadata))
      && h.sent == Some(SmsRequest("12345", ["+15550100"], Template.FallbackPrefix + "42", true))
  {
    var config := Config(None, Some("endpoint=x;accesskey=y"), Some("12345"));
    var service := ReturnsList([SendResult(Some(true), Some("abc-123"), None)]);
    ExampleProfile();
    ServiceVerdictPassedOn(None, config, ExampleBody(), service);
  }
}
