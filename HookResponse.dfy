/** The answer to the telephony inline hook: one command, always with HTTP status 200
    (`_ok` and the `func.HttpResponse` calls in telephony_hook/__init__.py). */
module HookResponse {
  import opened Wrappers

  const ActionType: string := "com.okta.telephony.action"
  const Provider: string := "ACS"
  const Success: string := "SUCCESS"
  const Failed: string := "FAILED"
  const UnknownId: string := "unknown"
  const DefaultMetadata: string := "shortcode"
  const HttpOk: int := 200

  /** The `value` object of a command. */
  datatype CommandValue = CommandValue(status: string, provider: string,
                                       transactionId: string, transactionMetadata: string)

  /** A command; `commandType` is the JSON member `type`. */
  datatype Command = Command(commandType: string, value: CommandValue)

  /** The JSON body `{"commands": [...]}`. */
  datatype Response = Response(commands: seq<Command>)

  /** The HTTP answer: a status code and the JSON body. */
  datatype HttpReply = HttpReply(statusCode: int, body: Response)

  /** `_ok`: a single telephony action from provider ACS carrying the status, the
      transaction id (by default "unknown") and the metadata (by default "shortcode"). */
  function Ok(status: string, messageId: string := UnknownId, meta: string := DefaultMetadata): (r: Response)
    ensures |r.commands| == 1
    ensures r.commands[0].commandType == ActionType && r.commands[0].value.provider == Provider
    ensures r.commands[0].value.status == status
    ensures r.commands[0].value.transactionId == messageId
    ensures r.commands[0].value.transactionMetadata == meta
  {
    Response([Command(ActionType, CommandValue(status, Provider, messageId, meta))])
  }

  /** What the identity provider reads from a hook answer: the status, transaction id and
      metadata of its single ACS telephony action, or None when the body has another shape. */
  function ReadCommand(r: Response): Option<(string, string, string)>
  {
    if |r.commands| == 1 && r.commands[0].commandType == ActionType
       && r.commands[0].value.provider == Provider
    then
      var v := r.commands[0].value;
      Some((v.status, v.transactionId, v.transactionMetadata))
    else None
  }

  /** Every answer `_ok` builds is readable and gives back exactly what went in. */
  lemma ReadOk(status: string, messageId: string, meta: string)
    ensures ReadCommand(Ok(status, messageId, meta)) == Some((status, messageId, meta))
  {
  }

  /** Conversely, every readable answer is the one `_ok` builds from what it reads. */
  lemma ReadableIsOk(r: Response)
    requires ReadCommand(r).Some?
    ensures var (s, id, meta) := ReadCommand(r).value; r == Ok(s, id, meta)
  {
    assert r.commands == [r.commands[0]];
  }

  /** The HTTP answer for a hook response: always status 200, whatever the outcome. */
  function Reply(body: Response): (r: HttpReply)
    ensures r.statusCode == HttpOk && r.body == body
  {
    HttpReply(HttpOk, body)
  }

  /** The answer for a failure with the given reason token. */
  function FailedWith(reason: string): (r: HttpReply)
    ensures r.statusCode == HttpOk && ReadCommand(r.body) == Some((Failed, UnknownId, reason))
  {
    Reply(Ok(Failed, meta := reason))
  }
}
