# Okta telephony inline hook → ACS SMS, modelled in Dafny

The system is an HTTP-triggered function. The identity provider Okta calls it during sign-in
with a telephony inline-hook request. It optionally checks the caller with HTTP Basic
authentication. It sends the one-time code by SMS through Azure Communication Services (ACS)
from a short code. It always answers HTTP 200 with one `com.okta.telephony.action` command
whose status is SUCCESS or FAILED.

All of it lives in `telephony_hook/__init__.py`. The model is purely functional, as the source is:

- `Template` (`_render_message`): Python's `str.replace` over `seq<char>`, and the renderer with
  its fallback text and its three placeholder spellings replaced in a fixed order. Its meaning is
  proved against a reference: a template read as literal text and placeholders renders to the
  text with the code in every placeholder.
- `Base64` and `Utf8`: the two encodings behind the Basic credentials, `base64.b64encode` and
  `str.encode()`. Each has a decoder, and decoding is proved to undo encoding.
- `BasicAuth` (`_authorized`): the gate. It is proved to admit exactly the header
  `"Basic " + base64(utf8("okta:" + secret))`, and that header gives back the secret when read as
  in section 2 of RFC 7617.
- `HookResponse` (`_ok` and the HTTP answer): one command with the passed status and the default
  transaction id and metadata. A reader of that shape is proved to be its exact inverse.
- `Json`: the parsed body, with Python's truthiness, `dict.get` and `str()`.
- `Handler` (`main`): a function of the Authorization header, the three environment variables,
  the parsed body (or a body that is not JSON), and the behaviour of the SMS service. It returns
  the HTTP answer and the SMS request it sent, if it sent one. Exceptions inside the `try` become
  values and end in FAILED/`exception`.
- `HandlerProperties`: the order of the checks, when a send happens, and when the answer is
  SUCCESS.

Behaviour of the code that a reader might not expect, and that the model follows:

- When the service reports a failed send, the code answers FAILED with the service's message id
  as transaction id and the metadata `shortcode`.
- `otpCode` goes through `str()` whatever its JSON type, arrays and objects included.
- The SMS channel test is `upper() == "SMS"`. This also admits the long s (U+017F), whose upper
  case is `S`.
- A body that is valid JSON but not an object ends in FAILED/`exception`, not `invalid_json`.
  So does a true `data` or `messageProfile` that is not an object, and a true `phoneNumber` or
  `deliveryChannel` that is not text.

## Model

| member | source | states |
|---|---|---|
| `Template.ReplaceAll` | telephony_hook/__init__.py:64 | `str.replace` of one placeholder; a text in which the placeholder does not occur comes back unchanged |
| `Template.ReplaceAllLength` | telephony_hook/__init__.py:64 | each non-overlapping occurrence found left to right changes the length by the difference between code and placeholder |
| `Template.RenderMessage` | telephony_hook/__init__.py:57-65 | an absent or empty template gives exactly "Your verification code is " followed by the code |
| `Template.FallbackExample` | telephony_hook/__init__.py:61-62 | absent or empty template with code "42" gives "Your verification code is 42" |
| `Template.NoPlaceholderUnchanged` | telephony_hook/__init__.py:63-65 | a non-empty template without `{otpCode}` is sent unchanged, since every spelling contains `{otpCode}` |
| `Template.ContainsTransitive` | telephony_hook/__init__.py:64 | if `{otpCode}` occurs in a placeholder that occurs in the template, it occurs in the template |
| `Template.Pass` | telephony_hook/__init__.py:64 | one `.replace` pass turns exactly the placeholders of its own spelling into the code and leaves other text and the later spellings intact, provided no text piece contains the first character of the placeholder being replaced (`ReadyFor`) |
| `Template.SingleUnderDouble` | telephony_hook/__init__.py:64 | the `{{otpCode}}` pass leaves a `{otpCode}` placeholder untouched |
| `Template.RenderFillsPlaceholders` | telephony_hook/__init__.py:57-65 | for a non-empty template of literal text (no `$`, no `{`) and placeholders of any of the three spellings, and a code without `{`, the message is the text with the code in place of every placeholder |
| `Template.DollarFormFirst` | telephony_hook/__init__.py:64 | literal text (no `$`, no `{`) followed by `${otpCode}`, with a code without `{`, renders as that text followed by the code, with no stray `$` (so "Code: ${otpCode}" with "123456" gives "Code: 123456") |
| `Template.SingleBraceFirstLeavesDollar` | telephony_hook/__init__.py:64 | for a text without `{` followed by `${otpCode}`, replacing `{otpCode}` first would leave a stray `$` before the code (text + "$" + code), so the fixed order matters |
| `Template.MixedBraceForms` | telephony_hook/__init__.py:64 | "{{otpCode}}-{otpCode}" renders as code + "-" + code for any code without `{` (so "9" gives "9-9") |
| `Base64.Encode` | telephony_hook/__init__.py:54 | base64 of section 4 of RFC 4648: length 4·⌈n/3⌉, only alphabet symbols and `=` |
| `Base64.DecodeEncode` | telephony_hook/__init__.py:54 | decoding the base64 text gives back the bytes |
| `Base64.EncodeInjective` | telephony_hook/__init__.py:54 | different byte strings have different base64 texts |
| `Utf8.EncodeChar` | telephony_hook/__init__.py:54 | one to four bytes per character, one byte equal to the code point for ASCII |
| `Utf8.Encode` | telephony_hook/__init__.py:54 | the UTF-8 form of a text has between one and four bytes per character |
| `Utf8.DecodeFirstEncodeChar` | telephony_hook/__init__.py:54 | the encoding of a character, followed by anything, decodes back to that character |
| `Utf8.DecodeEncode` | telephony_hook/__init__.py:54 | decoding the UTF-8 bytes of a text gives back the text |
| `Utf8.EncodeInjective` | telephony_hook/__init__.py:54 | different texts have different UTF-8 bytes |
| `Utf8.EncodeAppend` | telephony_hook/__init__.py:54 | the encoding of `"okta:" + secret` is the encoding of `"okta:"` followed by that of the secret |
| `Utf8.EncodeAscii` | telephony_hook/__init__.py:54 | ASCII text encodes to one byte per character, equal to its code |
| `BasicAuth.ExpectedHeader` | telephony_hook/__init__.py:54 | the expected header starts with "Basic " and has a non-empty credential |
| `BasicAuth.Authorized` | telephony_hook/__init__.py:45-55 | with no or an empty secret every header passes, including none; with a secret the gate passes iff the header equals the expected header, and a missing header reads as "" (`HeaderValue`, line 53) |
| `BasicAuth.ExtractExpected` | telephony_hook/__init__.py:53-55 | the expected header, read back as Basic credentials, yields user "okta" and exactly the secret |
| `BasicAuth.AdmittedHeaderCarriesSecret` | telephony_hook/__init__.py:53-55 | any header the gate admits is present and carries the configured secret |
| `BasicAuth.DistinctSecretsDistinctHeaders` | telephony_hook/__init__.py:53-55 | two different non-empty secrets never admit the same header |
| `BasicAuth.MissingHeaderRefused` | telephony_hook/__init__.py:53-55 | with a secret configured, a request without Authorization header is refused |
| `BasicAuth.SecretXyzExample` | telephony_hook/__init__.py:47-55 | with secret "xyz" exactly the header "Basic b2t0YTp4eXo=" passes |
| `HookResponse.Ok` | telephony_hook/__init__.py:27-43 | exactly one command, type "com.okta.telephony.action", provider "ACS", status, transaction id and metadata passed through |
| `HookResponse.ReadOk` | telephony_hook/__init__.py:27-43 | reading the built response gives back status, id and metadata |
| `HookResponse.ReadableIsOk` | telephony_hook/__init__.py:27-43 | every response of the single-command shape is the one `_ok` builds from what it carries |
| `HookResponse.Reply` | telephony_hook/__init__.py:117-118 | the HTTP answer always has status 200 and carries the response |
| `HookResponse.FailedWith` | telephony_hook/__init__.py:74-75 | a failure answer is HTTP 200, FAILED, transaction id "unknown", and the reason as metadata |
| `Json.Get` | telephony_hook/__init__.py:84 | `dict.get`: None iff no member has the key, otherwise the value of the last member with it |
| `Json.AsMembers` | telephony_hook/__init__.py:84 | `x or {}` then `.get`: an object gives its own members, a missing or false value gives the empty dict, and any other true value raises |
| `Json.Digits` | telephony_hook/__init__.py:86 | the decimal form of a number is a non-empty digit string without leading zero |
| `Json.DigitsValueOfDigits` | telephony_hook/__init__.py:86 | the decimal digits of a number read back as that number |
| `Json.Str` | telephony_hook/__init__.py:86 | `str()`: text unchanged, integers in decimal (`IntText`: a minus sign for negatives, then `Digits`), anything else a non-empty text |
| `Handler.LeadingSpace` | telephony_hook/__init__.py:85 | the leading run of whitespace ends at the first non-space character |
| `Handler.TrimmedEnd` | telephony_hook/__init__.py:85 | the trailing run of whitespace starts after the last non-space character |
| `Handler.Strip` | telephony_hook/__init__.py:85 | `strip()` over Python's `str.isspace` set (`IsSpace`): the result sits in the text with only whitespace around it, neither starts nor ends with whitespace, and is empty iff the text is all whitespace |
| `Handler.ProfileMembers` | telephony_hook/__init__.py:84 | a body that is not an object raises; a missing or false `data`, or a `data` object with a missing or false `messageProfile`, reads as the empty profile; an object `messageProfile` gives its own members; a true `data` or `messageProfile` that is not an object raises |
| `Handler.TrueField` | telephony_hook/__init__.py:85-87 | the `x or default` test: a member counts only when it is there and true, truth being Python's truthiness (`Json.Truthy`: null, false, 0, "", [] and {} are false) |
| `Handler.ReadProfile` | telephony_hook/__init__.py:84-88 | raises iff the profile cannot be read or a true phone or channel is not text; otherwise the phone is stripped, the code is `str()` of a true `otpCode` (text unchanged, integers in decimal) and empty iff `otpCode` is missing or false, the channel is SMS iff it is missing, false, or upper-cases to "SMS", and the template is passed on |
| `Handler.TemplateText` | telephony_hook/__init__.py:61-64 | a missing or false template means the fallback, text is used as is, and any other true value raises in `.replace` |
| `Handler.FirstResult` | telephony_hook/__init__.py:112 | the single result, or the first of a list; an empty list raises |
| `Handler.TransactionId` | telephony_hook/__init__.py:114 | `message_id`, else `messageId`, else "unknown", an empty id counting as missing; never empty |
| `Handler.SendStatus` | telephony_hook/__init__.py:113-117 | SUCCESS iff `successful` is true, FAILED otherwise (also when missing) |
| `Handler.Handle` | telephony_hook/__init__.py:67-123 | every path answers HTTP 200 with one command, status SUCCESS or FAILED, a non-empty transaction id, and a metadata token from the fixed six; the guards are `Authorized`, `Servable` (line 91: phone, code and SMS channel) and `HasServiceConfig` (line 98: both ACS settings non-empty), in the source's order |
| `HandlerProperties.UnauthorizedFirst` | telephony_hook/__init__.py:73-75 | an unauthorized request gets FAILED/unauthorized and no send, whatever the body, configuration and service |
| `HandlerProperties.InvalidJsonSecond` | telephony_hook/__init__.py:78-82 | an authorized request whose body is not JSON gets FAILED/invalid_json and no send |
| `HandlerProperties.UnservableThird` | telephony_hook/__init__.py:90-93 | a readable profile (`ReadProfile` returns) with a missing phone, a missing code or a channel other than SMS gets FAILED/missing/unsupported and no send, whatever the configuration; an unreadable one, such as a non-text channel, is covered by `ExceptionPaths` instead |
| `HandlerProperties.EmptyProfileUnservable` | telephony_hook/__init__.py:84-93 | an object body whose `data` is missing, null or false, or whose `data` object has a missing, null or false `messageProfile`, is read as empty and gets FAILED/missing/unsupported and no send |
| `HandlerProperties.MissingConfigFourth` | telephony_hook/__init__.py:95-100 | a servable request without both ACS settings gets FAILED/missing ACS config and no send |
| `HandlerProperties.SendOnlyAfterChecks` | telephony_hook/__init__.py:102-110 | a send happens only after all checks pass; it goes from the short code to the single trimmed phone with the rendered message and a delivery report |
| `HandlerProperties.SuccessExactly` | telephony_hook/__init__.py:112-118 | SUCCESS iff all checks pass and the service's first result has `successful` true; then the id is the service's and the metadata "shortcode" |
| `HandlerProperties.ServiceVerdictPassedOn` | telephony_hook/__init__.py:102-118 | when the service returns a result, the SMS was sent and the answer is its status, its message id (or "unknown") and "shortcode" |
| `HandlerProperties.ExceptionPaths` | telephony_hook/__init__.py:120-123 | an unreadable profile gives FAILED/exception; so does, for a servable profile with both ACS settings, a failing client, a true template that is not text (a false one takes the fallback), a raising send or an empty result list |
| `HandlerProperties.AcceptedSendExample` | telephony_hook/__init__.py:84-118 | phone " +15550100 " and numeric code 42, no template, an accepting service with id "abc-123": the SMS goes to "+15550100" with the fallback text and the answer is SUCCESS/abc-123 |

## Left out

- HTTP plumbing: the `HttpRequest`/`HttpResponse` types, the MIME type and `json.dumps`. The response is a datatype with status code 200.
- JSON parsing: the body arrives parsed, or as `Malformed` when `get_json` raises ValueError. JSON numbers are integers only. Fractions, exponents, NaN and Infinity parse to Python floats, which are not modelled.
- The ACS SDK (`SmsClient.from_connection_string`, `sms.send`): a network call in a vendor library. Its behaviour is an input (client fails, send raises, one result, list of results). The request the handler passes to it is part of the output.
- Environment reads (`os.getenv`): the three variables are `Option<string>` inputs read once per call.
- `logging.exception`: a logging side effect only.
- Case-insensitive lookup of the Authorization header: done by the framework's header mapping.
- Json.Repr: `str()` of a non-empty list or object `otpCode` uses Python's `repr`. The model quotes strings with single quotes and does not escape them. It prints an object's members in body order, including repeated keys that the Python dict would hold once.
- Lone surrogates in the secret: Python could hold them (undecodable environment bytes) and `.encode()` would raise, giving FAILED/exception. Dafny characters are Unicode scalar values, so this path is not modelled.
- Handler.UpperIsSms: full Unicode upper-casing is not modelled. The test is stated directly over the characters whose upper case is `S` or `M`, which are the only ones that can produce "SMS".
- Timing of the header comparison: both the source and the model use plain equality. Constant-time comparison is not a property of either.
