/** The optional caller check (`_authorized` in telephony_hook/__init__.py): the Basic
    authentication scheme of section 2 of RFC 7617 with the fixed user-id "okta". */
module BasicAuth {
  import opened Wrappers
  import Base64
  import Utf8

  const User: string := "okta"
  const Scheme: string := "Basic "

  /** The header value a configured secret admits: "Basic ", then the base64 text of the
      UTF-8 bytes of "okta:" followed by the secret. */
  function ExpectedHeader(secret: string): (h: string)
    ensures |h| > |Scheme| && h[..|Scheme|] == Scheme
  {
    Scheme + Base64.Encode(Utf8.Encode(User + ":" + secret))
  }

  /** The header as the handler reads it: a missing header reads as the empty text. */
  function HeaderValue(header: Option<string>): string {
    if header.Some? then header.value else ""
  }

  /** The gate. With no secret, or an empty one, every request passes; otherwise the
      Authorization header must equal the expected header exactly. */
  function Authorized(secret: Option<string>, header: Option<string>): (r: bool)
    ensures secret.None? || secret.value == [] ==> r
    ensures secret.Some? && secret.value != [] ==> (r <==> HeaderValue(header) == ExpectedHeader(secret.value))
  {
    if secret.None? || secret.value == [] then true
    else HeaderValue(header) == ExpectedHeader(secret.value)
  }

  /** How a receiver of Basic credentials reads them back (section 2 of RFC 7617): drop
      "Basic ", decode the base64 text, decode the UTF-8 bytes, and split off the user-id
      "okta" and the colon; what remains is the password. */
  function ExtractSecret(header: string): Option<string> {
    if |header| < |Scheme| || header[..|Scheme|] != Scheme then None
    else match Base64.Decode(header[|Scheme|..])
      case None => None
      case Some(bytes) =>
        match Utf8.Decode(bytes)
        case None => None
        case Some(text) =>
          var prefix := User + ":";
          if |text| >= |prefix| && text[..|prefix|] == prefix then Some(text[|prefix|..]) else None
  }

  /** The expected header carries the secret: reading it back yields exactly that secret. */
  lemma ExtractExpected(secret: string)
    ensures ExtractSecret(ExpectedHeader(secret)) == Some(secret)
  {
    var text := User + ":" + secret;
    var h := ExpectedHeader(secret);
    assert h[|Scheme|..] == Base64.Encode(Utf8.Encode(text));
    Base64.DecodeEncode(Utf8.Encode(text));
    Utf8.DecodeEncode(text);
    assert text[..|User + ":"|] == User + ":";
    assert text[|User + ":"|..] == secret;
  }

  /** A header the gate admits names the configured secret. */
  lemma AdmittedHeaderCarriesSecret(secret: string, header: Option<string>)
    requires secret != [] && Authorized(Some(secret), header)
    ensures header.Some? && ExtractSecret(header.value) == Some(secret)
  {
    ExtractExpected(secret);
  }

  /** Two different secrets never admit the same header. */
  lemma DistinctSecretsDistinctHeaders(s1: string, s2: string, header: Option<string>)
    requires s1 != [] && s2 != []
    requires Authorized(Some(s1), header) && Authorized(Some(s2), header)
    ensures s1 == s2
  {
    AdmittedHeaderCarriesSecret(s1, header);
    AdmittedHeaderCarriesSecret(s2, header);
  }

  /** With a secret configured, a request without an Authorization header is refused. */
  lemma MissingHeaderRefused(secret: string)
    requires secret != []
    ensures !Authorized(Some(secret), None)
  {
  }

  lemma XyzBytes()
    ensures Utf8.Encode(User + ":" + "xyz") == [0x6f, 0x6b, 0x74, 0x61, 0x3a, 0x78, 0x79, 0x7a]
  {
    assert User + ":" + "xyz" == "okta:xyz";
    Utf8.EncodeAscii("okta:xyz");
  }

  lemma XyzTriples()
    ensures Base64.EncodeTriple(0x6f, 0x6b, 0x74) == "b2t0"
    ensures Base64.EncodeTriple(0x61, 0x3a, 0x78) == "YTp4"
    ensures Base64.Encode([0x79, 0x7a]) == "eXo="
  {
    assert Base64.Symbol(27) == 'b' && Base64.Symbol(54) == '2';
    assert Base64.Symbol(45) == 't' && Base64.Symbol(52) == '0';
    assert Base64.Symbol(24) == 'Y' && Base64.Symbol(19) == 'T';
    assert Base64.Symbol(41) == 'p' && Base64.Symbol(56) == '4';
    assert Base64.Symbol(30) == 'e' && Base64.Symbol(23) == 'X' && Base64.Symbol(40) == 'o';
  }

  lemma XyzBase64()
    ensures Base64.Encode([0x6f, 0x6b, 0x74, 0x61, 0x3a, 0x78, 0x79, 0x7a]) == "b2t0YTp4eXo="
  {
    var bytes: seq<Wrappers.byte> := [0x6f, 0x6b, 0x74, 0x61, 0x3a, 0x78, 0x79, 0x7a];
    var tail: seq<Wrappers.byte> := [0x61, 0x3a, 0x78, 0x79, 0x7a];
    assert bytes[3..] == tail;
    assert tail[3..] == [0x79, 0x7a];
    XyzTriples();
  }

  /** With the secret "xyz" the header "Basic b2t0YTp4eXo=" passes and nothing else does. */
  lemma SecretXyzExample(header: Option<string>)
    ensures Authorized(Some("xyz"), header) <==> header == Some("Basic b2t0YTp4eXo=")
  {
    XyzBytes();
    XyzBase64();
    assert ExpectedHeader("xyz") == "Basic b2t0YTp4eXo=";
  }
}
