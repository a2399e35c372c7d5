/** The server's helper for reading the bearer credential out of the request headers,
    and the step every controller takes before its own checks: read the credential and
    hand it to the verifier. */
module ServerUtils {
  import opened Common
  import opened JsText

  datatype HeaderError = HeaderNotFound | MalformedHeader

  /** The credential of an `Authorization` header: the header must be present and non-empty,
      and splitting it on single spaces must give exactly two pieces, of which the second is
      the credential. The first piece (the scheme) is not looked at. */
  function GetToken(authorization: Option<string>): (r: Result<string, HeaderError>)
    ensures r == Err(HeaderNotFound) <==> !Given(authorization)
    ensures r.Ok? <==> Given(authorization) && Occurrences(authorization.value, ' ') == 1
    ensures r.Ok? ==>
      var h := authorization.value;
      ' ' !in r.value && |r.value| < |h| &&
      h[|h| - |r.value| - 1] == ' ' && h[|h| - |r.value|..] == r.value
  {
    if !Given(authorization) then Err(HeaderNotFound)
    else
      var parts := Split(authorization.value, ' ');
      if |parts| != 2 then Err(MalformedHeader)
      else
        assert Join(parts, ' ') == authorization.value;
        assert Join(parts[1..], ' ') == parts[1];
        assert authorization.value == parts[0] + [' '] + parts[1];
        Ok(parts[1])
  }

  /** A scheme and a credential, neither holding a space, joined by one space, give the
      credential back. */
  lemma GetTokenRoundTrip(scheme: string, token: string)
    requires ' ' !in scheme && ' ' !in token
    ensures GetToken(Some(scheme + " " + token)) == Ok(token)
  {
    SplitAfterFirst(scheme, token, ' ');
    SplitWithoutSeparator(token, ' ');
  }

  /** Two consecutive spaces make three pieces or more, so the header is refused. */
  lemma DoubleSpaceIsMalformed(scheme: string, token: string)
    ensures GetToken(Some(scheme + "  " + token)) == Err(MalformedHeader)
  {
    var h := scheme + "  " + token;
    assert h == scheme + ("  " + token);
    OccurrencesAppend(scheme, "  " + token, ' ');
    assert ("  " + token)[1..] == " " + token;
    assert (" " + token)[1..] == token;
  }

  /** Reading the credential of a request and verifying it with `verify`, the signature
      check of the token library. A header the helper refuses counts as an invalid token. */
  function Credentials(authorization: Option<string>, verify: string -> Decoded): (d: Decoded)
    ensures !Given(authorization) ==> d == Invalid
    ensures d != Invalid ==> GetToken(authorization).Ok? && d == verify(GetToken(authorization).value)
  {
    match GetToken(authorization)
    case Err(_) => Invalid
    case Ok(token) => verify(token)
  }
}
