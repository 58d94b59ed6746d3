/** The stored OAuth token and its conversion to and from the token
    response of the OAuth library (section 5.1 of RFC 6749). The stored
    form keeps an absolute expiry; the response form carries `expires_in`,
    the number of seconds the access token stays valid. Times are whole
    seconds; the clock reading is a parameter. */
module OAuthTokens {
  import opened Wrappers

  /** A token row as stored: access token, refresh token, absolute expiry. */
  datatype Token = Token(accessToken: string, refreshToken: string, expiresAt: int)

  /** The token types of the OAuth library's basic client. */
  datatype TokenType = Bearer | Mac | Extension(name: string)

  /** A token response: the access token, its type, the optional lifetime in
      seconds (an unsigned 64-bit count), the optional refresh token and the
      optional scopes. */
  datatype OAuthToken = OAuthToken(
    accessToken: string,
    tokenType: TokenType,
    expiresIn: Option<nat>,
    refreshToken: Option<string>,
    scopes: Option<seq<string>>)

  /** Whole seconds converted to the unsigned count the response holds;
      a negative count does not convert and becomes 0. */
  function SecondsOrZero(seconds: int): nat {
    if seconds < 0 then 0 else seconds
  }

  /** `Into<OAuthToken>`: a bearer token response with the same access and
      refresh tokens, valid for the seconds left until `expiresAt`, or 0
      seconds when that moment has passed. */
  function IntoOAuth(t: Token, now: int): (o: OAuthToken)
    ensures o.accessToken == t.accessToken && o.tokenType == Bearer
    ensures o.refreshToken == Some(t.refreshToken)
    ensures o.expiresIn.Some?
    ensures t.expiresAt >= now ==> now + o.expiresIn.value == t.expiresAt
    ensures t.expiresAt < now ==> o.expiresIn.value == 0
    ensures o.scopes.None?
  {
    // A fresh response has neither a refresh token nor a lifetime; both
    // are then set on it.
    var token := OAuthToken(t.accessToken, Bearer, None, None, None);
    var token := token.(refreshToken := Some(t.refreshToken));
    token.(expiresIn := Some(SecondsOrZero(t.expiresAt - now)))
  }

  /** `TryFrom<OAuthToken>`: fails (with the unit error) when the response
      lacks its lifetime or its refresh token; otherwise the stored token
      expires `expires_in` seconds after `now`. */
  function TryFromOAuth(o: OAuthToken, now: int): (r: Result<Token, ()>)
    ensures r.Ok? <==> o.expiresIn.Some? && o.refreshToken.Some?
    ensures r.Ok? ==> r.value.accessToken == o.accessToken
    ensures r.Ok? ==> r.value.refreshToken == o.refreshToken.value
    ensures r.Ok? ==> r.value.expiresAt == now + o.expiresIn.value
  {
    match o.expiresIn
    case None => Err(())
    case Some(seconds) =>
      match o.refreshToken
      case None => Err(())
      case Some(refresh) => Ok(Token(o.accessToken, refresh, now + seconds))
  }

  /** Converting to a response and back at the same moment keeps both
      token strings; the expiry becomes `max(expiresAt, now)`. */
  lemma RoundTrip(t: Token, now: int)
    ensures TryFromOAuth(IntoOAuth(t, now), now)
         == Ok(t.(expiresAt := if t.expiresAt < now then now else t.expiresAt))
  {
  }

  /** When the two conversions read clocks at most one second apart, a token
      that had not yet expired comes back with an expiry at most one second
      later than the original, as the conversion test checks. */
  lemma RoundTripWithinOneSecond(t: Token, before: int, after: int)
    requires before <= after <= before + 1
    requires t.expiresAt >= before
    ensures TryFromOAuth(IntoOAuth(t, before), after).Ok?
    ensures var back := TryFromOAuth(IntoOAuth(t, before), after).value;
      && back.accessToken == t.accessToken
      && back.refreshToken == t.refreshToken
      && 0 <= back.expiresAt - t.expiresAt <= 1
  {
  }
}
