/** Obtaining a usable access token for a Discord user: the stored token if
    it has not expired, otherwise a new one from the refresh-token grant
    (section 6 of RFC 6749), written back in place of the old one. The
    token endpoint is a function parameter from the refresh token sent to
    the response received; the clock reading is a parameter. */
module TokenClient {
  import opened Wrappers
  import opened OAuthTokens
  import opened Database

  /** How a token request can fail: the server's error response (its
      `error` code), a failed HTTP request, an unparsable response body, or
      another failure with a message. */
  datatype RequestTokenError = ServerResponse(code: string) | RequestFailed | ParseFailed | Other(message: string)

  /** The token endpoint answering a refresh-token grant. */
  type Exchange = string -> Result<OAuthToken, RequestTokenError>

  /** Why no active token could be obtained. `IncompleteTokenResponse`
      stands for the panic of unwrapping a response that lacks its lifetime
      or its refresh token. `DatabaseError` is never produced here: the
      modelled reads cannot fail and the token write is an upsert. */
  datatype TokenError =
    | UserNotAuthorized
    | DatabaseError(dbError: DbError)
    | OAuthError(oauthError: RequestTokenError)
    | IncompleteTokenResponse

  /** A token is refreshed only once its expiry lies strictly in the past. */
  predicate Expired(token: Token, now: int) {
    token.expiresAt < now
  }

  /** The token to use given the stored one: unauthorized without one; the
      stored token while it has not expired; otherwise the response to the
      refresh grant sent with the stored refresh token, converted at `now`. */
  function ActiveToken(stored: Option<Token>, now: int, exchange: Exchange): (r: Result<Token, TokenError>)
    ensures stored.None? ==> r == Err(UserNotAuthorized)
    ensures stored.Some? && !Expired(stored.value, now) ==> r == Ok(stored.value)
    ensures stored.Some? && Expired(stored.value, now) ==>
      var response := exchange(stored.value.refreshToken);
      && (response.Err? ==> r == Err(OAuthError(response.error)))
      && (response.Ok? && TryFromOAuth(response.value, now).Err? ==> r == Err(IncompleteTokenResponse))
      && (response.Ok? && TryFromOAuth(response.value, now).Ok? ==> r == Ok(TryFromOAuth(response.value, now).value))
    ensures r.Ok? ==> r.value.expiresAt >= now
  {
    match stored
    case None => Err(UserNotAuthorized)
    case Some(token) =>
      if Expired(token, now) then
        var oauthToken := IntoOAuth(token, now);
        match exchange(oauthToken.refreshToken.value)
        case Err(e) => Err(OAuthError(e))
        case Ok(response) =>
          match TryFromOAuth(response, now)
          case Err(_) => Err(IncompleteTokenResponse)
          case Ok(renewed) => Ok(renewed)
      else Ok(token)
  }

  /** A token that has not expired is used as it is: the token endpoint is
      not consulted, whatever it would answer. */
  lemma ActiveTokenSkipsExchange(token: Token, now: int, e1: Exchange, e2: Exchange)
    requires !Expired(token, now)
    ensures ActiveToken(Some(token), now, e1) == ActiveToken(Some(token), now, e2) == Ok(token)
  {
  }

  /** A token expiring exactly now is still used as it is. */
  lemma ExpiryIsExclusive(token: Token, exchange: Exchange)
    ensures ActiveToken(Some(token), token.expiresAt, exchange) == Ok(token)
  {
  }

  /** The token step shared by `get_active_token` and the role-connection
      update, inside a transaction: the result is `ActiveToken` of the stored
      token, a renewed token replaces the stored one, and nothing else is
      written. */
  method RefreshIfExpired(tx: Transaction, id: UserId, now: int, exchange: Exchange) returns (r: Result<Token, TokenError>)
    modifies tx
    ensures r == ActiveToken(GetToken(old(tx.tables), id), now, exchange)
    ensures r.Ok? ==> tx.tables == old(tx.tables).(tokens := old(tx.tables).tokens[id := r.value])
    ensures r.Err? ==> tx.tables == old(tx.tables)
  {
    var stored := GetToken(tx.tables, id);
    if stored.None? {
      return Err(UserNotAuthorized);
    }
    var token := stored.value;

    if Expired(token, now) {
      var oauthToken := IntoOAuth(token, now);
      var response := exchange(oauthToken.refreshToken.value);
      if response.Err? {
        return Err(OAuthError(response.error));
      }
      var converted := TryFromOAuth(response.value, now);
      if converted.Err? {
        return Err(IncompleteTokenResponse);
      }
      var written := tx.WriteToken(id, converted.value);
      token := written.value;
    } else {
      assert tx.tables.tokens[id := token] == tx.tables.tokens;
    }
    r := Ok(token);
  }

  /** `get_active_token`: commits a renewed token and returns it; on any
      failure the transaction is dropped and the stored token stays. */
  method GetActiveToken(pool: Pool, id: UserId, now: int, exchange: Exchange) returns (r: Result<Token, TokenError>)
    modifies pool
    ensures r == ActiveToken(GetToken(old(pool.tables), id), now, exchange)
    ensures r.Ok? ==> pool.tables == old(pool.tables).(tokens := old(pool.tables).tokens[id := r.value])
    ensures r.Err? ==> pool.tables == old(pool.tables)
    ensures r.Ok? ==> GetToken(pool.tables, id) == Some(r.value) && r.value.expiresAt >= now
  {
    var tx := new Transaction.Begin(pool);
    r := RefreshIfExpired(tx, id, now, exchange);
    if r.Err? {
      return;
    }
    tx.Commit();
  }
}
