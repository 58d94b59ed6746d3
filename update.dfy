/** Refreshing a Discord user's role connection: obtain an active token,
    look up every linked Scratch account on ScratchDB, aggregate the
    results into the three metadata values and publish them with the
    user's access token.

    The lookups run concurrently and are collected in completion order;
    the model runs them one by one in an order given as a parameter. The
    token endpoint, the lookup and the publishing call are parameters. */
module Update {
  import opened Wrappers
  import opened RoleConnectionModel
  import opened RoleConnectionMetadata
  import opened OAuthTokens
  import opened Database
  import TokenClient
  import opened ScratchData

  /** A ScratchDB user lookup by username. */
  type Lookup = string -> Result<DbUser, ScratchApiError>

  /** Publishing a role connection with an access token; fails with the
      HTTP client's error message. */
  type Publish = (string, RoleConnection<RoleConnectionData>) -> Result<RoleConnection<RoleConnectionData>, string>

  /** Everything outside the process one update depends on: the clock, the
      token endpoint, ScratchDB, the completion order of `n` concurrent
      lookups, and the publishing endpoint. */
  datatype Env = Env(now: int, exchange: TokenClient.Exchange, lookup: Lookup, completion: nat -> seq<nat>, publish: Publish)

  /** `order` lists the positions `0..n-1`, each at least once, in `n` steps. */
  predicate IsOrdering(order: seq<nat>, n: nat) {
    && |order| == n
    && (forall j :: 0 <= j < |order| ==> order[j] < n)
    && (forall i :: 0 <= i < n ==> i in order)
  }

  ghost predicate ValidEnv(env: Env) {
    forall n: nat :: IsOrdering(env.completion(n), n)
  }

  // ---------------------------------------------------------------------
  // Fan-in.

  /** The results of the lookups taken in `order` until the first error. */
  function Collect(accounts: seq<ScratchAccount>, lookup: Lookup, order: seq<nat>): (r: Result<seq<DbUser>, ScratchApiError>)
    requires forall j :: 0 <= j < |order| ==> order[j] < |accounts|
    ensures r.Ok? <==> forall j :: 0 <= j < |order| ==> lookup(accounts[order[j]].username).Ok?
    ensures r.Ok? ==> |r.value| == |order|
    ensures r.Ok? ==> forall j :: 0 <= j < |order| ==> r.value[j] == lookup(accounts[order[j]].username).value
    ensures r.Err? ==> exists k :: (0 <= k < |order| && lookup(accounts[order[k]].username) == Err(r.error)
      && (forall j :: 0 <= j < k ==> lookup(accounts[order[j]].username).Ok?))
  {
    if |order| == 0 then Ok([])
    else
      var last := order[|order| - 1];
      match Collect(accounts, lookup, order[..|order| - 1])
      case Err(e) => Err(e)
      case Ok(users) =>
        match lookup(accounts[last].username)
        case Err(e) => Err(e)
        case Ok(user) => Ok(users + [user])
  }

  /** `fetch_scratch_data`: every linked account looked up, the results
      pushed in completion order; the first error in that order is returned
      instead. */
  method FetchScratchData(linked: seq<ScratchAccount>, lookup: Lookup, order: seq<nat>) returns (r: Result<seq<DbUser>, ScratchApiError>)
    requires IsOrdering(order, |linked|)
    ensures r == Collect(linked, lookup, order)
  {
    var accounts: seq<DbUser> := [];
    var j := 0;
    while j < |order|
      invariant 0 <= j <= |order|
      invariant Collect(linked, lookup, order[..j]) == Ok(accounts)
    {
      var result := lookup(linked[order[j]].username);
      assert order[..j + 1][..j] == order[..j];
      if result.Err? {
        return Err(result.error);
      }
      accounts := accounts + [result.value];
      j := j + 1;
    }
    assert order[..j] == order;
    r := Ok(accounts);
  }

  /** A successful fan-in holds one user per lookup, and the lookup of every
      linked account appears in it. */
  lemma CollectCoversEveryAccount(linked: seq<ScratchAccount>, lookup: Lookup, order: seq<nat>)
    requires IsOrdering(order, |linked|)
    ensures Collect(linked, lookup, order).Ok? <==> forall i :: 0 <= i < |linked| ==> lookup(linked[i].username).Ok?
    ensures Collect(linked, lookup, order).Ok? ==>
      && |Collect(linked, lookup, order).value| == |linked|
      && forall i :: 0 <= i < |linked| ==> lookup(linked[i].username).value in Collect(linked, lookup, order).value
  {
    var r := Collect(linked, lookup, order);
    if r.Ok? {
      forall i | 0 <= i < |linked|
        ensures lookup(linked[i].username).Ok? && lookup(linked[i].username).value in r.value
      {
        assert i in order;
        var j :| 0 <= j < |order| && order[j] == i;
        assert r.value[j] == lookup(linked[i].username).value;
      }
    } else {
      var k :| 0 <= k < |order| && lookup(linked[order[k]].username) == Err(r.error);
      assert !lookup(linked[order[k]].username).Ok?;
    }
  }

  // ---------------------------------------------------------------------
  // Aggregation.

  /** The followers an account counts with: 0 without statistics. */
  function Followers(user: DbUser): int {
    if user.statistics.Some? then user.statistics.value.followers else 0
  }

  /** The position `max_by_key` picks: an account with the most followers,
      the last such one in sequence order. */
  function MaxFollowersIndex(accounts: seq<DbUser>): (k: nat)
    requires |accounts| > 0
    ensures k < |accounts|
    ensures forall i :: 0 <= i < |accounts| ==> Followers(accounts[i]) <= Followers(accounts[k])
    ensures forall i :: k < i < |accounts| ==> Followers(accounts[i]) < Followers(accounts[k])
  {
    if |accounts| == 1 then 0
    else
      var k := MaxFollowersIndex(accounts[..|accounts| - 1]);
      if Followers(accounts[|accounts| - 1]) >= Followers(accounts[k]) then |accounts| - 1 else k
  }

  /** The least `joined` of the accounts. */
  function MinJoined(accounts: seq<DbUser>): (m: int)
    requires |accounts| > 0
    ensures forall i :: 0 <= i < |accounts| ==> m <= accounts[i].joined
    ensures exists i :: 0 <= i < |accounts| && accounts[i].joined == m
  {
    if |accounts| == 1 then accounts[0].joined
    else
      var rest := MinJoined(accounts[1..]);
      if accounts[0].joined <= rest then accounts[0].joined else rest
  }

  /** `find_metadata_values` (it panics on an empty list, which the
      precondition excludes): Scratcher if any account is one, the oldest
      account's creation, and followers and username taken together from
      the last account with the most followers. */
  function FindMetadataValues(accounts: seq<DbUser>): (rc: RoleConnection<RoleConnectionData>)
    requires |accounts| > 0
    ensures rc.platformName == Some("Scratch")
    ensures rc.metadata.scratcher <==> exists i :: 0 <= i < |accounts| && accounts[i].status == Some(Scratcher)
    ensures forall i :: 0 <= i < |accounts| ==> rc.metadata.joined <= accounts[i].joined
    ensures exists i :: 0 <= i < |accounts| && accounts[i].joined == rc.metadata.joined
    ensures exists k :: (0 <= k < |accounts|
      && rc.platformUsername == Some(accounts[k].username)
      && rc.metadata.followers == Followers(accounts[k])
      && (forall i :: k < i < |accounts| ==> Followers(accounts[i]) < Followers(accounts[k])))
    ensures forall i :: 0 <= i < |accounts| ==> Followers(accounts[i]) <= rc.metadata.followers
  {
    var scratcher := exists i :: 0 <= i < |accounts| && accounts[i].status == Some(Scratcher);
    var joined := MinJoined(accounts);
    var maxFollowers := accounts[MaxFollowersIndex(accounts)];
    RoleConnection(
      Some("Scratch"),
      Some(maxFollowers.username),
      RoleConnectionData(scratcher, Followers(maxFollowers), joined))
  }

  /** The published platform name meets the documented 50-character limit. */
  lemma PlatformNameWithinLimit(accounts: seq<DbUser>)
    requires |accounts| > 0
    ensures var rc := FindMetadataValues(accounts);
      |rc.platformName.value| <= 50 && (rc.platformUsername.Some? && |rc.platformUsername.value| <= 100 ==> ValidRoleConnection(rc))
  {
  }

  /** The three metadata values do not depend on the order of the accounts:
      any rearrangement gives the same values (only the username can
      differ, when several accounts tie on followers). */
  lemma MetadataIgnoresOrder(a: seq<DbUser>, b: seq<DbUser>)
    requires |a| > 0 && multiset(a) == multiset(b)
    ensures |b| > 0
    ensures FindMetadataValues(a).metadata == FindMetadataValues(b).metadata
  {
    assert forall u :: u in a <==> u in b by {
      forall u ensures u in a <==> u in b {
        assert u in a <==> u in multiset(a);
        assert u in b <==> u in multiset(b);
      }
    }
    assert |b| > 0 by {
      assert a[0] in b;
    }
    var ra := FindMetadataValues(a).metadata;
    var rb := FindMetadataValues(b).metadata;
    SameMembersSameMaximum(a, b);
    SameMembersSameMinimum(a, b);
    assert ra.scratcher == rb.scratcher by {
      if ra.scratcher {
        var i :| 0 <= i < |a| && a[i].status == Some(Scratcher);
        assert a[i] in b;
      }
      if rb.scratcher {
        var i :| 0 <= i < |b| && b[i].status == Some(Scratcher);
        assert b[i] in a;
      }
    }
  }

  lemma SameMembersSameMaximum(a: seq<DbUser>, b: seq<DbUser>)
    requires |a| > 0 && |b| > 0
    requires forall u :: u in a <==> u in b
    ensures FindMetadataValues(a).metadata.followers == FindMetadataValues(b).metadata.followers
  {
    var ka := MaxFollowersIndex(a);
    var kb := MaxFollowersIndex(b);
    assert a[ka] in b;
    assert b[kb] in a;
  }

  lemma SameMembersSameMinimum(a: seq<DbUser>, b: seq<DbUser>)
    requires |a| > 0 && |b| > 0
    requires forall u :: u in a <==> u in b
    ensures FindMetadataValues(a).metadata.joined == FindMetadataValues(b).metadata.joined
  {
    var ia :| 0 <= ia < |a| && a[ia].joined == MinJoined(a);
    var ib :| 0 <= ib < |b| && b[ib].joined == MinJoined(b);
    assert a[ia] in b;
    assert b[ib] in a;
  }

  /** Two accounts with equal followers: the published username is that of
      whichever lookup completed last, so it depends on completion order. */
  lemma TieGoesToLastAccount(first: DbUser, second: DbUser)
    requires Followers(first) == Followers(second)
    ensures FindMetadataValues([first, second]).platformUsername == Some(second.username)
    ensures FindMetadataValues([second, first]).platformUsername == Some(first.username)
  {
    assert [first, second][..1] == [first];
    assert [second, first][..1] == [second];
  }

  // ---------------------------------------------------------------------
  // The whole update.

  /** Why an update failed. `IncompleteTokenResponse` and `NoLinkedAccounts`
      stand for the panics of unwrapping an incomplete token response and of
      aggregating an empty account list. */
  datatype UpdateError =
    | UserNotAuthorized
    | DatabaseError(dbError: DbError)
    | OAuthError(oauthError: TokenClient.RequestTokenError)
    | ScratchApi(apiError: ScratchApiError)
    | ReqwestError(message: string)
    | IncompleteTokenResponse
    | NoLinkedAccounts

  /** Whether an error is a panic, which stops the spawned background updater. */
  predicate IsPanic(e: UpdateError) {
    e.IncompleteTokenResponse? || e.NoLinkedAccounts?
  }

  /** The token client's errors, as the update reports them. */
  function FromTokenError(e: TokenClient.TokenError): (u: UpdateError)
    ensures e.UserNotAuthorized? <==> u.UserNotAuthorized?
    ensures e.IncompleteTokenResponse? <==> u.IncompleteTokenResponse?
    ensures e.OAuthError? ==> u == OAuthError(e.oauthError)
    ensures e.DatabaseError? ==> u == DatabaseError(e.dbError)
  {
    match e
    case UserNotAuthorized => UserNotAuthorized
    case DatabaseError(d) => DatabaseError(d)
    case OAuthError(o) => OAuthError(o)
    case IncompleteTokenResponse => IncompleteTokenResponse
  }

  /** The outcome of updating `id`'s role connection against tables `t`:
      unauthorized without a stored token; otherwise, with an active token,
      the aggregate of all linked accounts' lookups, published with that
      token's access token. */
  function RoleConnectionUpdate(t: Tables, id: UserId, env: Env): (r: Result<RoleConnection<RoleConnectionData>, UpdateError>)
    requires ValidEnv(env)
    ensures GetToken(t, id).None? ==> r == Err(UserNotAuthorized)
    ensures r.Ok? ==> TokenClient.ActiveToken(GetToken(t, id), env.now, env.exchange).Ok?
    ensures r.Ok? ==> r.value.platformName == Some("Scratch")
    ensures var a := TokenClient.ActiveToken(GetToken(t, id), env.now, env.exchange);
      && (a.Err? ==> r == Err(FromTokenError(a.error)))
      && (r.Ok? ==> a.Ok? && env.publish(a.value.accessToken, r.value).Ok?)
  {
    match TokenClient.ActiveToken(GetToken(t, id), env.now, env.exchange)
    case Err(e) => Err(FromTokenError(e))
    case Ok(token) =>
      var linked := GetLinkedScratchAccounts(t, id);
      match Collect(linked, env.lookup, env.completion(|linked|))
      case Err(e) => Err(ScratchApi(e))
      case Ok(accounts) =>
        if |accounts| == 0 then Err(NoLinkedAccounts)
        else
          var rc := FindMetadataValues(accounts);
          match env.publish(token.accessToken, rc)
          case Err(message) => Err(ReqwestError(message))
          case Ok(_) => Ok(rc)
  }

  /** A published update used the stored token's access token while that
      token had not expired, and the renewed token's once it had. */
  lemma UpdatePublishesWithActiveToken(t: Tables, id: UserId, env: Env)
    requires ValidEnv(env)
    requires RoleConnectionUpdate(t, id, env).Ok?
    ensures GetToken(t, id).Some?
    ensures var stored := GetToken(t, id).value;
      var rc := RoleConnectionUpdate(t, id, env).value;
      && (!TokenClient.Expired(stored, env.now) ==> env.publish(stored.accessToken, rc).Ok?)
      && (TokenClient.Expired(stored, env.now) ==>
            var response := env.exchange(stored.refreshToken);
            && response.Ok? && TryFromOAuth(response.value, env.now).Ok?
            && env.publish(TryFromOAuth(response.value, env.now).value.accessToken, rc).Ok?)
  {
  }

  /** What a role connection says about the looked-up users of `linked`:
      every lookup succeeded; Scratcher iff one of them is; joined no later
      than any of them; followers at least any of theirs. */
  ghost predicate Summarizes(data: RoleConnectionData, linked: seq<ScratchAccount>, lookup: Lookup) {
    && (forall i :: 0 <= i < |linked| ==> lookup(linked[i].username).Ok?)
    && (data.scratcher <==> exists i :: 0 <= i < |linked| && lookup(linked[i].username).value.status == Some(Scratcher))
    && (forall i :: 0 <= i < |linked| ==> data.joined <= lookup(linked[i].username).value.joined)
    && (forall i :: 0 <= i < |linked| ==> Followers(lookup(linked[i].username).value) <= data.followers)
  }

  /** A published role connection aggregates the lookups of all of `id`'s
      linked accounts, of which there is at least one, all successful. */
  lemma UpdateAggregatesLinkedAccounts(t: Tables, id: UserId, env: Env)
    requires ValidEnv(env)
    requires RoleConnectionUpdate(t, id, env).Ok?
    ensures |GetLinkedScratchAccounts(t, id)| > 0
    ensures Summarizes(RoleConnectionUpdate(t, id, env).value.metadata, GetLinkedScratchAccounts(t, id), env.lookup)
  {
    var linked := GetLinkedScratchAccounts(t, id);
    var order := env.completion(|linked|);
    assert IsOrdering(order, |linked|);
    PublishedAggregate(t, id, env);
    AggregateOverLinked(linked, env.lookup, order, Collect(linked, env.lookup, order).value);
  }

  /** A published role connection is the aggregate of a successful,
      non-empty fan-in. */
  lemma PublishedAggregate(t: Tables, id: UserId, env: Env)
    requires ValidEnv(env)
    requires RoleConnectionUpdate(t, id, env).Ok?
    ensures var linked := GetLinkedScratchAccounts(t, id);
      var collected := Collect(linked, env.lookup, env.completion(|linked|));
      && collected.Ok? && |collected.value| > 0
      && RoleConnectionUpdate(t, id, env).value == FindMetadataValues(collected.value)
  {
  }

  /** The aggregate of a successful fan-in, restated over the linked accounts. */
  lemma AggregateOverLinked(linked: seq<ScratchAccount>, lookup: Lookup, order: seq<nat>, accounts: seq<DbUser>)
    requires IsOrdering(order, |linked|)
    requires Collect(linked, lookup, order) == Ok(accounts) && |accounts| > 0
    ensures Summarizes(FindMetadataValues(accounts).metadata, linked, lookup)
  {
    CollectCoversEveryAccount(linked, lookup, order);
    var rc := FindMetadataValues(accounts);
    if rc.metadata.scratcher {
      var k :| 0 <= k < |accounts| && accounts[k].status == Some(Scratcher);
      assert accounts[k] == lookup(linked[order[k]].username).value;
    }
  }

  /** `update_role_connection`. The transaction it opens is never
      committed and it writes no metadata row, so it changes no committed
      state at all: a renewed token is used for this one call and then
      discarded with the transaction. */
  method UpdateRoleConnection(pool: Pool, id: UserId, env: Env) returns (r: Result<RoleConnection<RoleConnectionData>, UpdateError>)
    requires ValidEnv(env)
    ensures r == RoleConnectionUpdate(pool.tables, id, env)
  {
    var tx := new Transaction.Begin(pool);

    var token := TokenClient.RefreshIfExpired(tx, id, env.now, env.exchange);
    if token.Err? {
      return Err(FromTokenError(token.error));
    }

    var linked := GetLinkedScratchAccounts(tx.tables, id);
    var accounts := FetchScratchData(linked, env.lookup, env.completion(|linked|));
    if accounts.Err? {
      return Err(ScratchApi(accounts.error));
    }
    if |accounts.value| == 0 {
      return Err(NoLinkedAccounts);
    }

    var roleConnection := FindMetadataValues(accounts.value);
    var published := env.publish(token.value.accessToken, roleConnection);
    if published.Err? {
      return Err(ReqwestError(published.error));
    }
    r := Ok(roleConnection);
  }

  /** With an expired stored token, an update that gets a renewed token
      uses it, yet afterwards the store still holds the expired one, which
      differs from the token used. */
  method RenewedTokenIsDiscarded(pool: Pool, id: UserId, env: Env)
    returns (result: Result<RoleConnection<RoleConnectionData>, UpdateError>, stored: Option<Token>)
    requires ValidEnv(env)
    requires id in pool.tables.tokens && TokenClient.Expired(pool.tables.tokens[id], env.now)
    ensures stored == Some(old(pool.tables.tokens[id]))
    ensures result.Ok? ==>
      var used := TokenClient.ActiveToken(GetToken(pool.tables, id), env.now, env.exchange);
      used.Ok? && used.value != stored.value
  {
    result := UpdateRoleConnection(pool, id, env);
    stored := GetToken(pool.tables, id);
  }
}
