/** The store's own test cases, replayed against the model. The fixture
    files are not part of this model; the fixtures below hold just the rows
    the tests' expectations imply. */
module DatabaseScenarios {
  import opened Wrappers
  import opened OAuthTokens
  import opened RoleConnectionMetadata
  import opened Database

  const Owner: UserId := 755497867606622450
  const OtherOwner: UserId := 775316334259077120
  const Unregistered: UserId := 775316334259077121

  /** Two Scratch accounts linked to one Discord account, and a second
      Discord account without links. */
  function LinkedAccountsFixture(): Tables {
    Tables(
      {Owner, OtherOwner},
      [ScratchAccount("PMJ_Studio", Owner), ScratchAccount("PMJ_test", Owner)],
      map[],
      [])
  }

  /** The linked-accounts fixture plus the metadata row of `Owner`, the only
      row the metadata tests' expectations name. */
  function MetadataFixture(): Tables {
    LinkedAccountsFixture().(metadata := [
      MetadataRow(Owner, RoleConnectionData(true, 1000, 1596456000), 1691064000)
    ])
  }

  /** Transferring: to the current owner is refused; an unknown username is
      not linked; to a Discord account, registered or not, both of the old
      owner's accounts move and the old owner is reported. */
  method TransferTests()
    returns (alreadyYours: Result<Result<(UserId, seq<string>), TransferError>, DbError>,
             notLinked: Result<Result<(UserId, seq<string>), TransferError>, DbError>,
             toNewAccount: Result<Result<(UserId, seq<string>), TransferError>, DbError>,
             toExistingAccount: Result<Result<(UserId, seq<string>), TransferError>, DbError>)
    ensures alreadyYours == Ok(Err(TransferError.AlreadyLinkedToYou))
    ensures notLinked == Ok(Err(NotLinked))
    ensures toNewAccount == Ok(Ok((Owner, ["PMJ_Studio", "PMJ_test"])))
    ensures toExistingAccount == Ok(Ok((Owner, ["PMJ_Studio", "PMJ_test"])))
  {
    var fixture := LinkedAccountsFixture();
    assert Lower("PMJ_Studio") == "pmj_studio";
    assert Lower("PMJ_test") == "pmj_test";
    assert Lower("PMJ_JPB14") == "pmj_jpb14";
    assert GetScratchAccount(fixture, "PMJ_Studio") == Some(ScratchAccount("PMJ_Studio", Owner));
    assert GetScratchAccount(fixture, "PMJ_JPB14") == None;
    assert LinkedAccounts(fixture.scratchAccounts, Owner) == fixture.scratchAccounts;
    assert Usernames(fixture.scratchAccounts) == ["PMJ_Studio", "PMJ_test"];

    var pool := new Pool(fixture);
    alreadyYours := TransferLinkedAccounts(pool, "PMJ_Studio", Owner);

    pool := new Pool(fixture);
    notLinked := TransferLinkedAccounts(pool, "PMJ_JPB14", Owner);

    pool := new Pool(fixture);
    toNewAccount := TransferLinkedAccounts(pool, "PMJ_Studio", Unregistered);

    pool := new Pool(fixture);
    toExistingAccount := TransferLinkedAccounts(pool, "PMJ_Studio", OtherOwner);
  }

  /** Linking a username nobody has linked succeeds; linking it again, in
      any letter case, reports whether it is taken by the same or another
      Discord account, and neither attempt writes anything. */
  method LinkTwice(t: Tables, username: string, variant: string, id: UserId, other: UserId)
    returns (first: Result<Result<(), LinkError>, DbError>,
             again: Result<Result<(), LinkError>, DbError>,
             byOther: Result<Result<(), LinkError>, DbError>,
             after: Tables)
    requires GetScratchAccount(t, username).None?
    requires Lower(variant) == Lower(username)
    requires other != id
    ensures first == Ok(Ok(()))
    ensures again == Ok(Err(LinkError.AlreadyLinkedToYou))
    ensures byOther == Ok(Err(AlreadyLinkedToOther(id)))
    ensures after == t.(
      discordAccounts := t.discordAccounts + {id},
      scratchAccounts := t.scratchAccounts + [ScratchAccount(username, id)])
  {
    var pool := new Pool(t);
    first := LinkAccount(pool, username, id);
    InsertAfterFailedLookup(t.scratchAccounts, username, id);
    LookupIgnoresCase(pool.tables.scratchAccounts, username, variant);
    again := LinkAccount(pool, variant, id);
    byOther := LinkAccount(pool, variant, other);
    after := pool.tables;
  }

  /** `write_token` returns the token it was given, expired or not, and the
      token is afterwards the one read back. */
  method WriteTokenTest(t: Tables, id: UserId, token: Token)
    returns (written: Result<Token, DbError>, read: Option<Token>)
    ensures written == Ok(token)
    ensures read == Some(token)
  {
    var pool := new Pool(t);
    var tx := new Transaction.Begin(pool);
    written := tx.WriteToken(id, token);
    tx.Commit();
    read := GetToken(pool.tables, id);
  }

  /** The metadata tests: the oldest row is `Owner`'s, an empty table has no
      oldest row, `Owner`'s cached values read back, and writing new values
      returns them. */
  method MetadataTests(now: int)
    returns (oldest: Option<(UserId, int)>,
             none: Option<(UserId, int)>,
             cached: Option<RoleConnectionData>,
             written: Result<RoleConnectionData, DbError>)
    ensures oldest == Some((Owner, 1691064000))
    ensures none == None
    ensures cached == Some(RoleConnectionData(true, 1000, 1596456000))
    ensures written == Ok(RoleConnectionData(true, 1001, 1596456000))
  {
    var fixture := MetadataFixture();
    oldest := GetOldestMetadata(fixture);
    none := GetOldestMetadata(LinkedAccountsFixture());
    cached := GetMetadata(fixture, Owner);

    var pool := new Pool(fixture);
    var tx := new Transaction.Begin(pool);
    written := tx.WriteMetadata(Owner, RoleConnectionData(true, 1001, 1596456000), now);
    tx.Commit();
  }
}
