/** The account-link store: four tables held in memory, the single-query
    primitives of the store with the meaning of their SQL, and the two
    transactional operations built on them, linking a Scratch account to a
    Discord account and transferring all of one owner's links to another.

    A `Pool` holds the committed tables; a `Transaction` works on a copy
    and writes it back only on `Commit`, so a transaction dropped on an
    early return changes nothing. Database connection failures are not
    modelled: reads always succeed and writes fail only on a key violation
    or a missing row. */
module Database {
  import opened Wrappers
  import opened OAuthTokens
  import opened RoleConnectionMetadata

  /** A Discord user id: a non-zero unsigned 64-bit integer. */
  type UserId = x: int | 0 < x < 0x1_0000_0000_0000_0000 witness 1

  /** A row of `discord_accounts`. */
  datatype DiscordAccount = DiscordAccount(id: UserId)

  /** A row of `scratch_accounts`: a Scratch username and its owner. */
  datatype ScratchAccount = ScratchAccount(username: string, id: UserId)

  /** A row of `metadata`: the cached values of one owner and when they were written. */
  datatype MetadataRow = MetadataRow(id: UserId, data: RoleConnectionData, updatedAt: int)

  /** The four tables. `tokens` is keyed by owner; the rows of
      `scratch_accounts` and `metadata` are kept in table order. */
  datatype Tables = Tables(
    discordAccounts: set<UserId>,
    scratchAccounts: seq<ScratchAccount>,
    tokens: map<UserId, Token>,
    metadata: seq<MetadataRow>)

  /** Failures of the write primitives: an insert that would duplicate a
      key, or a statement expected to return a row that matched none. */
  datatype DbError = UniqueViolation | RowNotFound

  // ---------------------------------------------------------------------
  // Case folding, as the username lookup applies `lower` to both sides.

  function LowerChar(c: char): char {
    if 'A' <= c <= 'Z' then (c as int + 32) as char else c
  }

  function Lower(s: string): string {
    seq(|s|, i requires 0 <= i < |s| => LowerChar(s[i]))
  }

  /** No two rows share a lowercased username: the invariant the two
      transactional operations preserve. */
  ghost predicate UniqueUsernames(rows: seq<ScratchAccount>) {
    forall i, j :: 0 <= i < |rows| && 0 <= j < |rows| && i != j ==>
      Lower(rows[i].username) != Lower(rows[j].username)
  }

  // ---------------------------------------------------------------------
  // Read primitives: pure functions of the table state.

  /** `get_discord_account`: the row with this id, if any. */
  function GetDiscordAccount(t: Tables, id: UserId): (r: Option<DiscordAccount>)
    ensures r.Some? <==> id in t.discordAccounts
    ensures r.Some? ==> r.value.id == id
  {
    if id in t.discordAccounts then Some(DiscordAccount(id)) else None
  }

  /** The position of the first row whose lowercased username is that of
      `username`. */
  function FindUsername(rows: seq<ScratchAccount>, username: string): (k: Option<nat>)
    ensures k.Some? ==> k.value < |rows| && Lower(rows[k.value].username) == Lower(username)
    ensures k.Some? ==> forall i :: 0 <= i < k.value ==> Lower(rows[i].username) != Lower(username)
    ensures k.None? <==> forall i :: 0 <= i < |rows| ==> Lower(rows[i].username) != Lower(username)
  {
    if |rows| == 0 then None
    else if Lower(rows[0].username) == Lower(username) then Some(0)
    else match FindUsername(rows[1..], username)
      case None => None
      case Some(k) => Some(k + 1)
  }

  /** `get_scratch_account`: the row whose username equals `username` up to
      letter case (the first in table order when several do). */
  function GetScratchAccount(t: Tables, username: string): (r: Option<ScratchAccount>)
    ensures r.Some? ==> r.value in t.scratchAccounts && Lower(r.value.username) == Lower(username)
    ensures r.None? <==> forall a :: a in t.scratchAccounts ==> Lower(a.username) != Lower(username)
  {
    match FindUsername(t.scratchAccounts, username)
    case None => None
    case Some(k) => Some(t.scratchAccounts[k])
  }

  /** The rows owned by `id`, in table order. */
  function LinkedAccounts(rows: seq<ScratchAccount>, id: UserId): (r: seq<ScratchAccount>)
    ensures forall a :: a in r <==> a in rows && a.id == id
    ensures |r| <= |rows|
  {
    if |rows| == 0 then []
    else (if rows[0].id == id then [rows[0]] else []) + LinkedAccounts(rows[1..], id)
  }

  /** Appending a row extends the selection by that row when it is owned
      by `id`: the selection keeps table order and every matching row. */
  lemma {:induction false} LinkedAccountsAppend(rows: seq<ScratchAccount>, a: ScratchAccount, id: UserId)
    ensures LinkedAccounts(rows + [a], id) == LinkedAccounts(rows, id) + (if a.id == id then [a] else [])
  {
    if |rows| == 0 {
      assert rows + [a] == [a];
      assert [a][1..] == [];
    } else {
      var head := if rows[0].id == id then [rows[0]] else [];
      var tail := if a.id == id then [a] else [];
      assert (rows + [a])[0] == rows[0];
      assert (rows + [a])[1..] == rows[1..] + [a];
      LinkedAccountsAppend(rows[1..], a, id);
      calc {
        LinkedAccounts(rows + [a], id);
        head + LinkedAccounts(rows[1..] + [a], id);
        head + (LinkedAccounts(rows[1..], id) + tail);
        { assert head + (LinkedAccounts(rows[1..], id) + tail) == (head + LinkedAccounts(rows[1..], id)) + tail; }
        LinkedAccounts(rows, id) + tail;
      }
    }
  }

  /** `get_linked_scratch_accounts`: every account `id` has linked. */
  function GetLinkedScratchAccounts(t: Tables, id: UserId): (r: seq<ScratchAccount>)
    ensures forall a :: a in r <==> a in t.scratchAccounts && a.id == id
    ensures forall k :: 0 <= k < |r| ==> r[k].id == id
  {
    LinkedAccounts(t.scratchAccounts, id)
  }

  /** The usernames of some rows, in their order. */
  function Usernames(rows: seq<ScratchAccount>): seq<string> {
    seq(|rows|, i requires 0 <= i < |rows| => rows[i].username)
  }

  /** The rows after every row owned by `from` is given to `to`. */
  function Reassign(rows: seq<ScratchAccount>, from: UserId, to: UserId): (r: seq<ScratchAccount>)
    ensures |r| == |rows| && Usernames(r) == Usernames(rows)
    ensures forall k :: 0 <= k < |r| ==> r[k].id != from || from == to
  {
    seq(|rows|, i requires 0 <= i < |rows| => if rows[i].id == from then rows[i].(id := to) else rows[i])
  }

  /** `get_token`: the stored token of `id`, if any. */
  function GetToken(t: Tables, id: UserId): (r: Option<Token>)
    ensures r.Some? <==> id in t.tokens
    ensures r.Some? ==> r.value == t.tokens[id]
  {
    if id in t.tokens then Some(t.tokens[id]) else None
  }

  /** The position of the first metadata row with the least `updatedAt`. */
  function OldestIndex(rows: seq<MetadataRow>): (k: nat)
    requires |rows| > 0
    ensures k < |rows|
    ensures forall i :: 0 <= i < |rows| ==> rows[k].updatedAt <= rows[i].updatedAt
    ensures forall i :: 0 <= i < k ==> rows[i].updatedAt > rows[k].updatedAt
  {
    if |rows| == 1 then 0
    else
      var k := OldestIndex(rows[..|rows| - 1]);
      if rows[|rows| - 1].updatedAt < rows[k].updatedAt then |rows| - 1 else k
  }

  /** `get_oldest_metadata`: the id and `updated_at` of a row with the least
      `updated_at` (ordering ascending and taking one row), or nothing on an
      empty table. */
  function GetOldestMetadata(t: Tables): (r: Option<(UserId, int)>)
    ensures r.None? <==> |t.metadata| == 0
    ensures r.Some? ==> exists i :: 0 <= i < |t.metadata| && t.metadata[i].id == r.value.0 && t.metadata[i].updatedAt == r.value.1
    ensures r.Some? ==> forall i :: 0 <= i < |t.metadata| ==> r.value.1 <= t.metadata[i].updatedAt
  {
    if |t.metadata| == 0 then None
    else
      var k := OldestIndex(t.metadata);
      Some((t.metadata[k].id, t.metadata[k].updatedAt))
  }

  /** The position of the first metadata row of `id`. */
  function FindMetadata(rows: seq<MetadataRow>, id: UserId): (k: Option<nat>)
    ensures k.Some? ==> k.value < |rows| && rows[k.value].id == id
    ensures k.Some? ==> forall i :: 0 <= i < k.value ==> rows[i].id != id
    ensures k.None? <==> forall i :: 0 <= i < |rows| ==> rows[i].id != id
  {
    if |rows| == 0 then None
    else if rows[0].id == id then Some(0)
    else match FindMetadata(rows[1..], id)
      case None => None
      case Some(k) => Some(k + 1)
  }

  /** `get_metadata`: the cached values of `id`, if it has a row. */
  function GetMetadata(t: Tables, id: UserId): (r: Option<RoleConnectionData>)
    ensures r.None? <==> forall row :: row in t.metadata ==> row.id != id
    ensures r.Some? ==> exists row :: row in t.metadata && row.id == id && row.data == r.value
  {
    match FindMetadata(t.metadata, id)
    case None => None
    case Some(k) => Some(t.metadata[k].data)
  }

  /** The metadata rows after every row of `id` takes `data`, written at `now`. */
  function UpdateMetadataRows(rows: seq<MetadataRow>, id: UserId, data: RoleConnectionData, now: int): seq<MetadataRow> {
    seq(|rows|, i requires 0 <= i < |rows| => if rows[i].id == id then MetadataRow(id, data, now) else rows[i])
  }

  // ---------------------------------------------------------------------
  // Lemmas about the read primitives.

  /** The username lookup ignores letter case: every case variant of a
      username finds the same row. */
  lemma {:induction false} LookupIgnoresCase(rows: seq<ScratchAccount>, u1: string, u2: string)
    requires Lower(u1) == Lower(u2)
    ensures FindUsername(rows, u1) == FindUsername(rows, u2)
  {
    if |rows| > 0 && Lower(rows[0].username) != Lower(u1) {
      LookupIgnoresCase(rows[1..], u1, u2);
    }
  }

  /** Under the uniqueness invariant the lookup is unambiguous: any row
      matching the username is the one found. */
  lemma LookupFindsTheUniqueRow(t: Tables, username: string, a: ScratchAccount)
    requires UniqueUsernames(t.scratchAccounts)
    requires a in t.scratchAccounts && Lower(a.username) == Lower(username)
    ensures GetScratchAccount(t, username) == Some(a)
  {
    var rows := t.scratchAccounts;
    var j :| 0 <= j < |rows| && rows[j] == a;
    var k := FindUsername(rows, username);
    assert k.Some? && k.value == j;
  }

  /** Inserting a row whose username the lookup did not find keeps the
      usernames unique, and the new row is then what the lookup finds. */
  lemma InsertAfterFailedLookup(rows: seq<ScratchAccount>, username: string, id: UserId)
    requires FindUsername(rows, username).None?
    ensures UniqueUsernames(rows) ==> UniqueUsernames(rows + [ScratchAccount(username, id)])
    ensures FindUsername(rows + [ScratchAccount(username, id)], username) == Some(|rows|)
  {
    var rows' := rows + [ScratchAccount(username, id)];
    assert Lower(rows'[|rows|].username) == Lower(username);
    assert forall i :: 0 <= i < |rows| ==> rows'[i] == rows[i];
  }

  /** Reassigning rows leaves their usernames, and so the uniqueness
      invariant, as they were. */
  lemma ReassignKeepsUsernames(rows: seq<ScratchAccount>, from: UserId, to: UserId)
    ensures Usernames(Reassign(rows, from, to)) == Usernames(rows)
    ensures UniqueUsernames(rows) ==> UniqueUsernames(Reassign(rows, from, to))
  {
  }

  /** After every row of `from` is given to `to`, `from` owns nothing. */
  lemma {:induction false} ReassignEmptiesSource(rows: seq<ScratchAccount>, from: UserId, to: UserId)
    requires from != to
    ensures LinkedAccounts(Reassign(rows, from, to), from) == []
    decreases |rows|
  {
    if |rows| > 0 {
      ReassignEmptiesSource(rows[1..], from, to);
      assert Reassign(rows, from, to)[1..] == Reassign(rows[1..], from, to);
    }
  }

  /** After every row of `from` is given to `to`, `to` owns exactly its old
      rows and, under the same usernames, the old rows of `from`. */
  lemma ReassignGathersAtTarget(rows: seq<ScratchAccount>, from: UserId, to: UserId)
    ensures forall a :: a in LinkedAccounts(Reassign(rows, from, to), to) <==>
      a.id == to && (a in rows || a.(id := from) in rows)
  {
    var moved := Reassign(rows, from, to);
    forall a ensures a in LinkedAccounts(moved, to) <==> a.id == to && (a in rows || a.(id := from) in rows) {
      if a in moved {
        var j :| 0 <= j < |moved| && moved[j] == a;
        assert rows[j] == a || rows[j] == a.(id := from);
      }
      if a.id == to && a in rows {
        var j :| 0 <= j < |rows| && rows[j] == a;
        assert moved[j] == a;
      }
      if a.id == to && a.(id := from) in rows {
        var j :| 0 <= j < |rows| && rows[j] == a.(id := from);
        assert moved[j] == a;
      }
    }
  }

  /** Rows of any owner other than `from` stay where and as they were. */
  lemma {:induction false} ReassignKeepsOthers(rows: seq<ScratchAccount>, from: UserId, to: UserId, other: UserId)
    requires other != from && other != to
    ensures LinkedAccounts(Reassign(rows, from, to), other) == LinkedAccounts(rows, other)
    decreases |rows|
  {
    if |rows| > 0 {
      ReassignKeepsOthers(rows[1..], from, to, other);
      assert Reassign(rows, from, to)[1..] == Reassign(rows[1..], from, to);
    }
  }

  // ---------------------------------------------------------------------
  // The committed state and the transactions over it.

  /** The connection pool: the committed tables. */
  class Pool {
    var tables: Tables

    constructor (t: Tables)
      ensures tables == t
    {
      tables := t;
    }
  }

  /** An open transaction: a working copy of the pool's tables. */
  class Transaction {
    const pool: Pool
    var tables: Tables

    /** `pool.begin()`: the transaction starts from the committed tables. */
    constructor Begin(pool: Pool)
      ensures this.pool == pool && tables == pool.tables
    {
      this.pool := pool;
      tables := pool.tables;
    }

    /** `commit()`: the working copy becomes the committed state. */
    method Commit()
      modifies pool
      ensures pool.tables == tables
    {
      pool.tables := tables;
    }

    /** `create_discord_account`: inserts the row; the id is the key. */
    method CreateDiscordAccount(id: UserId) returns (r: Result<DiscordAccount, DbError>)
      modifies this
      ensures old(id in tables.discordAccounts) ==> r == Err(UniqueViolation) && tables == old(tables)
      ensures old(id !in tables.discordAccounts) ==>
        && r == Ok(DiscordAccount(id))
        && tables == old(tables).(discordAccounts := old(tables).discordAccounts + {id})
    {
      if id in tables.discordAccounts {
        r := Err(UniqueViolation);
      } else {
        tables := tables.(discordAccounts := tables.discordAccounts + {id});
        r := Ok(DiscordAccount(id));
      }
    }

    /** `create_linked_scratch_account`: appends the row; the exact
        username is the key. */
    method CreateLinkedScratchAccount(username: string, id: UserId) returns (r: Result<ScratchAccount, DbError>)
      modifies this
      ensures old(exists a :: a in tables.scratchAccounts && a.username == username) ==>
        r == Err(UniqueViolation) && tables == old(tables)
      ensures old(forall a :: a in tables.scratchAccounts ==> a.username != username) ==>
        && r == Ok(ScratchAccount(username, id))
        && tables == old(tables).(scratchAccounts := old(tables).scratchAccounts + [ScratchAccount(username, id)])
    {
      if exists a :: a in tables.scratchAccounts && a.username == username {
        r := Err(UniqueViolation);
      } else {
        tables := tables.(scratchAccounts := tables.scratchAccounts + [ScratchAccount(username, id)]);
        r := Ok(ScratchAccount(username, id));
      }
    }

    /** `transfer_linked_scratch_accounts`: every row owned by `from` is
        given to `to`; the usernames of those rows are returned. */
    method TransferLinkedScratchAccounts(from: UserId, to: UserId) returns (r: Result<seq<string>, DbError>)
      modifies this
      ensures r == Ok(Usernames(LinkedAccounts(old(tables).scratchAccounts, from)))
      ensures tables == old(tables).(scratchAccounts := Reassign(old(tables).scratchAccounts, from, to))
    {
      r := Ok(Usernames(LinkedAccounts(tables.scratchAccounts, from)));
      tables := tables.(scratchAccounts := Reassign(tables.scratchAccounts, from, to));
    }

    /** `write_token`: an upsert; the written token is returned and is
        afterwards the one stored for `id`, whatever its expiry. */
    method WriteToken(id: UserId, token: Token) returns (r: Result<Token, DbError>)
      modifies this
      ensures r == Ok(token)
      ensures tables == old(tables).(tokens := old(tables).tokens[id := token])
      ensures GetToken(tables, id) == Some(token)
    {
      tables := tables.(tokens := tables.tokens[id := token]);
      r := Ok(token);
    }

    /** `delete_token`: removes and returns the token of `id`; fails when
        there is none. */
    method DeleteToken(id: UserId) returns (r: Result<Token, DbError>)
      modifies this
      ensures old(id !in tables.tokens) ==> r == Err(RowNotFound) && tables == old(tables)
      ensures old(id in tables.tokens) ==>
        && r == Ok(old(tables.tokens[id]))
        && tables == old(tables).(tokens := old(tables).tokens - {id})
    {
      if id in tables.tokens {
        r := Ok(tables.tokens[id]);
        tables := tables.(tokens := tables.tokens - {id});
      } else {
        r := Err(RowNotFound);
      }
    }

    /** `write_metadata`: updates the existing row of `id` (it never inserts
        one), stamping it with `now`; fails when `id` has no row. */
    method WriteMetadata(id: UserId, data: RoleConnectionData, now: int) returns (r: Result<RoleConnectionData, DbError>)
      modifies this
      ensures old(FindMetadata(tables.metadata, id)).None? ==> r == Err(RowNotFound) && tables == old(tables)
      ensures old(FindMetadata(tables.metadata, id)).Some? ==>
        && r == Ok(data)
        && tables == old(tables).(metadata := UpdateMetadataRows(old(tables).metadata, id, data, now))
        && GetMetadata(tables, id) == Some(data)
    {
      if FindMetadata(tables.metadata, id).None? {
        r := Err(RowNotFound);
      } else {
        var k := FindMetadata(tables.metadata, id).value;
        tables := tables.(metadata := UpdateMetadataRows(tables.metadata, id, data, now));
        assert tables.metadata[k].id == id && tables.metadata[k].data == data;
        r := Ok(data);
      }
    }
  }

  // ---------------------------------------------------------------------
  // The transactional operations.

  datatype LinkError = AlreadyLinkedToYou | AlreadyLinkedToOther(owner: UserId)

  datatype TransferError = AlreadyLinkedToYou | NotLinked

  /** `link_account`: refuses a username already linked (case-insensitively),
      reporting whether to `id` or to another owner, and then writes nothing;
      otherwise creates the Discord account if absent, adds exactly the row
      `(username, id)` and commits. */
  method LinkAccount(pool: Pool, username: string, id: UserId) returns (r: Result<Result<(), LinkError>, DbError>)
    modifies pool
    ensures var found := GetScratchAccount(old(pool.tables), username);
      && (found.Some? && found.value.id == id ==>
            r == Ok(Err(LinkError.AlreadyLinkedToYou)) && pool.tables == old(pool.tables))
      && (found.Some? && found.value.id != id ==>
            r == Ok(Err(AlreadyLinkedToOther(found.value.id))) && pool.tables == old(pool.tables))
      && (found.None? ==>
            && r == Ok(Ok(()))
            && pool.tables == old(pool.tables).(
                 discordAccounts := old(pool.tables).discordAccounts + {id},
                 scratchAccounts := old(pool.tables).scratchAccounts + [ScratchAccount(username, id)]))
    ensures UniqueUsernames(old(pool.tables).scratchAccounts) ==> UniqueUsernames(pool.tables.scratchAccounts)
  {
    var tx := new Transaction.Begin(pool);

    var alreadyLinked := GetScratchAccount(tx.tables, username);
    if alreadyLinked.Some? {
      if alreadyLinked.value.id == id {
        return Ok(Err(LinkError.AlreadyLinkedToYou));
      } else {
        return Ok(Err(AlreadyLinkedToOther(alreadyLinked.value.id)));
      }
    }

    if GetDiscordAccount(tx.tables, id).None? {
      var created := tx.CreateDiscordAccount(id);
      // The account was just found absent, so its key is free.
      assert created.Ok?;
    }

    InsertAfterFailedLookup(tx.tables.scratchAccounts, username, id);
    // No row matches even up to case, so none has this exact username.
    assert forall a :: a in tx.tables.scratchAccounts ==> a.username != username;
    var inserted := tx.CreateLinkedScratchAccount(username, id);
    assert inserted.Ok?;

    tx.Commit();
    r := Ok(Ok(()));
  }

  /** `transfer_linked_accounts`: reports `NotLinked` when no row matches the
      username and `AlreadyLinkedToYou` when `id` already owns it, writing
      nothing; otherwise creates the Discord account of `id` if absent,
      gives `id` every row of the previous owner (not only the named one),
      commits, and returns the previous owner and the moved usernames. */
  method TransferLinkedAccounts(pool: Pool, username: string, id: UserId)
    returns (r: Result<Result<(UserId, seq<string>), TransferError>, DbError>)
    modifies pool
    ensures var found := GetScratchAccount(old(pool.tables), username);
      && (found.None? ==> r == Ok(Err(NotLinked)) && pool.tables == old(pool.tables))
      && (found.Some? && found.value.id == id ==>
            r == Ok(Err(TransferError.AlreadyLinkedToYou)) && pool.tables == old(pool.tables))
      && (found.Some? && found.value.id != id ==>
            && r == Ok(Ok((found.value.id, Usernames(LinkedAccounts(old(pool.tables).scratchAccounts, found.value.id)))))
            && pool.tables == old(pool.tables).(
                 discordAccounts := old(pool.tables).discordAccounts + {id},
                 scratchAccounts := Reassign(old(pool.tables).scratchAccounts, found.value.id, id)))
    ensures UniqueUsernames(old(pool.tables).scratchAccounts) ==> UniqueUsernames(pool.tables.scratchAccounts)
  {
    var tx := new Transaction.Begin(pool);

    var alreadyLinked := GetScratchAccount(tx.tables, username);
    if alreadyLinked.None? {
      return Ok(Err(NotLinked));
    }
    if alreadyLinked.value.id == id {
      return Ok(Err(TransferError.AlreadyLinkedToYou));
    }
    var previous := alreadyLinked.value.id;

    if GetDiscordAccount(tx.tables, id).None? {
      var created := tx.CreateDiscordAccount(id);
      assert created.Ok?;
    }

    ReassignKeepsUsernames(tx.tables.scratchAccounts, previous, id);
    var transferred := tx.TransferLinkedScratchAccounts(previous, id);

    tx.Commit();
    r := Ok(Ok((previous, transferred.value)));
  }
}
