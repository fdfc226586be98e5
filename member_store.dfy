/** The members table (db/member.go): member records keyed by (guild, user), each holding at most one Twitch
    link. The table is abstract state, the records in storage order; whether RethinkDB answers a query or
    decodes its result is decided outside this program, so every operation takes that outcome as a parameter. */
module MemberStore {
  import opened Wrappers
  import opened GuildModels

  /** How the store answers a query: rows that decode, a failed query, or rows that do not decode. */
  datatype QueryOutcome = QueryOk | QueryFailed(error: string) | DecodeFailed(error: string)

  /** The record stored under a key, if any. */
  function Lookup(rows: seq<MemberData>, key: MemberKey): (r: Option<MemberData>)
    ensures r.Some? ==> r.value in rows && KeyOf(r.value) == key
    ensures r.None? <==> forall m :: m in rows ==> KeyOf(m) != key
  {
    if rows == [] then None
    else if KeyOf(rows[0]) == key then Some(rows[0])
    else Lookup(rows[1..], key)
  }

  /** No two records share a key. */
  predicate UniqueKeys(rows: seq<MemberData>)
  {
    forall i, j :: 0 <= i < j < |rows| ==> KeyOf(rows[i]) != KeyOf(rows[j])
  }

  /** The table after inserting `doc` with conflict mode "update": the record under its key is replaced in
      place, or `doc` is appended when there is none. Every field of the stored record is in `doc`, so the
      merge gives `doc` itself. */
  function Upsert(rows: seq<MemberData>, doc: MemberData): (r: seq<MemberData>)
    ensures doc in r
    ensures forall m :: m in r ==> m == doc || m in rows
    ensures forall m :: m in rows && KeyOf(m) != KeyOf(doc) ==> m in r
  {
    if rows == [] then [doc]
    else if KeyOf(rows[0]) == KeyOf(doc) then [doc] + rows[1..]
    else [rows[0]] + Upsert(rows[1..], doc)
  }

  /** The record SetTwitchConnectionData writes. */
  function LinkedMember(guildId: string, userId: string, data: TwitchConnectionData): MemberData
  {
    MemberData(guildId, userId, MemberConnections(Some(data)))
  }

  /** The old values of the changes the store reports for an upsert of `doc`: none for a record that stays the
      same, the old record for one that changes, and no old value for a new record. */
  function ChangedOldValues(rows: seq<MemberData>, doc: MemberData): (r: seq<Option<MemberData>>)
    ensures |r| <= 1
  {
    match Lookup(rows, KeyOf(doc))
    case None => [None]
    case Some(stored) => if stored == doc then [] else [Some(stored)]
  }

  /** The Twitch UIDs of the linked records, in storage order, one per record. */
  function LinkedUids(rows: seq<MemberData>): (r: seq<string>)
    ensures |r| <= |rows|
    ensures forall u :: u in r <==> exists m :: m in rows && m.connections.twitchConnection == Some(TwitchConnectionData(u))
  {
    if rows == [] then []
    else
      var first := match rows[0].connections.twitchConnection
        case Some(link) => [link.twitchUid]
        case None => [];
      assert forall m :: m in rows <==> m == rows[0] || m in rows[1..];
      first + LinkedUids(rows[1..])
  }

  /** The records whose connections equal `conn`, in storage order. */
  function WithConnections(rows: seq<MemberData>, conn: MemberConnections): (r: seq<MemberData>)
    ensures |r| <= |rows|
    ensures forall m :: m in r <==> m in rows && m.connections == conn
  {
    if rows == [] then []
    else
      assert forall m :: m in rows <==> m == rows[0] || m in rows[1..];
      (if rows[0].connections == conn then [rows[0]] else []) + WithConnections(rows[1..], conn)
  }

  /** The error GetMemberByConnection returns for a lookup without exactly one connection; the count is then
      always 0. */
  const NotOneConnection: string := "member lookup requires exactly 1 connection, 0 were provided"

  class MembersTable {
    /** The member records, in storage order. */
    var rows: seq<MemberData>

    /** A record is identified by its (guild, user) pair. */
    ghost predicate Valid()
      reads this
    {
      UniqueKeys(rows)
    }

    constructor ()
      ensures rows == [] && Valid()
    {
      rows := [];
    }

    /** Stores the member's Twitch link, replacing their record, and returns the link the old record held.
        `writeError` is the store's error, if it reports one. */
    method SetTwitchConnectionData(guildId: string, userId: string, data: TwitchConnectionData,
                                   writeError: Option<string>)
      returns (previous: Option<TwitchConnectionData>, err: Option<string>)
      requires Valid()
      modifies this
      ensures Valid()
      ensures writeError.Some? ==> rows == old(rows) && previous == None && err == writeError
      ensures writeError.None? ==>
        && rows == Upsert(old(rows), LinkedMember(guildId, userId, data))
        && err == None
        && previous == PreviousLink(old(rows), LinkedMember(guildId, userId, data))
    {
      var doc := LinkedMember(guildId, userId, data);
      if writeError.Some? {
        return None, writeError;
      }
      var changes := ChangedOldValues(rows, doc);
      UpsertKeepsKeysUnique(rows, doc);
      rows := Upsert(rows, doc);
      if |changes| >= 1 {
        var oldVal := changes[0];
        if oldVal.Some? {
          return oldVal.value.connections.twitchConnection, None;
        }
        return None, None;
      }
      return None, None;
    }

    /** The member's stored Twitch link: nothing when there is no record, no link, or the link does not decode;
        the error when the query fails. */
    function GetTwitchConnectionData(guildId: string, userId: string, outcome: QueryOutcome)
      : (r: (Option<TwitchConnectionData>, Option<string>))
      reads this
      ensures outcome.QueryFailed? ==> r == (None, Some(outcome.error))
      ensures outcome.DecodeFailed? ==> r == (None, None)
      ensures r.1.None? && r.0.Some? ==>
        exists m :: m in rows && KeyOf(m) == MemberKey(guildId, userId) && m.connections.twitchConnection == r.0
      ensures outcome.QueryOk? ==>
        && r.1.None?
        && (r.0.Some? <==> Lookup(rows, MemberKey(guildId, userId)).Some?
                           && Lookup(rows, MemberKey(guildId, userId)).value.connections.twitchConnection.Some?)
        && (r.0.Some? ==> r.0 == Lookup(rows, MemberKey(guildId, userId)).value.connections.twitchConnection)
    {
      if outcome.QueryFailed? then (None, Some(outcome.error))
      else match Lookup(rows, MemberKey(guildId, userId))
        case None => (None, None)
        case Some(m) =>
          if m.connections.twitchConnection.None? then (None, None)
          else if outcome.DecodeFailed? then (None, None)
          else (m.connections.twitchConnection, None)
    }

    /** Every broadcaster UID a member has linked, one per linked record. */
    function GetAllTwitchUIDs(outcome: QueryOutcome): (r: (seq<string>, Option<string>))
      reads this
      ensures outcome.QueryFailed? ==> r == ([], Some(outcome.error))
      ensures outcome.DecodeFailed? ==> r == ([], Some(outcome.error))
      ensures outcome.QueryOk? ==> r.1 == None && forall u :: u in r.0 <==>
        exists m :: m in rows && m.connections.twitchConnection == Some(TwitchConnectionData(u))
    {
      match outcome
      case QueryFailed(e) => ([], Some(e))
      case DecodeFailed(e) => ([], Some(e))
      case QueryOk => (LinkedUids(rows), None)
    }

    /** The members whose connections equal `conn`, which must set exactly one connection. */
    function GetMemberByConnection(conn: MemberConnections, outcome: QueryOutcome): (r: (seq<MemberData>, Option<string>))
      reads this
      ensures NumConnections(conn) != 1 ==> r == ([], Some(NotOneConnection))
      ensures NumConnections(conn) == 1 && outcome.QueryFailed? ==> r == ([], Some(outcome.error))
      ensures outcome.DecodeFailed? ==> r.0 == []
      ensures NumConnections(conn) == 1 && outcome.DecodeFailed? ==> r == ([], None)
      ensures NumConnections(conn) == 1 && outcome.QueryOk? ==>
        r.1 == None && forall m :: m in r.0 <==> m in rows && m.connections == conn
    {
      if NumConnections(conn) != 1 then ([], Some(NotOneConnection))
      else match outcome
        case QueryFailed(e) => ([], Some(e))
        case DecodeFailed(_) => ([], None)
        case QueryOk => (WithConnections(rows, conn), None)
    }
  }

  /** The link SetTwitchConnectionData returns: the old record's, when the upsert changed an existing record. */
  function PreviousLink(rows: seq<MemberData>, doc: MemberData): Option<TwitchConnectionData>
  {
    var changes := ChangedOldValues(rows, doc);
    if |changes| >= 1 && changes[0].Some? then changes[0].value.connections.twitchConnection else None
  }

  // ---------- properties ----------

  /** An upsert keeps the keys unique: it replaces the record of its key, or adds a key that was absent. */
  lemma {:induction false} UpsertKeepsKeysUnique(rows: seq<MemberData>, doc: MemberData)
    requires UniqueKeys(rows)
    ensures UniqueKeys(Upsert(rows, doc))
    decreases |rows|
  {
    if rows != [] {
      HeadKeyNotInTail(rows);
      TailKeysUnique(rows);
      if KeyOf(rows[0]) != KeyOf(doc) {
        UpsertKeepsKeysUnique(rows[1..], doc);
        ConsKeysUnique(rows[0], Upsert(rows[1..], doc));
      } else {
        ConsKeysUnique(doc, rows[1..]);
      }
    }
  }

  lemma TailKeysUnique(rows: seq<MemberData>)
    requires UniqueKeys(rows) && rows != []
    ensures UniqueKeys(rows[1..])
  {
    forall i, j | 0 <= i < j < |rows[1..]| ensures KeyOf(rows[1..][i]) != KeyOf(rows[1..][j]) {
      assert rows[1..][i] == rows[i + 1] && rows[1..][j] == rows[j + 1];
    }
  }

  /** A record whose key no later record has can head a table with unique keys. */
  lemma ConsKeysUnique(x: MemberData, rows: seq<MemberData>)
    requires UniqueKeys(rows)
    requires forall m :: m in rows ==> KeyOf(m) != KeyOf(x)
    ensures UniqueKeys([x] + rows)
  {
    var r := [x] + rows;
    forall i, j | 0 <= i < j < |r| ensures KeyOf(r[i]) != KeyOf(r[j]) {
      assert r[j] == rows[j - 1];
      if i > 0 {
        assert r[i] == rows[i - 1];
      }
    }
  }

  /** With unique keys, no later record shares the first record's key. */
  lemma HeadKeyNotInTail(rows: seq<MemberData>)
    requires UniqueKeys(rows) && rows != []
    ensures forall m :: m in rows[1..] ==> KeyOf(m) != KeyOf(rows[0])
  {
    forall m | m in rows[1..] ensures KeyOf(m) != KeyOf(rows[0]) {
      var j :| 0 <= j < |rows[1..]| && rows[1..][j] == m;
      assert rows[j + 1] == m;
    }
  }

  /** After an upsert the key holds the new record. */
  lemma {:induction false} UpsertThenLookup(rows: seq<MemberData>, doc: MemberData)
    ensures Lookup(Upsert(rows, doc), KeyOf(doc)) == Some(doc)
    decreases |rows|
  {
    if rows != [] && KeyOf(rows[0]) != KeyOf(doc) {
      UpsertThenLookup(rows[1..], doc);
    }
  }

  /** An upsert leaves the record of every other key as it was. */
  lemma {:induction false} UpsertLeavesOthers(rows: seq<MemberData>, doc: MemberData, key: MemberKey)
    requires key != KeyOf(doc)
    ensures Lookup(Upsert(rows, doc), key) == Lookup(rows, key)
    decreases |rows|
  {
    if rows != [] && KeyOf(rows[0]) != KeyOf(doc) {
      UpsertLeavesOthers(rows[1..], doc, key);
    } else if rows != [] {
      assert Upsert(rows, doc) == [doc] + rows[1..];
    }
  }

  /** A successful SetTwitchConnectionData followed by GetTwitchConnectionData reads back the new link. */
  lemma SetThenGet(table: MembersTable, rows: seq<MemberData>, guildId: string, userId: string,
                   data: TwitchConnectionData)
    requires table.rows == Upsert(rows, LinkedMember(guildId, userId, data))
    ensures Lookup(table.rows, MemberKey(guildId, userId)) == Some(LinkedMember(guildId, userId, data))
    ensures table.GetTwitchConnectionData(guildId, userId, QueryOk) == (Some(data), None)
  {
    UpsertThenLookup(rows, LinkedMember(guildId, userId, data));
  }

  /** The previous link is the old record's when it had a different one, and nothing when there was no record
      or the record already held the same link. */
  lemma PreviousLinkCases(rows: seq<MemberData>, guildId: string, userId: string, data: TwitchConnectionData)
    ensures Lookup(rows, MemberKey(guildId, userId)).None? ==> PreviousLink(rows, LinkedMember(guildId, userId, data)) == None
    ensures Lookup(rows, MemberKey(guildId, userId)) == Some(LinkedMember(guildId, userId, data))
            ==> PreviousLink(rows, LinkedMember(guildId, userId, data)) == None
    ensures Lookup(rows, MemberKey(guildId, userId)).Some?
            && Lookup(rows, MemberKey(guildId, userId)).value.connections.twitchConnection != Some(data)
            ==> PreviousLink(rows, LinkedMember(guildId, userId, data))
                == Lookup(rows, MemberKey(guildId, userId)).value.connections.twitchConnection
  {
  }

  /** A link is found by a connection lookup after it is stored. */
  lemma SetThenFindByConnection(rows: seq<MemberData>, guildId: string, userId: string, data: TwitchConnectionData)
    ensures LinkedMember(guildId, userId, data) in WithConnections(Upsert(rows, LinkedMember(guildId, userId, data)),
                                                                   MemberConnections(Some(data)))
  {
  }

  /** A broadcaster linked by two records appears (at least) twice among the UIDs: there is no de-duplication. */
  lemma {:induction false} SharedUidListedTwice(rows: seq<MemberData>, i: nat, j: nat, uid: string)
    requires i < j < |rows|
    requires rows[i].connections.twitchConnection == Some(TwitchConnectionData(uid))
    requires rows[j].connections.twitchConnection == Some(TwitchConnectionData(uid))
    ensures multiset(LinkedUids(rows))[uid] >= 2
    decreases |rows|
  {
    var first := match rows[0].connections.twitchConnection
      case Some(link) => [link.twitchUid]
      case None => [];
    assert LinkedUids(rows) == first + LinkedUids(rows[1..]);
    if i == 0 {
      assert rows[1..][j - 1] == rows[j];
      assert uid in LinkedUids(rows[1..]);
      assert first == [uid];
    } else {
      assert rows[1..][i - 1] == rows[i] && rows[1..][j - 1] == rows[j];
      SharedUidListedTwice(rows[1..], i - 1, j - 1, uid);
    }
  }
}
