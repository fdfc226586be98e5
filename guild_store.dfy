/** The guilds table (db/guild.go): one configuration record per guild id. The table is abstract state; whether
    RethinkDB answers a query, accepts a write or decodes a record is decided outside this program, so every
    operation takes those outcomes as parameters. */
module GuildStore {
  import opened Wrappers
  import opened GuildModels

  /** No role id occurs twice. */
  predicate NoDuplicates(roles: seq<string>)
  {
    forall i, j :: 0 <= i < j < |roles| ==> roles[i] != roles[j]
  }

  /** The array after RethinkDB's setInsert: unchanged when the value is already there, else the value appended. */
  function SetInsert(roles: seq<string>, roleId: string): (r: seq<string>)
    ensures roleId in r
    ensures forall x :: x in r <==> x in roles || x == roleId
    ensures NoDuplicates(roles) ==> NoDuplicates(r)
  {
    if roleId in roles then roles else roles + [roleId]
  }

  /** The errors GetOrCreateGuild wraps the store's errors in. */
  function QueryError(id: string, cause: string): string
  {
    "failed to query database for guild " + id + " because: " + cause
  }

  function InsertError(id: string, cause: string): string
  {
    "failed to insert new guild with id " + id + " because: " + cause
  }

  function ReadError(id: string, cause: string): string
  {
    "failed to read guild " + id + " from database because: " + cause
  }

  /** The table after GetOrCreateGuild: the default record is inserted for a missing id when the query and the
      insert succeed; nothing else changes. */
  function AfterGetOrCreate(rows: map<string, DiscordGuild>, id: string, queryError: Option<string>,
                            insertError: Option<string>): (r: map<string, DiscordGuild>)
    ensures r.Keys == rows.Keys || r.Keys == rows.Keys + {id}
    ensures forall g :: g in rows ==> g in r && r[g] == rows[g]
  {
    if queryError.None? && id !in rows && insertError.None? then rows[id := DefaultGuild(id)] else rows
  }

  class GuildsTable {
    /** The guild records, by guild id. */
    var rows: map<string, DiscordGuild>

    /** Each record is stored under its own id and lists each admin role once. */
    ghost predicate Valid()
      reads this
    {
      forall g :: g in rows ==> rows[g].discordGid == g && NoDuplicates(rows[g].adminRoles)
    }

    constructor ()
      ensures rows == map[] && Valid()
    {
      rows := map[];
    }

    /** GetOrCreateGuild as written: the record declared at the top is what is returned, and on the create path
        the default record is bound to a second variable of the same name, so the caller gets the empty record.
        `queryError`, `insertError` and `decodeError` are the store's answers to the read, the insert and the
        decoding of the stored record. */
    method GetOrCreateGuild(id: string, queryError: Option<string>, insertError: Option<string>,
                            decodeError: Option<string>)
      returns (r: Result<DiscordGuild, string>)
      requires Valid()
      modifies this
      ensures Valid()
      ensures rows == AfterGetOrCreate(old(rows), id, queryError, insertError)
      ensures queryError.None? && id !in old(rows) && insertError.None? ==> r == Success(EmptyGuild)
      ensures !(queryError.None? && id !in old(rows) && insertError.None?) ==>
        r == GetOrCreateAnswer(old(rows), id, queryError, insertError, decodeError)
    {
      var guildObj := EmptyGuild;
      if queryError.Some? {
        return Failure(QueryError(id, queryError.value));
      }
      if id !in rows {
        var guildObj := DefaultGuild(id);
        if insertError.Some? {
          return Failure(InsertError(id, insertError.value));
        }
        rows := rows[id := guildObj];
      } else {
        if decodeError.Some? {
          return Failure(ReadError(id, decodeError.value));
        }
        guildObj := rows[id];
      }
      return Success(guildObj);
    }

    /** GetOrCreateGuild as evidently intended: the inserted default record is the one returned. */
    method GetOrCreateGuildIntended(id: string, queryError: Option<string>, insertError: Option<string>,
                                    decodeError: Option<string>)
      returns (r: Result<DiscordGuild, string>)
      requires Valid()
      modifies this
      ensures Valid()
      ensures rows == AfterGetOrCreate(old(rows), id, queryError, insertError)
      ensures r == GetOrCreateAnswer(old(rows), id, queryError, insertError, decodeError)
    {
      var guildObj := EmptyGuild;
      if queryError.Some? {
        return Failure(QueryError(id, queryError.value));
      }
      if id !in rows {
        guildObj := DefaultGuild(id);
        if insertError.Some? {
          return Failure(InsertError(id, insertError.value));
        }
        rows := rows[id := guildObj];
      } else {
        if decodeError.Some? {
          return Failure(ReadError(id, decodeError.value));
        }
        guildObj := rows[id];
      }
      return Success(guildObj);
    }

    /** Adds a role to a guild's admin roles and returns how many records changed. A missing guild is skipped
        (0, no error); a role already present leaves the record unchanged (0). `writeError` is the error of the
        write itself, `firstError` the first per-record error the store reports. */
    method AddAdminRole(gid: string, roleId: string, writeError: Option<string>, firstError: Option<string>)
      returns (replaced: nat, err: Option<string>)
      requires Valid()
      modifies this
      ensures Valid()
      ensures rows == AfterAddAdminRole(old(rows), gid, roleId, writeError, firstError)
      ensures (replaced, err) == AddAdminRoleAnswer(old(rows), gid, roleId, writeError, firstError)
    {
      if writeError.Some? {
        return 0, writeError;
      }
      if firstError.Some? {
        return 0, firstError;
      }
      if gid !in rows || roleId in rows[gid].adminRoles {
        return 0, None;
      }
      var g := rows[gid];
      rows := rows[gid := g.(adminRoles := SetInsert(g.adminRoles, roleId))];
      return 1, None;
    }
  }

  /** What GetOrCreateGuild should answer: the stored record, or the default one it inserts, or the wrapped
      error of whichever step failed. */
  function GetOrCreateAnswer(rows: map<string, DiscordGuild>, id: string, queryError: Option<string>,
                             insertError: Option<string>, decodeError: Option<string>): Result<DiscordGuild, string>
  {
    if queryError.Some? then Failure(QueryError(id, queryError.value))
    else if id !in rows then
      if insertError.Some? then Failure(InsertError(id, insertError.value)) else Success(DefaultGuild(id))
    else if decodeError.Some? then Failure(ReadError(id, decodeError.value))
    else Success(rows[id])
  }

  /** The table after AddAdminRole: the role set-inserted into the guild's admin roles when the write succeeds
      and the guild exists. */
  function AfterAddAdminRole(rows: map<string, DiscordGuild>, gid: string, roleId: string,
                             writeError: Option<string>, firstError: Option<string>): map<string, DiscordGuild>
  {
    if writeError.Some? || firstError.Some? || gid !in rows then rows
    else rows[gid := rows[gid].(adminRoles := SetInsert(rows[gid].adminRoles, roleId))]
  }

  /** The count and error AddAdminRole returns. */
  function AddAdminRoleAnswer(rows: map<string, DiscordGuild>, gid: string, roleId: string,
                              writeError: Option<string>, firstError: Option<string>): (nat, Option<string>)
  {
    if writeError.Some? then (0, writeError)
    else if firstError.Some? then (0, firstError)
    else if gid in rows && roleId !in rows[gid].adminRoles then (1, None)
    else (0, None)
  }

  // ---------- properties ----------

  /** GetOrCreateGuild on a missing id stores the default record, and on a present id changes nothing and
      answers the stored record. */
  lemma GetOrCreateCases(rows: map<string, DiscordGuild>, id: string, insertError: Option<string>,
                         decodeError: Option<string>)
    ensures id !in rows && insertError.None? ==>
      && AfterGetOrCreate(rows, id, None, insertError) == rows[id := DefaultGuild(id)]
      && GetOrCreateAnswer(rows, id, None, insertError, decodeError) == Success(DefaultGuild(id))
    ensures id in rows ==>
      && AfterGetOrCreate(rows, id, None, insertError) == rows
      && (decodeError.None? ==> GetOrCreateAnswer(rows, id, None, insertError, decodeError) == Success(rows[id]))
  {
  }

  /** The record GetOrCreateGuild returns on the create path is the empty one, not the default it stored: its
      guild id is "" rather than the requested one. */
  lemma ShadowedGuildDiffers(id: string)
    requires id != ""
    ensures EmptyGuild != DefaultGuild(id)
    ensures EmptyGuild.discordGid == "" && DefaultGuild(id).discordGid == id
  {
    assert DefaultGuild(id).discordGid == id;
  }

  /** The two records the create path can return have the same admin roles (none), so an admin check gives the
      same verdict with either. */
  lemma ShadowedGuildSameAdmins(id: string)
    ensures EmptyGuild.adminRoles == DefaultGuild(id).adminRoles == []
  {
  }

  /** The intended answer is the record the table holds afterwards, whenever the calls succeed. */
  lemma AnswerIsStoredRecord(rows: map<string, DiscordGuild>, id: string, insertError: Option<string>,
                             decodeError: Option<string>)
    requires GetOrCreateAnswer(rows, id, None, insertError, decodeError).Success?
    ensures id in AfterGetOrCreate(rows, id, None, insertError)
    ensures GetOrCreateAnswer(rows, id, None, insertError, decodeError).value
            == AfterGetOrCreate(rows, id, None, insertError)[id]
  {
  }

  /** After a successful AddAdminRole on a stored guild, the role is among its admin roles exactly once, the
      other roles stay, and no other guild changes; the count is 1 exactly when the role was new. */
  lemma AddAdminRoleEffect(rows: map<string, DiscordGuild>, gid: string, roleId: string)
    requires gid in rows && NoDuplicates(rows[gid].adminRoles)
    ensures gid in AfterAddAdminRole(rows, gid, roleId, None, None)
    ensures roleId in AfterAddAdminRole(rows, gid, roleId, None, None)[gid].adminRoles
    ensures NoDuplicates(AfterAddAdminRole(rows, gid, roleId, None, None)[gid].adminRoles)
    ensures forall x :: x in rows[gid].adminRoles ==> x in AfterAddAdminRole(rows, gid, roleId, None, None)[gid].adminRoles
    ensures forall g :: g in rows && g != gid ==> AfterAddAdminRole(rows, gid, roleId, None, None)[g] == rows[g]
    ensures AddAdminRoleAnswer(rows, gid, roleId, None, None).0 == 1 <==> roleId !in rows[gid].adminRoles
  {
  }

  /** Adding an admin role twice changes nothing the second time and reports 0. */
  lemma AddAdminRoleIdempotent(rows: map<string, DiscordGuild>, gid: string, roleId: string)
    ensures AfterAddAdminRole(AfterAddAdminRole(rows, gid, roleId, None, None), gid, roleId, None, None)
            == AfterAddAdminRole(rows, gid, roleId, None, None)
    ensures gid in rows ==>
      AddAdminRoleAnswer(AfterAddAdminRole(rows, gid, roleId, None, None), gid, roleId, None, None) == (0, None)
  {
  }

  /** A failed write leaves the table unchanged and answers (0, the error). */
  lemma AddAdminRoleFailure(rows: map<string, DiscordGuild>, gid: string, roleId: string,
                            writeError: Option<string>, firstError: Option<string>)
    requires writeError.Some? || firstError.Some?
    ensures AfterAddAdminRole(rows, gid, roleId, writeError, firstError) == rows
    ensures AddAdminRoleAnswer(rows, gid, roleId, writeError, firstError).0 == 0
    ensures AddAdminRoleAnswer(rows, gid, roleId, writeError, firstError).1.Some?
  {
  }
}
