/** The admin side of the bot's commands (bot/admin_commands.go): who counts as an admin, adding an admin
    role, and reading the flags of a reaction-assigned role. Discord and the store are the classes of modules
    Session and GuildStore; the answers they give are parameters. */
module AdminCommands {
  import opened Wrappers
  import opened GuildModels
  import opened Session
  import opened GuildStore
  import opened Responses
  import Commands

  // ---------- isDev / isFromAdmin ----------

  /** Whether a user is the developer named by the NIA_DISCORD_DEV_UID environment variable; `devUid` is that
      variable's value, None when it is not set. */
  predicate IsDev(userId: string, devUid: Option<string>)
  {
    devUid.Some? && userId == devUid.value
  }

  /** Some admin role is among the member's roles. */
  predicate SharesRole(adminRoles: seq<string>, memberRoles: seq<string>)
  {
    exists r :: r in adminRoles && r in memberRoles
  }

  /** Whether a value occurs in a list, by scanning it. */
  method Contains(xs: seq<string>, x: string) returns (found: bool)
    ensures found <==> x in xs
  {
    var i := 0;
    while i < |xs|
      invariant i <= |xs|
      invariant x !in xs[..i]
    {
      if xs[i] == x {
        return true;
      }
      i := i + 1;
    }
    assert xs[..i] == xs;
    return false;
  }

  /** The nested scan of the admin roles against the member's roles. */
  method HasAdminRole(adminRoles: seq<string>, memberRoles: seq<string>) returns (found: bool)
    ensures found <==> SharesRole(adminRoles, memberRoles)
  {
    var i := 0;
    while i < |adminRoles|
      invariant i <= |adminRoles|
      invariant !SharesRole(adminRoles[..i], memberRoles)
    {
      var hit := Contains(memberRoles, adminRoles[i]);
      if hit {
        assert adminRoles[i] in adminRoles;
        return true;
      }
      assert adminRoles[..i + 1] == adminRoles[..i] + [adminRoles[i]];
      i := i + 1;
    }
    assert adminRoles[..i] == adminRoles;
    return false;
  }

  /** The verdict of isFromAdmin given Discord's guild object and the stored guild record: the developer is
      always an admin; then the guild owner; then any member holding an admin role. A failure to fetch
      either guild gives (false, the error). */
  function AdminVerdict(userId: string, memberRoles: seq<string>, devUid: Option<string>,
                        guild: Result<GuildInfo, string>, stored: Result<DiscordGuild, string>)
    : (r: (bool, Option<string>))
    ensures r.1.Some? ==> !r.0
  {
    if IsDev(userId, devUid) then (true, None)
    else if guild.Failure? then (false, Some(guild.error))
    else if guild.value.ownerId == userId then (true, None)
    else if stored.Failure? then (false, Some(stored.error))
    else (SharesRole(stored.value.adminRoles, memberRoles), None)
  }

  /** Whether isFromAdmin reads the stored guild: only for a user who is neither the developer nor the owner, and
      only once Discord answered. */
  predicate ReadsStore(userId: string, devUid: Option<string>, guild: Result<GuildInfo, string>)
  {
    !IsDev(userId, devUid) && guild.Success? && guild.value.ownerId != userId
  }

  /** Checks whether a message's author is an admin of the guild. `guild` is Discord's answer to the guild
      request; `queryError`, `insertError` and `decodeError` are the store's answers inside GetOrCreateGuild. */
  method IsFromAdmin(session: DiscordSession, guilds: GuildsTable, userId: string, memberRoles: seq<string>,
                     guildId: string, devUid: Option<string>, guild: Result<GuildInfo, string>,
                     queryError: Option<string>, insertError: Option<string>, decodeError: Option<string>)
    returns (ok: bool, err: Option<string>)
    requires guilds.Valid()
    modifies session, guilds
    ensures guilds.Valid()
    ensures (ok, err) == AdminVerdict(userId, memberRoles, devUid, guild,
                                      GetOrCreateAnswer(old(guilds.rows), guildId, queryError, insertError, decodeError))
    ensures session.memberRoles == old(session.memberRoles)
    ensures session.calls == old(session.calls) + (if IsDev(userId, devUid) then [] else [FetchGuild(guildId)])
    ensures guilds.rows == if ReadsStore(userId, devUid, guild)
                           then AfterGetOrCreate(old(guilds.rows), guildId, queryError, insertError)
                           else old(guilds.rows)
  {
    if devUid.Some? && userId == devUid.value {
      return true, None;
    }
    var g := session.Guild(guildId, guild);
    if g.Failure? {
      return false, Some(g.error);
    } else if g.value.ownerId == userId {
      return true, None;
    }
    var localGuild := guilds.GetOrCreateGuildIntended(guildId, queryError, insertError, decodeError);
    if localGuild.Failure? {
      return false, Some(localGuild.error);
    }
    ok := HasAdminRole(localGuild.value.adminRoles, memberRoles);
    err := None;
  }

  /** An admin is the developer, the owner, or a holder of an admin role; an error means no verdict. */
  lemma AdminVerdictIff(userId: string, memberRoles: seq<string>, devUid: Option<string>,
                        guild: Result<GuildInfo, string>, stored: Result<DiscordGuild, string>)
    ensures AdminVerdict(userId, memberRoles, devUid, guild, stored).0 <==>
      || IsDev(userId, devUid)
      || (guild.Success? && guild.value.ownerId == userId)
      || (guild.Success? && stored.Success? && SharesRole(stored.value.adminRoles, memberRoles))
    ensures AdminVerdict(userId, memberRoles, devUid, guild, stored).1.Some? <==>
      !IsDev(userId, devUid) && (guild.Failure? || (guild.value.ownerId != userId && stored.Failure?))
  {
  }

  /** A user whose guild has no stored record yet is an admin only as the developer or the owner: the record
      GetOrCreateGuild creates has no admin roles. */
  lemma NewGuildHasOnlyOwner(rows: map<string, DiscordGuild>, userId: string, memberRoles: seq<string>,
                             devUid: Option<string>, guild: Result<GuildInfo, string>, guildId: string,
                             decodeError: Option<string>)
    requires guildId !in rows
    ensures AdminVerdict(userId, memberRoles, devUid, guild, GetOrCreateAnswer(rows, guildId, None, None, decodeError)).0
            <==> IsDev(userId, devUid) || (guild.Success? && guild.value.ownerId == userId)
  {
  }

  // ---------- addAdminRole ----------

  /** The syntax hint of the !addadminrole command. */
  const AddAdminRoleSyntax: string := "`!addadminrole \"<role>\"` or `!addadminrole @<role>"

  /** The reply of addAdminRole, given the store's answers. */
  function AddAdminResponse(rows: map<string, DiscordGuild>, gid: string, roleId: string,
                            queryError: Option<string>, insertError: Option<string>, decodeError: Option<string>,
                            writeError: Option<string>, firstError: Option<string>): Response
  {
    var created := GetOrCreateAnswer(rows, gid, queryError, insertError, decodeError);
    if created.Failure? then
      InternalError("Encountered error " + created.error + " when trying to add role " + roleId
                    + " to admins on server " + gid, None)
    else
      var rows1 := AfterGetOrCreate(rows, gid, queryError, insertError);
      var (replaced, err) := AddAdminRoleAnswer(rows1, gid, roleId, writeError, firstError);
      if err.Some? then
        InternalError("Encountered database error " + err.value + " when trying to add role " + roleId
                      + " to admins on server " + gid, None)
      else if replaced == 0 then SyntaxError("Role " + roleId + " is already set as an admin", AddAdminRoleSyntax)
      else Succeeded
  }

  /** The guilds table after addAdminRole. */
  function AfterAddAdmin(rows: map<string, DiscordGuild>, gid: string, roleId: string,
                         queryError: Option<string>, insertError: Option<string>, decodeError: Option<string>,
                         writeError: Option<string>, firstError: Option<string>): map<string, DiscordGuild>
  {
    var rows1 := AfterGetOrCreate(rows, gid, queryError, insertError);
    if GetOrCreateAnswer(rows, gid, queryError, insertError, decodeError).Failure? then rows1
    else AfterAddAdminRole(rows1, gid, roleId, writeError, firstError)
  }

  /** Makes sure the guild's record exists, then adds the role to its admin roles; a count of 0 means the role
      was already an admin. */
  method AddAdminRoleCommand(guilds: GuildsTable, gid: string, roleId: string, queryError: Option<string>,
                             insertError: Option<string>, decodeError: Option<string>, writeError: Option<string>,
                             firstError: Option<string>)
    returns (resp: Response)
    requires guilds.Valid()
    modifies guilds
    ensures guilds.Valid()
    ensures guilds.rows == AfterAddAdmin(old(guilds.rows), gid, roleId, queryError, insertError, decodeError,
                                         writeError, firstError)
    ensures resp == AddAdminResponse(old(guilds.rows), gid, roleId, queryError, insertError, decodeError,
                                     writeError, firstError)
  {
    var created := guilds.GetOrCreateGuildIntended(gid, queryError, insertError, decodeError);
    if created.Failure? {
      return InternalError("Encountered error " + created.error + " when trying to add role " + roleId
                           + " to admins on server " + gid, None);
    }
    var noUpdated, err := guilds.AddAdminRole(gid, roleId, writeError, firstError);
    if err.Some? {
      return InternalError("Encountered database error " + err.value + " when trying to add role " + roleId
                           + " to admins on server " + gid, None);
    } else if noUpdated == 0 {
      return SyntaxError("Role " + roleId + " is already set as an admin", AddAdminRoleSyntax);
    }
    return Succeeded;
  }

  /** When the store answers every request, the role ends up among the guild's admin roles, whether or not the
      guild had a record before; the reply is success exactly when the role was not an admin already, and is
      the "already set" reply otherwise. */
  lemma AddAdminStoresRole(rows: map<string, DiscordGuild>, gid: string, roleId: string)
    requires forall g :: g in rows ==> rows[g].discordGid == g && NoDuplicates(rows[g].adminRoles)
    ensures gid in AfterAddAdmin(rows, gid, roleId, None, None, None, None, None)
    ensures roleId in AfterAddAdmin(rows, gid, roleId, None, None, None, None, None)[gid].adminRoles
    ensures NoDuplicates(AfterAddAdmin(rows, gid, roleId, None, None, None, None, None)[gid].adminRoles)
    ensures AddAdminResponse(rows, gid, roleId, None, None, None, None, None) == Succeeded
            <==> gid !in rows || roleId !in rows[gid].adminRoles
    ensures AddAdminResponse(rows, gid, roleId, None, None, None, None, None) != Succeeded ==>
            AddAdminResponse(rows, gid, roleId, None, None, None, None, None)
            == SyntaxError("Role " + roleId + " is already set as an admin", AddAdminRoleSyntax)
  {
    var rows1 := AfterGetOrCreate(rows, gid, None, None);
    assert gid in rows1 && NoDuplicates(rows1[gid].adminRoles);
    AddAdminRoleEffect(rows1, gid, roleId);
  }

  /** A store failure changes no admin roles and is reported as an internal error. */
  lemma AddAdminStoreFailure(rows: map<string, DiscordGuild>, gid: string, roleId: string,
                             queryError: Option<string>, writeError: Option<string>)
    requires queryError.Some? || writeError.Some?
    ensures AddAdminResponse(rows, gid, roleId, queryError, None, None, writeError, None).InternalError?
    ensures forall g :: g in rows ==>
      g in AfterAddAdmin(rows, gid, roleId, queryError, None, None, writeError, None)
      && AfterAddAdmin(rows, gid, roleId, queryError, None, None, writeError, None)[g] == rows[g]
  {
  }

  // ---------- the flags of a reaction-assigned role ----------

  /** strings.Split(s, " "): the pieces between the spaces, empty ones included. */
  function SplitOnSpace(s: string): (r: seq<string>)
    ensures |r| >= 1
    ensures forall i :: 0 <= i < |r| ==> ' ' !in r[i]
    ensures JoinWithSpace(r) == s
    decreases |s|
  {
    var w := Commands.FirstWord(s);
    if |w| == |s| then
      assert w == s;
      [s]
    else
      var r := [w] + SplitOnSpace(s[|w| + 1..]);
      assert s == w + " " + s[|w| + 1..];
      assert r[1..] == SplitOnSpace(s[|w| + 1..]);
      r
  }

  /** The pieces joined with single spaces. */
  function JoinWithSpace(pieces: seq<string>): string
    requires |pieces| >= 1
  {
    if |pieces| == 1 then pieces[0] else pieces[0] + " " + JoinWithSpace(pieces[1..])
  }

  /** Splitting undoes joining, for pieces without spaces. */
  lemma {:induction false} SplitJoin(pieces: seq<string>)
    requires |pieces| >= 1 && forall i :: 0 <= i < |pieces| ==> ' ' !in pieces[i]
    ensures SplitOnSpace(JoinWithSpace(pieces)) == pieces
  {
    if |pieces| > 1 {
      var rest := JoinWithSpace(pieces[1..]);
      var s := pieces[0] + " " + rest;
      Commands.FirstWordOf(pieces[0], " " + rest);
      assert s == pieces[0] + (" " + rest);
      assert s[|pieces[0]| + 1..] == rest;
      SplitJoin(pieces[1..]);
    }
  }

  /** The reactions the bot adds while reading flags: one per "initialreact" token, in order. */
  function InitialReactions(flags: seq<string>, chanId: string, msgId: string, emojiId: string): seq<SessionCall>
  {
    if flags == [] then []
    else InitialReactions(flags[..|flags| - 1], chanId, msgId, emojiId)
         + (if flags[|flags| - 1] == "initialreact" then [AddReaction(chanId, msgId, emojiId)] else [])
  }

  /** Reads the flag tokens of a reaction-assigned role into its options: "clearafter" sets shouldClear,
      "initialreact" sets botShouldReact and adds the bot's reaction at once, "noremove" sets
      disallowRoleRemoveal; empty and unknown tokens change nothing. The reaction's errors, `reactOutcomes`
      (one per token), are only logged. */
  method ReadReactionFlags(session: DiscordSession, flags: seq<string>, chanId: string, msgId: string,
                           emojiId: string, reactOutcomes: seq<Option<string>>)
    returns (data: ReactionRoleAssign)
    requires |reactOutcomes| == |flags|
    modifies session
    ensures data == ReactionRoleAssign(msgId, chanId, emojiId, "clearafter" in flags, "initialreact" in flags,
                                       "noremove" in flags)
    ensures session.calls == old(session.calls) + InitialReactions(flags, chanId, msgId, emojiId)
    ensures session.memberRoles == old(session.memberRoles)
  {
    var shouldClear := false;
    var initialReact := false;
    var noRemove := false;
    var i := 0;
    while i < |flags|
      invariant i <= |flags|
      invariant shouldClear <==> "clearafter" in flags[..i]
      invariant initialReact <==> "initialreact" in flags[..i]
      invariant noRemove <==> "noremove" in flags[..i]
      invariant session.calls == old(session.calls) + InitialReactions(flags[..i], chanId, msgId, emojiId)
      invariant session.memberRoles == old(session.memberRoles)
    {
      var flag := flags[i];
      assert flags[..i + 1] == flags[..i] + [flag];
      assert flags[..i + 1][..i] == flags[..i];
      if flag == "clearafter" {
        shouldClear := true;
      } else if flag == "initialreact" {
        initialReact := true;
        var _ := session.MessageReactionAdd(chanId, msgId, emojiId, reactOutcomes[i]);
      } else if flag == "noremove" {
        noRemove := true;
      }
      i := i + 1;
    }
    assert flags[..i] == flags;
    data := ReactionRoleAssign(msgId, chanId, emojiId, shouldClear, initialReact, noRemove);
  }

  /** The bot adds exactly one reaction, to the referenced message with the given emoji, per "initialreact"
      token. */
  lemma {:induction false} InitialReactionsCount(flags: seq<string>, chanId: string, msgId: string, emojiId: string)
    ensures |InitialReactions(flags, chanId, msgId, emojiId)| == multiset(flags)["initialreact"]
    ensures forall c :: c in InitialReactions(flags, chanId, msgId, emojiId) ==> c == AddReaction(chanId, msgId, emojiId)
  {
    if flags != [] {
      var init := flags[..|flags| - 1];
      InitialReactionsCount(init, chanId, msgId, emojiId);
      assert flags == init + [flags[|flags| - 1]];
      assert multiset(flags) == multiset(init) + multiset{flags[|flags| - 1]};
    }
  }

  /** Two spaces between flags make an empty token between them, which reads as no flag. */
  lemma FlagsReadFromDoubleSpaces(a: string, b: string)
    requires ' ' !in a && ' ' !in b
    ensures SplitOnSpace(a + "  " + b) == [a, "", b]
  {
    var pieces := [a, "", b];
    assert pieces[1..] == ["", b] && pieces[1..][1..] == [b];
    assert JoinWithSpace(pieces[1..][1..]) == b;
    assert JoinWithSpace(pieces[1..]) == "" + " " + b;
    assert JoinWithSpace(pieces) == a + " " + ("" + " " + b);
    assert a + "  " + b == a + " " + ("" + " " + b);
    SplitJoin(pieces);
  }
}
