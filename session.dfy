/** The part of the Discord session (discordgo) the core talks to, as abstract state: the role sets of the
    guild's members and a log of the requests sent. Every request takes its outcome as a parameter, because
    whether Discord accepts a request is not decided by this program. */
module Session {
  import opened Wrappers
  import opened GuildModels

  /** A guild member as Discord lists it. */
  datatype Member = Member(userId: string, nick: string, roles: seq<string>)

  /** A guild role. */
  datatype Role = Role(id: string, name: string)

  /** A guild channel. */
  datatype Channel = Channel(id: string, name: string)

  /** The guild object Discord returns. */
  datatype GuildInfo = GuildInfo(ownerId: string)

  /** A request sent to Discord (or to the bot's opaque reaction reset, which talks to Discord). */
  datatype SessionCall =
    | FetchGuild(guildId: string)
    | RemoveRole(guildId: string, userId: string, roleId: string)
    | AddReaction(chanId: string, msgId: string, emojiId: string)
    | ResetReactions(data: Option<ReactionRoleAssign>)

  class DiscordSession {
    /** The role ids each member holds. */
    var memberRoles: map<string, set<string>>
    /** Every request sent, oldest first. */
    var calls: seq<SessionCall>

    constructor (roles: map<string, set<string>>)
      ensures memberRoles == roles && calls == []
    {
      memberRoles := roles;
      calls := [];
    }

    /** Removes a role from a member; `outcome` is Discord's error, if it reports one. */
    method GuildMemberRoleRemove(guildId: string, userId: string, roleId: string, outcome: Option<string>)
      returns (err: Option<string>)
      modifies this
      ensures calls == old(calls) + [RemoveRole(guildId, userId, roleId)]
      ensures err == outcome
      ensures memberRoles == RoleRemoved(old(memberRoles), userId, roleId, outcome)
    {
      calls := calls + [RemoveRole(guildId, userId, roleId)];
      memberRoles := RoleRemoved(memberRoles, userId, roleId, outcome);
      err := outcome;
    }

    /** Adds the bot's reaction to a message; Discord's error, if any, is returned. */
    method MessageReactionAdd(chanId: string, msgId: string, emojiId: string, outcome: Option<string>)
      returns (err: Option<string>)
      modifies this
      ensures calls == old(calls) + [AddReaction(chanId, msgId, emojiId)]
      ensures memberRoles == old(memberRoles)
      ensures err == outcome
    {
      calls := calls + [AddReaction(chanId, msgId, emojiId)];
      err := outcome;
    }

    /** The bot's reaction reset for a reaction-assigned role (resetAssignmentReactions, not part of this
        model); `outcome` is its error, if any. */
    method ResetAssignmentReactions(data: Option<ReactionRoleAssign>, outcome: Option<string>)
      returns (err: Option<string>)
      modifies this
      ensures calls == old(calls) + [ResetReactions(data)]
      ensures memberRoles == old(memberRoles)
      ensures err == outcome
    {
      calls := calls + [ResetReactions(data)];
      err := outcome;
    }

    /** Fetches the guild object; `outcome` is what Discord answers. */
    method Guild(guildId: string, outcome: Result<GuildInfo, string>) returns (r: Result<GuildInfo, string>)
      modifies this
      ensures calls == old(calls) + [FetchGuild(guildId)]
      ensures memberRoles == old(memberRoles)
      ensures r == outcome
    {
      calls := calls + [FetchGuild(guildId)];
      r := outcome;
    }
  }

  /** The role sets after a removal request: changed only when Discord accepted it. */
  function RoleRemoved(roles: map<string, set<string>>, userId: string, roleId: string, outcome: Option<string>)
    : (r: map<string, set<string>>)
    ensures r.Keys == roles.Keys
    ensures outcome.None? && userId in roles ==> roleId !in r[userId]
    ensures forall u :: u in roles && (u != userId || outcome.Some?) ==> r[u] == roles[u]
    ensures forall u :: u in roles && u == userId ==> r[u] <= roles[u]
  {
    if outcome.None? && userId in roles then roles[userId := roles[userId] - {roleId}] else roles
  }
}
