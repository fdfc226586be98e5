/** The stored records of the bot (package guildmodels). */
module GuildModels {
  import opened Wrappers

  /** A link to a single Twitch broadcaster. */
  datatype TwitchConnectionData = TwitchConnectionData(twitchUid: string)

  /** The external accounts of a member; Twitch is the only kind, so a member holds at most one link. */
  datatype MemberConnections = MemberConnections(twitchConnection: Option<TwitchConnectionData>)

  /** Stored data of a member. The record's identity is the pair (guildId, userId). */
  datatype MemberData = MemberData(guildId: string, userId: string, connections: MemberConnections)

  /** The key of a member record. */
  datatype MemberKey = MemberKey(guildId: string, userId: string)

  function KeyOf(m: MemberData): MemberKey
  {
    MemberKey(m.guildId, m.userId)
  }

  /** The number of links that are set. */
  function NumConnections(cs: MemberConnections): (n: nat)
    ensures n <= 1
    ensures n == 1 <==> cs.twitchConnection.Some?
  {
    var res := 0;
    if cs.twitchConnection.Some? then res + 1 else res
  }

  /** Where each kind of alert is posted in a guild. */
  datatype NotificationChannels = NotificationChannels(streamNotificationsChannel: Option<string>)

  /** Per-guild configuration. */
  datatype DiscordGuild = DiscordGuild(
    discordGid: string,
    adminRoles: seq<string>,
    notificationChannels: Option<NotificationChannels>)

  /** The otherwise-empty configuration of a guild. */
  function DefaultGuild(gid: string): DiscordGuild
  {
    DiscordGuild(gid, [], None)
  }

  /** A zero-valued guild record, which is what Go's `var guildObj guildmodels.DiscordGuild` holds. */
  const EmptyGuild: DiscordGuild := DiscordGuild("", [], None)

  /** Options of a reaction-assigned role, including the two flags the commands set. */
  datatype ReactionRoleAssign = ReactionRoleAssign(
    msgId: string,
    chanId: string,
    emojiId: string,
    shouldClear: bool,
    botShouldReact: bool,
    disallowRoleRemoveal: bool)

  /** How a role is assigned: `assignmentType` is "reaction", "nowlive", or any other stored text. */
  datatype RoleAssignment = RoleAssignment(assignmentType: string, reactionRoleData: Option<ReactionRoleAssign>)

  /** A role the bot assigns automatically. */
  datatype ManagedRoleRule = ManagedRoleRule(roleId: string, guildId: string, roleAssignment: RoleAssignment)
}
