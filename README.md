# nia — a Dafny model of the bot's command, paging, subscription and store logic

nia is a Discord bot. It manages roles for a guild's members. Some roles are handed out when a member reacts to
a message. Others are handed out while a linked Twitch broadcaster is streaming. This project models the
bot's sequential core and proves properties of it:

- the admin commands: who counts as an admin, adding an admin role, the flags of a reaction-assigned role,
  purging a role, and the success or partial-success report of a purge;
- the pager over a guild's members and its `maxUID` cursor;
- the creation of a stream-online/stream-offline subscription pair with rollback, and the startup step that
  clears all subscriptions and then subscribes every initial broadcaster;
- the `!registertwitch` flow;
- the member and guild tables of the document store;
- the small text interpreters for message references, emoji, role strings and channel strings, the rule-type
  dispatch, and the command-word dispatch of every message.

External services are not executed. They are objects with abstract state and a log of the calls made on them:

- Discord is `Session.DiscordSession`: each member's roles plus the call log.
- The Twitch EventSub provider is `Twitch.EventsubClient`: its subscriptions plus the call log.
- The store tables are `MemberStore.MembersTable` and `GuildStore.GuildsTable`.

Every answer such a service gives is a parameter: an outcome for each call, in the order the calls are made.
So each contract covers every possible answer, and "no call was made" can be stated.

- Modules follow the source packages: `AdminCommands` and `RolePurge` (bot/admin_commands.go), `Commands`,
  `StreamCommands`, `BotUtil` (bot/util.go), `GuildMembers` (discord/guild_members.go), `Twitch`,
  `MemberStore` (db/member.go), `GuildStore` (db/guild.go), `GuildModels`.
- `Wrappers`, `Lex` (Go's byte-wise string order), `Session` and `Responses` are support modules.
- Go's nil slices are empty sequences. In `doRolePurge` a result list is nil exactly when nothing was appended
  to it.
- The regular expressions are not a regex engine. Each one is hand-coded with Go's leftmost-first
  alternation semantics: the first alternative that matches at the leftmost possible position wins.

## Model

| member | source | states |
|---|---|---|
| GuildModels.NumConnections | guildmodels/member.go:16-22 | the count is at most 1, and is 1 exactly when a Twitch link is set |
| Commands.FirstWord | bot/commands.go:13 | the first piece of the split at " " is a prefix with no space, followed by a space or the end |
| Commands.TrimBangs | bot/commands.go:14 | the result is a suffix of the word, does not start with '!', and only '!' was removed |
| Commands.HandleMessage | bot/commands.go:10-23 | empty content is the index-out-of-range outcome; content not starting with '!' dispatches nothing |
| Commands.CommandWordOf | bot/commands.go:13-14 | the command word of any number of '!', a word, and then nothing or a space and anything, is that word |
| Commands.DispatchIff | bot/commands.go:11-19 | a message is a command for a word exactly when it starts with '!' and its command word is that word |
| Commands.DispatchesAddAdmin | bot/commands.go:16-17 | a message reaches HandleAddAdminMessage exactly when it is one or more '!', "addadminrole", then the end or a space |
| Commands.DispatchesAddManagedRole | bot/commands.go:18-19 | the same for "addmanagedrole" and HandleAddManagedRoleMessage |
| Commands.UnhandledCommand | bot/commands.go:15-21 | every other command word, e.g. purgerole or registertwitch, reaches no handler |
| AdminCommands.Contains | bot/admin_commands.go:708-712 | the inner scan finds a value exactly when it is in the list |
| AdminCommands.HasAdminRole | bot/admin_commands.go:707-714 | the nested scan succeeds exactly when some admin role is among the member's roles |
| AdminCommands.AdminVerdict | bot/admin_commands.go:688-715 | a verdict that carries an error is always false |
| AdminCommands.IsFromAdmin | bot/admin_commands.go:688-723 | the answer is the verdict on Discord's and the store's answers; Discord is asked for the guild unless the user is the developer; the store is read, and the guild created, only for a user who is neither developer nor owner; the developer test is `AdminCommands.IsDev`, a match of the user with the environment variable's value when it is set |
| AdminCommands.AdminVerdictIff | bot/admin_commands.go:688-723 | admin exactly when developer, owner, or holder of an admin role; an error exactly when not the developer and a fetch failed |
| AdminCommands.NewGuildHasOnlyOwner | bot/admin_commands.go:701-714 | for a guild with no stored record only the developer and the owner are admins |
| AdminCommands.AddAdminRoleCommand | bot/admin_commands.go:82-119 | the guild table and the reply are those of get-or-create followed by the admin-role insert, with each error path's reply; `AdminCommands.AddAdminResponse` is the reply for each answer of the store |
| AdminCommands.AddAdminStoresRole | bot/admin_commands.go:82-119 | with no store errors the role becomes an admin role, without duplicates; the reply is success exactly when it was new, and "already set as an admin" otherwise |
| AdminCommands.AddAdminStoreFailure | bot/admin_commands.go:85-104 | a query or write error is an internal error and changes no stored guild |
| AdminCommands.SplitOnSpace | bot/admin_commands.go:237 | the pieces contain no space, there is at least one, and joining them with spaces gives back the input |
| AdminCommands.SplitJoin | bot/admin_commands.go:237 | splitting a space-joined list of space-free tokens gives back the list |
| AdminCommands.ReadReactionFlags | bot/admin_commands.go:260-290 | each flag is set exactly when its token occurs; the bot adds its reaction once per "initialreact" token; no roles change |
| AdminCommands.InitialReactionsCount | bot/admin_commands.go:268-274 | the number of reactions added is the number of "initialreact" tokens, all on the referenced message with the given emoji |
| AdminCommands.FlagsReadFromDoubleSpaces | bot/admin_commands.go:237 | two spaces make an empty token between the flags |
| RolePurge.ListingError | bot/admin_commands.go:549-551 | no error exactly when no listing item carries an error |
| RolePurge.SelectMembers | bot/admin_commands.go:549-562 | the scan returns the first listing error, and without one the selected members |
| RolePurge.ContainsRole | bot/admin_commands.go:554-560 | the scan of a member's roles finds the role exactly when the member holds it |
| RolePurge.ListingErrorSplit | bot/admin_commands.go:549-551 | after an error-free prefix the first error is the first error of the rest |
| RolePurge.SelectedAreHolders | bot/admin_commands.go:552-561 | a member is selected as often as it is listed when it holds the role, and never otherwise |
| RolePurge.SelectedInOrder | bot/admin_commands.go:552-561 | selection keeps the listing order: the selection of a concatenation is the concatenation of the selections |
| RolePurge.RemovalCalls | bot/admin_commands.go:564-566 | one removal request per selected member, of the role, in order |
| RolePurge.RemoveFromAll | bot/admin_commands.go:564-574 | one removal per member in order; the new roles are the removals' effect; the failures are those of the failed removals |
| RolePurge.RemovalFailuresAreRefusals | bot/admin_commands.go:564-574 | as many failures as refusals; each failure is a refused member with its error; every refused member is among them |
| RolePurge.RemovalFailuresInOrder | bot/admin_commands.go:564-574 | the failures of a batch split in two are the first part's followed by the second part's, so they keep the removal order |
| RolePurge.RemovalsTakeTheRole | bot/admin_commands.go:564-574 | a member whose removal succeeded no longer holds the role; members not selected are untouched |
| RolePurge.UndoAll | bot/admin_commands.go:582-593 | one undo per rule in order, with no role changes; the failures are those of the failed undos |
| RolePurge.OneResetPerReactionRule | bot/admin_commands.go:582-593 | the reaction reset is requested once per reaction rule, in order, and never for other rules |
| RolePurge.OnlyReactionRulesFail | bot/admin_commands.go:582-593 | only reaction rules can fail, and at most one failure per reaction rule |
| RolePurge.ReactionRulesAreReactions | bot/util.go:141 | the reaction rules are exactly the rules of type "reaction" |
| RolePurge.DoRolePurge | bot/admin_commands.go:546-594 | a listing error returns that error with no call made; otherwise every holder gets one removal and failures never stop the batch; a rule-lookup error returns the member failures and undoes nothing; otherwise every rule gets one undo and the error is nil |
| RolePurge.BuildCausesMap | bot/admin_commands.go:492-495 | the loop builds the grouping of failed members by error text |
| RolePurge.CausesGroupByError | bot/admin_commands.go:492-495 | the keys are exactly the error texts that occur; each maps to its members' nicks in order |
| RolePurge.NicksWithErrorAbsent | bot/admin_commands.go:492-495 | an error text that occurs nowhere groups nobody |
| RolePurge.PurgeReportAsWritten | bot/admin_commands.go:474-516 | an error is a failure report; otherwise success exactly when both lists are empty; a partial report always carries both entries |
| RolePurge.PurgeReportIntended | bot/admin_commands.go:474-516 | as above, but a partial report carries each entry exactly when its list is non-empty |
| RolePurge.EmptyRuleEntryReported | bot/admin_commands.go:502 | failed members with no failed rules still get an (empty) rule entry |
| RolePurge.PurgeOutcomes | bot/admin_commands.go:546-594 | with an error-free listing and all removals and undos succeeding, the purge reports success |
| RolePurge.NoFailuresWithoutErrors | bot/admin_commands.go:567-573 | removals without errors give no failures |
| RolePurge.NoRuleFailuresWithoutErrors | bot/admin_commands.go:584-592 | undos without errors give no failures |
| Session.RoleRemoved | bot/admin_commands.go:565-566 | a successful removal takes the role from that member; a failed one changes nothing; other members are untouched |
| Session.DiscordSession.GuildMemberRoleRemove | bot/admin_commands.go:566 | logs the removal request, returns its outcome, and applies `RoleRemoved` |
| Session.DiscordSession.MessageReactionAdd | bot/admin_commands.go:270 | logs the reaction request and returns its outcome; no roles change |
| Session.DiscordSession.ResetAssignmentReactions | bot/util.go:142 | logs the reset request and returns its outcome; no roles change |
| Session.DiscordSession.Guild | bot/admin_commands.go:694 | logs the guild request and returns Discord's answer; no roles change |
| Lex.LessIrreflexive | discord/guild_members.go:71 | Go's string order is irreflexive |
| Lex.LessTransitive | discord/guild_members.go:71 | Go's string order is transitive |
| Lex.LessTotal | discord/guild_members.go:71 | Go's string order is total |
| Lex.NotNumeric | discord/guild_members.go:71 | "10" sorts before "9" |
| GuildMembers.MaxUid | discord/guild_members.go:67-75 | the result is "0" or one of the ids, and is at least "0" and every id in string order |
| GuildMembers.MaxUidIsGreatest | discord/guild_members.go:67-75 | the same for the specification function |
| GuildMembers.MaxUidOfEmpty | discord/guild_members.go:67-75 | an empty page gives "0" |
| GuildMembers.MaxUidIsNotNumeric | discord/guild_members.go:71 | of "9" and "10" the maximum is "9" |
| GuildMembers.GuildMembersIter | discord/guild_members.go:17-65 | the items sent and the page requests made are those of the listing |
| GuildMembers.ItemsFromAreMembers | discord/guild_members.go:30-59 | each member of a page is emitted once, in page order |
| GuildMembers.ErrorOnlyLast | discord/guild_members.go:41-53 | only the last item can be an error, and the exhausted-iterator item is never sent |
| GuildMembers.ErrorIffFailedStop | discord/guild_members.go:41-53 | the last item is an error exactly when the listing ends with a failed fetch |
| GuildMembers.RequestsCount | discord/guild_members.go:37-53 | one request per answer up to the one that ends the listing; each asks this guild for 512 members; the first asks after the given cursor |
| GuildMembers.RequestsAreChained | discord/guild_members.go:37-59 | each later request asks after maxUID of the page before it, which was non-empty |
| Twitch.WithoutId | twitch/twitch_event_source.go:98 | deleting keeps exactly the subscriptions with another id |
| Twitch.AfterCreate | twitch/twitch_event_source.go:87-95 | a failed create changes nothing; a successful one adds exactly one subscription |
| Twitch.AfterClear | twitch/twitch_event_source.go:111-114 | a successful clear empties the subscriptions; a failed one changes nothing |
| Twitch.EventsubClient.CreateSubscription | twitch/twitch_event_source.go:87-95 | logs the create and applies its outcome |
| Twitch.EventsubClient.DeleteSubscription | twitch/twitch_event_source.go:98 | logs the delete and applies its outcome |
| Twitch.EventsubClient.ClearSubscriptions | twitch/twitch_event_source.go:111-114 | logs the clear and applies its outcome |
| Twitch.EventsubClient.GetBroadcaster | twitch/twitch_event_source.go:106-108 | logs the lookup and leaves the subscriptions unchanged |
| Twitch.EventSource.SubscribeToUID | twitch/twitch_event_source.go:86-103 | online create, then offline create, then a delete of the returned online subscription when the offline one fails, with the matching error |
| Twitch.EventSource.GetBroadcasterDeets | twitch/twitch_event_source.go:106-108 | one lookup; nothing else changes |
| Twitch.EventSource.SubscribeToURL | twitch/twitch_event_source.go:71-82 | a failed lookup makes no create and returns ""; otherwise the subscribe's effect, and the id only when it succeeded |
| Twitch.StartTwitchListener | twitch/twitch_event_source.go:31-67 | an options error calls nothing; otherwise one clear, then an online and an offline create per initial uid, errors ignored |
| Twitch.StartupCreates | twitch/twitch_event_source.go:53-65 | two creates per initial uid |
| Twitch.StartupCreatesPerUid | twitch/twitch_event_source.go:53-65 | create 2i is the online one and 2i+1 the offline one of the i-th uid |
| Twitch.StartupCreatesOnlyCreate | twitch/twitch_event_source.go:46-65 | after the clear the startup makes only creates |
| Twitch.StartupWatchesOnlyInitialUids | twitch/twitch_event_source.go:46-65 | after a successful clear, every subscription watches an initial uid |
| Twitch.OnlineFailureChangesNothing | twitch/twitch_event_source.go:87-92 | a failed online create returns its error, makes one call and changes nothing |
| Twitch.RollbackRestores | twitch/twitch_event_source.go:93-101 | a failed offline create after a listed online one deletes it again and returns the offline error |
| Twitch.UnlistedOnlineIsKept | twitch/twitch_event_source.go:97-99 | an online subscription the provider did not return is left in place |
| Twitch.SubscribeAddsOnePair | twitch/twitch_event_source.go:86-103 | success adds exactly one online and one offline subscription, without looking at existing ones |
| MemberStore.Lookup | db/member.go:15-34 | the record found has the key; none is found exactly when no record has it |
| MemberStore.Upsert | db/member.go:93-104 | the new record is present; every record is the new one or an old one; records with other keys stay |
| MemberStore.LinkedUids | db/member.go:37-61 | a uid is listed exactly when some member is linked to it |
| MemberStore.WithConnections | db/member.go:72-87 | a member is listed exactly when its connections equal the argument |
| MemberStore.MembersTable.SetTwitchConnectionData | db/member.go:91-122 | a write error changes nothing; otherwise the upsert, returning the previous link |
| MemberStore.MembersTable.GetTwitchConnectionData | db/member.go:15-34 | a query error is returned; an unreadable record is (nil, nil); after a successful query the error is nil, and the stored link of the record with that key is returned exactly when there is one |
| MemberStore.MembersTable.GetAllTwitchUIDs | db/member.go:37-61 | query and decode errors are returned; otherwise exactly the linked uids |
| MemberStore.MembersTable.GetMemberByConnection | db/member.go:64-88 | fails unless exactly one connection is set; otherwise a query error is returned, an unreadable result is (nil, nil), and a successful query gives exactly the members with those connections |
| MemberStore.UpsertKeepsKeysUnique | db/member.go:93-104 | the upsert keeps (guild, user) a key |
| MemberStore.UpsertThenLookup | db/member.go:93-104 | after the upsert its key finds the new record |
| MemberStore.UpsertLeavesOthers | db/member.go:93-104 | the upsert leaves every other key's record as it was |
| MemberStore.SetThenGet | db/member.go:91-122 | after linking, the member's record holds the new link, and GetTwitchConnectionData reads it back with no error |
| MemberStore.PreviousLinkCases | db/member.go:110-121 | the previous link is nil when there was no record or no change, and the old link otherwise |
| MemberStore.SetThenFindByConnection | db/member.go:64-122 | a linked member is found by its connection |
| MemberStore.SharedUidListedTwice | db/member.go:37-61 | a uid linked to two members is listed at least twice |
| GuildStore.SetInsert | db/guild.go:47-49 | the role is present, nothing else is added, and no duplicate is made |
| GuildStore.AfterGetOrCreate | db/guild.go:14-42 | at most the guild's key is added, and existing records are unchanged |
| GuildStore.GuildsTable.GetOrCreateGuild | db/guild.go:14-42 | the table's new state; on the create path the reply is the empty outer record; the three error texts are `GuildStore.QueryError`, `GuildStore.InsertError` and `GuildStore.ReadError` (lines 19, 30, 38) |
| GuildStore.GuildsTable.GetOrCreateGuildIntended | db/guild.go:14-42 | the same table, replying the record that is stored |
| GuildStore.GuildsTable.AddAdminRole | db/guild.go:46-59 | the table and the (count, error) reply of the set-insert |
| GuildStore.GetOrCreateCases | db/guild.go:23-39 | a missing id stores and returns DefaultGuild(id); a present id changes nothing and returns the record (`GuildModels.DefaultGuild`: no admin roles, no notification channel) |
| GuildStore.ShadowedGuildDiffers | db/guild.go:15-41 | the empty record returned differs from the default stored |
| GuildStore.ShadowedGuildSameAdmins | db/guild.go:15-41 | both records have no admin roles |
| GuildStore.AnswerIsStoredRecord | db/guild.go:14-42 | a successful reply is the record then stored |
| GuildStore.AddAdminRoleEffect | db/guild.go:46-59 | the role is added without duplicates, old roles stay, other guilds are unchanged; the count is 1 exactly when it was new |
| GuildStore.AddAdminRoleIdempotent | db/guild.go:46-59 | adding twice is adding once, and the second count is 0 |
| GuildStore.AddAdminRoleFailure | db/guild.go:50-57 | an error changes nothing and gives (0, error) |
| StreamCommands.UrlPrefixLen | bot/stream_commands.go:19 | the optional URL prefix ends inside the text |
| StreamCommands.NameAt | bot/stream_commands.go:19 | a name matched is 4-25 word characters |
| StreamCommands.UsernameAt | bot/stream_commands.go:19 | a name matched is 4-25 word characters |
| StreamCommands.FindUsername | bot/stream_commands.go:19 | the match is a username, and none exactly when no position matches |
| StreamCommands.Username | bot/stream_commands.go:44-56 | the extracted username is 4-25 characters from [A-Za-z0-9_] |
| StreamCommands.PlainUsernameForm | bot/stream_commands.go:19 | "!registertwitch name" extracts the name |
| StreamCommands.UrlUsernameForm | bot/stream_commands.go:19 | "!registertwitch https://www.twitch.tv/name" extracts the name |
| StreamCommands.GetTwitchClient | bot/stream_commands.go:92-102 | no client is exactly the "twitch_integration" not-enabled reply |
| StreamCommands.RegisterTwitch | bot/stream_commands.go:38-90 | each early exit and its reply; the lookup before the write, the write before the subscribe; success once stored, even if subscribing fails |
| StreamCommands.RegisteredLinkIsStored | bot/stream_commands.go:73 | after a successful registration the author's record holds the broadcaster |
| BotUtil.LinkAt | bot/util.go:121 | a link match yields two 18-digit ids |
| BotUtil.PairAt | bot/util.go:121 | a pair match yields two 18-digit ids |
| BotUtil.FindMessageRef | bot/util.go:121 | the leftmost match; none exactly when no position matches; `BotUtil.MessageRefAt` tries the link alternative before the pair at one position |
| BotUtil.InterpretMessageRef | bot/util.go:123-137 | both ids or neither; each is 18 digits; neither exactly when nothing matches |
| BotUtil.MessageLinkForm | bot/util.go:121-133 | a channel link with 18-digit channel and message ids yields them |
| BotUtil.MessagePairForm | bot/util.go:121-133 | "c:m" with 18-digit ids yields them |
| BotUtil.ShortRunAt | bot/util.go:96 | a short emoji is 1-4 non-space characters |
| BotUtil.FindEmoji | bot/util.go:98 | nothing is found exactly when the text is all spaces |
| BotUtil.InterpretEmoji | bot/util.go:100-118 | nil exactly when the text is all spaces |
| BotUtil.CustomEmojiForm | bot/util.go:98-111 | "<a:name:id>" and "<:name:id>" give "name:id"; `BotUtil.CustomEmojiAt` is the custom alternative at one position |
| BotUtil.ShortEmojiForm | bot/util.go:96-114 | otherwise the first run of up to 4 non-space characters |
| BotUtil.MentionAtStart | bot/util.go:13 | the mention id is digits |
| BotUtil.RoleAltFrom | bot/util.go:13 | a quoted name has no quote; a bare word is word characters |
| BotUtil.FindRoleById | bot/util.go:29-33 | the role found has the id; none is found exactly when no role has it |
| BotUtil.FindRoleByIdIsFirst | bot/util.go:29-33 | the first role with the id is the one found |
| BotUtil.FindRoleByName | bot/util.go:38-42 | the role found has the name; none exactly when no role has it |
| BotUtil.InterpretRoleString | bot/util.go:15-56 | a roles error is returned; a mention finds the role with that id or none; the quoted form compares names with "" and the bare form indexes past the groups |
| BotUtil.InterpretRoleStringIntended | bot/util.go:15-56 | the quoted and bare forms find the role with that name, or none |
| BotUtil.RoleMentionForm | bot/util.go:13 | "<@&id>" is read as a mention of id; `BotUtil.ParseRoleString` is the reading of the role pattern |
| BotUtil.RoleQuotedForm | bot/util.go:13 | "\"name\"" is read as the quoted form |
| BotUtil.RoleBareForm | bot/util.go:13 | a word is read as the bare form |
| BotUtil.RoleNameCrashes | bot/util.go:44-46 | a bare role name panics with an index out of range |
| BotUtil.QuotedRoleNotFound | bot/util.go:37 | a quoted name is not found even when a role has it |
| BotUtil.IntendedRoleNameFound | bot/util.go:35-52 | the corrected reader finds the first role with the name |
| BotUtil.ChannelNameAt | bot/util.go:58 | a channel name is one or more word characters or '-' |
| BotUtil.FindChannelName | bot/util.go:58 | none exactly when no position matches |
| BotUtil.FindChannelByName | bot/util.go:82-88 | the channel found has the name; none exactly when no channel has it |
| BotUtil.FindChannelByNameIsFirst | bot/util.go:82-87 | the first channel with the name is the one found |
| BotUtil.InterpretChannelString | bot/util.go:60-92 | a link gives Discord's answer to the request for the parsed id; a name gives the channels error or the channel with that name, an error when there is none; no match is an error |
| BotUtil.ChannelNameForm | bot/util.go:58 | "name" and "#name" are read as the name; `BotUtil.ParseChannelString` is the reading of the channel pattern |
| BotUtil.ChannelLinkForm | bot/util.go:58 | "<#id>" is read as a link |
| BotUtil.UndoRoleRule | bot/util.go:139-147 | a "reaction" rule resets the reactions and returns its error; any other type does nothing and returns nil |

## Left out

- Network, driver and gateway I/O are not modelled. Discord, Twitch and the store are objects whose answers
  are parameters. The reply text, logging and timestamps are not modelled; a reply keeps only its kind, its
  description and its error.
- The purge report's text is not modelled. It depends on Go's map iteration order and on `%#v` output. The
  model keeps the report's structure: which entries it has and how failed members are grouped.
- `NIA_DISCORD_DEV_UID` is read from the environment in the source. Here it is the `devUid` parameter.
- The goroutine and channel of `GuildMembersIter` are one sequential method returning the delivered items.
  Panic recovery in the dispatchers is left out.
- An `isDone` branch in `GuildMembersIter` is unreachable, because the goroutine returns as soon as it sets the
  flag. The model proves that branch dead inside `GuildMembers.GuildMembersIter`.
- The error of `nazuna.NewClient` is ignored at startup. The client is a parameter of
  `Twitch.StartTwitchListener`.
- `RegisterHandler` and the stream-online/offline dispatch are left out. They call handlers outside this
  model.
- `GetRoleRules`, `resetAssignmentReactions`, `IsManagedRole` and `GetGuildRolesWithInitialReact` are
  defined outside the model. Their answers are parameters: the rule list given to `RolePurge.DoRolePurge`,
  the reset outcome, and so on.
- The message handlers that wrap the modelled operations are left out. These are `HandleAddAdminMessage`,
  `HandleAddManagedRoleMessage`, `HandlePurgeRoleMessage` apart from its classification, and
  `HandleRegisterTwitchCommandMessage`. They only parse arguments and send replies, and two of them are known
  to be broken.
- RolePurge.DoRolePurge: each failed rule is recorded by value. In the source, `&rule` at
  bot/admin_commands.go:588 takes the address of the loop variable, which is aliased under Go before 1.22.
- The `defer res.Close()` before the error check in db/member.go is left out. It is resource handling.
- db/role.go is not part of this model. It is a one-line insert wrapper.
- RethinkDB query semantics are not modelled. Each table is a sequence or a map of records, and each query's
  result is stated directly.
- GuildMembers.MaxUid compares ids as strings, as the source does. The lemma
  `GuildMembers.MaxUidIsNotNumeric` shows that this order is not numeric. It is not claimed as a defect,
  because whether Discord's cursor needs numeric order is outside the source.
- Commands.HandleMessage: a dispatch lemma for each of the other command words the bot knows
  (purgerole, initreactions, registertwitch, …) is not stated one by one. `Commands.UnhandledCommand` covers
  every word other than the two with a handler.
- GuildModels: `ReactionRoleAssign` has the two flags `botShouldReact` and `disallowRoleRemoveal`. The handler
  sets them at bot/admin_commands.go:288-289, but the struct at guildmodels/managed_roles.go:17-22 lacks them.

## Findings

| source | as written | input that shows it | evidently intended | confidence | as-written member | corrected member |
|---|---|---|---|---|---|---|
| bot/util.go:37, 44-46 | The quoted branch reads capture group 4, which is always empty for that branch. The bare branch reads `matches[5]`, but the pattern has only four groups. | `"Mods"` with a role named Mods gives (nil, nil). `Mods` panics with an index out of range. | both forms look the role up by the given name | high, not executed | BotUtil.InterpretRoleString (BotUtil.QuotedRoleNotFound, BotUtil.RoleNameCrashes) | BotUtil.InterpretRoleStringIntended (BotUtil.IntendedRoleNameFound) |
| bot/admin_commands.go:491, 502 | `problemMembers != nil \|\| len(problemMembers) == 0` is always true, and likewise for the rules, so both entries are always reported. | one failed member and no failed rules gives an empty "Failed to undo rules" entry | `&&` / `len(...) > 0`: an entry only for a non-empty list | medium, not executed | RolePurge.PurgeReportAsWritten (RolePurge.EmptyRuleEntryReported) | RolePurge.PurgeReportIntended |
| db/guild.go:15, 26, 41 | `guildObj := guildmodels.DefaultGuild(id)` at line 26 declares a new inner `guildObj` that shadows the one of line 15. On the create path the function then returns the outer, empty record. | a guild id not yet stored: the reply has `DiscordGid == ""` rather than `DefaultGuild(id)` | return the record just stored | high, not executed | GuildStore.GuildsTable.GetOrCreateGuild (GuildStore.ShadowedGuildDiffers) | GuildStore.GuildsTable.GetOrCreateGuildIntended |

The callers in the model, `AdminCommands.IsFromAdmin` and `AdminCommands.AddAdminRoleCommand`, use the
corrected `GetOrCreateGuildIntended`. Both callers read only the admin roles and the error. By
`GuildStore.ShadowedGuildSameAdmins`, the empty record and the default have the same admin roles, so the
shadowing changes neither caller's result.
