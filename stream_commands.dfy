/** The !registertwitch command (bot/stream_commands.go): a member links a Twitch account, which is looked up,
    stored, and then subscribed to. The pattern reading the username is written out by hand; it is
    `!registertwitch\s+"?(?:(?:https?://)?(?:(?:www|go|m)\.)?twitch\.tv/)?(?P<username>[a-zA-Z0-9_]{4,25})"?`
    with the semantics of Go's regexp package. */
module StreamCommands {
  import opened Wrappers
  import opened GuildModels
  import opened Responses
  import opened MemberStore
  import opened Twitch
  import BotUtil

  // ---------- the username pattern ----------

  const RegisterCommand: string := "!registertwitch"

  /** The syntax hint of the command. */
  const RegisterTwitchSyntax: string :=
    "```" + "!registertwitch \"<twitch>\"\n\t<twitch> can be a twitch username or channel URL" + "```"

  /** `t` occurs in `s` at position i. */
  predicate StartsAt(s: string, i: nat, t: string)
  {
    i + |t| <= |s| && s[i..i + |t|] == t
  }

  /** The length of the channel-URL prefix at position i, when there is one: an optional "https://" or
      "http://", an optional "www.", "go." or "m.", then "twitch.tv/". Each optional part is present exactly
      when its text is, since no text of one alternative can start the part that follows it. */
  function UrlPrefixLen(s: string, i: nat): (r: Option<nat>)
    ensures r.Some? ==> i + r.value <= |s|
  {
    var scheme := if StartsAt(s, i, "https://") then 8 else if StartsAt(s, i, "http://") then 7 else 0;
    var j := i + scheme;
    var sub := if StartsAt(s, j, "www.") then 4 else if StartsAt(s, j, "go.") then 3
               else if StartsAt(s, j, "m.") then 2 else 0;
    if StartsAt(s, j + sub, "twitch.tv/") then Some(scheme + sub + 10) else None
  }

  /** A valid username: 4 to 25 characters of [A-Za-z0-9_]. */
  predicate IsUsername(name: string)
  {
    4 <= |name| <= 25 && forall k :: 0 <= k < |name| ==> BotUtil.IsWord(name[k])
  }

  /** A username at position i: the longest run of [A-Za-z0-9_] characters, cut at 25, when it has at least 4. */
  function NameAt(s: string, i: nat): (r: Option<string>)
    ensures r.Some? ==> IsUsername(r.value)
  {
    var n := BotUtil.Run(s, i, BotUtil.IsWord);
    if n < 4 then None
    else
      var m := if n > 25 then 25 else n;
      RunSlice(s, i, s[i..i + m], BotUtil.IsWord);
      Some(s[i..i + m])
  }

  /** A slice inside a run holds only characters of that run's class. */
  lemma RunSlice(s: string, i: nat, t: string, p: char -> bool)
    requires i + |t| <= |s| && t == s[i..i + |t|]
    requires forall k :: i <= k < i + |t| ==> p(s[k])
    ensures forall k :: 0 <= k < |t| ==> p(t[k])
  {
    forall k | 0 <= k < |t| ensures p(t[k]) {
      assert t[k] == s[i + k];
    }
  }

  /** The pattern's username when it matches at position p: the command, whitespace, an optional quote, then a
      username after the URL prefix if the prefix is there and a username follows it, else a username right
      away. */
  function UsernameAt(s: string, p: nat): (r: Option<string>)
    ensures r.Some? ==> IsUsername(r.value)
  {
    if !StartsAt(s, p, RegisterCommand) then None
    else
      var w := BotUtil.Run(s, p + 15, BotUtil.IsSpace);
      var q := p + 15 + w;
      var start := if q < |s| && s[q] == '"' then q + 1 else q;
      if w == 0 then None else NameAfter(s, start)
  }

  /** The username from position `start`: after the URL prefix if the prefix is there and a username follows
      it, else right away. */
  function NameAfter(s: string, start: nat): (r: Option<string>)
    ensures r.Some? ==> IsUsername(r.value)
  {
    var prefix := UrlPrefixLen(s, start);
    if prefix.Some? && NameAt(s, start + prefix.value).Some? then NameAt(s, start + prefix.value)
    else NameAt(s, start)
  }

  /** The leftmost match from p on. */
  function FindUsername(s: string, p: nat): (r: Option<string>)
    ensures r.Some? ==> IsUsername(r.value)
    ensures r.None? <==> forall i :: p <= i < |s| ==> UsernameAt(s, i).None?
    decreases |s| - p
  {
    if p >= |s| then None
    else if UsernameAt(s, p).Some? then UsernameAt(s, p)
    else FindUsername(s, p + 1)
  }

  /** The username a !registertwitch message names, if the pattern matches it. */
  function Username(content: string): (r: Option<string>)
    ensures r.Some? ==> IsUsername(r.value)
  {
    FindUsername(content, 0)
  }

  /** `t` is not at position i when it differs from `s` at offset k (or `s` ends first). */
  lemma Mismatch(s: string, i: nat, t: string, k: nat)
    requires k < |t| && (i + k >= |s| || s[i + k] != t[k])
    ensures !StartsAt(s, i, t)
  {
    if i + |t| <= |s| {
      assert s[i..i + |t|][k] == s[i + k];
    }
  }

  /** `t` occurs right after `a` in `a + t`. */
  lemma StartsAtEnd(a: string, t: string)
    ensures StartsAt(a + t, |a|, t)
  {
    assert (a + t)[|a|..|a| + |t|] == t;
  }

  /** An occurrence stays when text is appended. */
  lemma StartsAtExtend(a: string, i: nat, t: string, b: string)
    requires StartsAt(a, i, t)
    ensures StartsAt(a + b, i, t)
  {
    assert (a + b)[i..i + |t|] == a[i..i + |t|];
  }

  /** Characters that end a username and cannot continue a URL prefix. */
  predicate EndsName(tail: string)
  {
    tail == [] || BotUtil.IsSpace(tail[0]) || tail[0] == '"'
  }

  /** A username followed by the end, a space or a quote is read whole. */
  lemma NameAtIs(pre: string, name: string, tail: string)
    requires IsUsername(name) && EndsName(tail)
    ensures NameAt(pre + name + tail, |pre|) == Some(name)
  {
    var s := pre + name + tail;
    var q := |pre|;
    forall k | q <= k < q + |name| ensures BotUtil.IsWord(s[k]) {
      assert s[k] == name[k - q];
    }
    if tail != [] {
      assert s[q + |name|] == tail[0];
    }
    BotUtil.RunIs(s, q, |name|, BotUtil.IsWord);
    assert s[q..q + |name|] == name;
  }

  /** A text with a character outside [A-Za-z0-9_] at offset j, and no whitespace or quote, does not start
      where a username does. */
  lemma NotAtName(pre: string, name: string, tail: string, t: string, j: nat)
    requires IsUsername(name) && EndsName(tail)
    requires j < |t| && !BotUtil.IsWord(t[j])
    requires forall k :: 0 <= k < |t| ==> !BotUtil.IsSpace(t[k]) && t[k] != '"'
    ensures !StartsAt(pre + name + tail, |pre|, t)
  {
    var s := pre + name + tail;
    var q := |pre|;
    if j < |name| {
      assert s[q + j] == name[j];
      Mismatch(s, q, t, j);
    } else {
      if tail != [] {
        assert s[q + |name|] == tail[0];
      }
      Mismatch(s, q, t, |name|);
    }
  }

  /** No part of a channel-URL prefix starts where a username does. */
  lemma NoUrlPrefixAtName(pre: string, name: string, tail: string)
    requires IsUsername(name) && EndsName(tail)
    ensures UrlPrefixLen(pre + name + tail, |pre|).None?
  {
    NotAtName(pre, name, tail, "https://", 5);
    NotAtName(pre, name, tail, "http://", 4);
    NotAtName(pre, name, tail, "www.", 3);
    NotAtName(pre, name, tail, "go.", 2);
    NotAtName(pre, name, tail, "m.", 1);
    NotAtName(pre, name, tail, "twitch.tv/", 6);
  }

  /** The command, then one space: the username pattern's search starts right after. */
  lemma CommandThenSpace(pre: string, rest: string)
    requires pre == RegisterCommand + " "
    requires rest != []
    ensures StartsAt(pre + rest, 0, RegisterCommand)
    ensures (pre + rest)[15] == ' ' && (pre + rest)[16] == rest[0]
  {
    var s := pre + rest;
    assert s[0..15] == RegisterCommand;
  }

  /** The pattern matches at the first position when the command is followed by one space and then a username,
      either after a URL prefix or on its own. */
  lemma MatchAfterCommand(s: string, name: string)
    requires StartsAt(s, 0, RegisterCommand) && 16 < |s| && s[15] == ' '
    requires !BotUtil.IsSpace(s[16]) && s[16] != '"'
    requires NameAfter(s, 16) == Some(name)
    ensures Username(s) == Some(name)
  {
    BotUtil.RunIs(s, 15, 1, BotUtil.IsSpace);
    assert UsernameAt(s, 0) == Some(name);
  }

  /** A bare username after the command is read as it is. */
  lemma PlainUsernameForm(name: string, tail: string)
    requires IsUsername(name) && EndsName(tail)
    ensures Username(RegisterCommand + " " + name + tail) == Some(name)
  {
    var pre := RegisterCommand + " ";
    assert pre + name + tail == pre + (name + tail);
    CommandThenSpace(pre, name + tail);
    NoUrlPrefixAtName(pre, name, tail);
    NameAtIs(pre, name, tail);
    assert NameAfter(pre + name + tail, 16) == Some(name);
    MatchAfterCommand(pre + name + tail, name);
  }

  /** After "https://www.twitch.tv/" the prefix is read whole. */
  lemma FullUrlPrefix(c: string, rest: string)
    requires c == RegisterCommand + " " + "https://" + "www." + "twitch.tv/"
    ensures UrlPrefixLen(c + rest, 16) == Some(22)
  {
    var pre := RegisterCommand + " ";
    var a := pre + "https://";
    var b := a + "www.";
    StartsAtEnd(pre, "https://");
    StartsAtExtend(a, 16, "https://", "www.");
    StartsAtEnd(a, "www.");
    StartsAtExtend(b, 16, "https://", "twitch.tv/");
    StartsAtExtend(b, 24, "www.", "twitch.tv/");
    StartsAtEnd(b, "twitch.tv/");
    StartsAtExtend(c, 16, "https://", rest);
    StartsAtExtend(c, 24, "www.", rest);
    StartsAtExtend(c, 28, "twitch.tv/", rest);
  }

  /** A channel URL is read as the username after "twitch.tv/". */
  lemma UrlUsernameForm(name: string, tail: string)
    requires IsUsername(name) && EndsName(tail)
    ensures Username(RegisterCommand + " " + "https://" + "www." + "twitch.tv/" + name + tail) == Some(name)
  {
    var pre := RegisterCommand + " ";
    var c := pre + "https://" + "www." + "twitch.tv/";
    var rest := "https://" + "www." + "twitch.tv/" + name + tail;
    assert c + name + tail == c + (name + tail);
    assert c + name + tail == pre + rest;
    CommandThenSpace(pre, rest);
    FullUrlPrefix(c, name + tail);
    NameAtIs(c, name, tail);
    assert NameAfter(c + name + tail, 16) == Some(name);
    MatchAfterCommand(c + name + tail, name);
  }

  // ---------- getTwitchClient / registerTwitch ----------

  /** The Twitch event source, or the "feature not enabled" reply when the bot runs without one. */
  function GetTwitchClient(twitch: EventSource?): (r: Result<EventSource, Response>)
    ensures r.Failure? <==> twitch == null
    ensures r.Failure? ==> r.error == FeatureNotEnabled("twitch_integration")
    ensures r.Success? ==> r.value == twitch
  {
    if twitch == null then Failure(FeatureNotEnabled("twitch_integration")) else Success(twitch)
  }

  /** Links the author's Twitch account: resolves the username (`lookup` is the provider's answer), stores the
      link (`writeError` is the store's error) and then subscribes to the broadcaster (`online`, `offline`,
      `rollback` are the provider's answers there). The link the store replaces is dropped, and a failed
      subscription still reports success. */
  method RegisterTwitch(twitch: EventSource?, members: MembersTable, content: string, guildId: string,
                        authorId: string, lookup: Result<string, string>, writeError: Option<string>,
                        online: CreateOutcome, offline: CreateOutcome, rollback: Option<string>)
    returns (resp: Response)
    requires members.Valid()
    modifies members, if twitch == null then {} else {twitch.client}
    ensures members.Valid()
    ensures twitch == null ==> resp == FeatureNotEnabled("twitch_integration") && members.rows == old(members.rows)
    ensures twitch != null && Username(content).None? ==>
      && resp == SyntaxError("I couldn't understand that", RegisterTwitchSyntax)
      && members.rows == old(members.rows)
      && twitch.client.calls == old(twitch.client.calls) && twitch.client.subs == old(twitch.client.subs)
    ensures twitch != null && Username(content).Some? && lookup.Failure? ==>
      && resp == SyntaxError("I couldn't find any user with the username " + Username(content).value,
                             RegisterTwitchSyntax)
      && members.rows == old(members.rows)
      && twitch.client.calls == old(twitch.client.calls) + [Lookup(Username(content).value)]
      && twitch.client.subs == old(twitch.client.subs)
    ensures twitch != null && Username(content).Some? && lookup.Success? && writeError.Some? ==>
      && resp == InternalError("Encountered internal database error whilst saving twitch connection details",
                               writeError)
      && members.rows == old(members.rows)
      && twitch.client.calls == old(twitch.client.calls) + [Lookup(Username(content).value)]
      && twitch.client.subs == old(twitch.client.subs)
    ensures twitch != null && Username(content).Some? && lookup.Success? && writeError.None? ==>
      && resp == Succeeded
      && members.rows == Upsert(old(members.rows), LinkedMember(guildId, authorId, TwitchConnectionData(lookup.value)))
      && twitch.client.calls == old(twitch.client.calls) + [Lookup(Username(content).value)]
                                + SubscribeCalls(lookup.value, online, offline)
      && twitch.client.subs == AfterSubscribe(old(twitch.client.subs), lookup.value, online, offline, rollback)
  {
    var client := GetTwitchClient(twitch);
    if client.Failure? {
      return client.error;
    }
    var t := client.value;
    var username := Username(content);
    if username.None? {
      return SyntaxError("I couldn't understand that", RegisterTwitchSyntax);
    }
    var broadcaster := t.GetBroadcasterDeets(username.value, lookup);
    if broadcaster.Failure? {
      return SyntaxError("I couldn't find any user with the username " + username.value, RegisterTwitchSyntax);
    }
    var connection := TwitchConnectionData(broadcaster.value);
    var _, err := members.SetTwitchConnectionData(guildId, authorId, connection, writeError);
    if err.Some? {
      return InternalError("Encountered internal database error whilst saving twitch connection details", err);
    }
    var _ := t.SubscribeToUID(broadcaster.value, online, offline, rollback);
    return Succeeded;
  }

  /** Once the lookup and the store write succeed, the author's stored link is the broadcaster found, whatever
      the subscription's outcome. */
  lemma RegisteredLinkIsStored(rows: seq<MemberData>, guildId: string, authorId: string, broadcasterId: string)
    ensures MemberStore.Lookup(Upsert(rows, LinkedMember(guildId, authorId, TwitchConnectionData(broadcasterId))),
                   MemberKey(guildId, authorId)).Some?
    ensures MemberStore.Lookup(Upsert(rows, LinkedMember(guildId, authorId, TwitchConnectionData(broadcasterId))),
                   MemberKey(guildId, authorId)).value.connections.twitchConnection
            == Some(TwitchConnectionData(broadcasterId))
  {
    UpsertThenLookup(rows, LinkedMember(guildId, authorId, TwitchConnectionData(broadcasterId)));
  }
}
