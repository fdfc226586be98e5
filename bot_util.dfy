/** The argument interpreters of the bot (bot/util.go). Each regular expression is written out by hand with
    the semantics of Go's regexp package: the leftmost match wins, and at one position the alternatives and the
    greedy repetitions are tried in order. `\d` is [0-9], `\w` is [0-9A-Za-z_] and `\s` is [\t\n\f\r ]. The
    Discord calls an interpreter makes are parameters holding their answers. */
module BotUtil {
  import opened Wrappers
  import opened GuildModels
  import opened Session

  // ---------- character classes and runs ----------

  predicate IsDigit(c: char) { '0' <= c <= '9' }

  predicate IsSpace(c: char) { c == ' ' || c == '\t' || c == '\n' || c == '\r' || c as int == 12 }

  predicate IsWord(c: char) { IsDigit(c) || ('a' <= c <= 'z') || ('A' <= c <= 'Z') || c == '_' }

  predicate IsNonColon(c: char) { c != ':' }

  predicate IsNonSpace(c: char) { !IsSpace(c) }

  predicate IsChannelNameChar(c: char) { IsWord(c) || c == '-' }

  /** The length of the longest run of characters satisfying `p` from position i on. */
  function Run(s: string, i: nat, p: char -> bool): (n: nat)
    ensures i <= |s| ==> i + n <= |s|
    ensures i > |s| ==> n == 0
    ensures forall k :: i <= k < i + n ==> p(s[k])
    ensures i + n < |s| ==> !p(s[i + n])
    decreases |s| - i
  {
    if i < |s| && p(s[i]) then 1 + Run(s, i + 1, p) else 0
  }

  /** A run that ends where `p` first fails is the longest one. */
  lemma {:induction false} RunIs(s: string, i: nat, n: nat, p: char -> bool)
    requires i + n <= |s|
    requires forall k :: i <= k < i + n ==> p(s[k])
    requires i + n == |s| || !p(s[i + n])
    ensures Run(s, i, p) == n
    decreases n
  {
    if n > 0 {
      RunIs(s, i + 1, n - 1, p);
    }
  }

  /** The run from i is the slice `t` when all of `t` is in the class and the character after it is not. */
  lemma RunOfSlice(s: string, i: nat, t: string, p: char -> bool)
    requires i + |t| <= |s| && s[i..i + |t|] == t
    requires forall k :: 0 <= k < |t| ==> p(t[k])
    requires i + |t| == |s| || !p(s[i + |t|])
    ensures Run(s, i, p) == |t|
  {
    forall k | i <= k < i + |t| ensures p(s[k]) {
      assert s[k] == s[i..i + |t|][k - i];
    }
    RunIs(s, i, |t|, p);
  }

  /** `n` digits at position i. */
  predicate DigitsAt(s: string, i: nat, n: nat)
  {
    i + n <= |s| && forall k :: i <= k < i + n ==> IsDigit(s[k])
  }

  predicate AllDigits(t: string)
  {
    forall k :: 0 <= k < |t| ==> IsDigit(t[k])
  }

  // ---------- interpretMessageRef ----------

  const LinkPrefix: string := "https://discord.com/channels/"

  /** The channel and message ids of a link `https://discord.com/channels/<g>/<c>/<m>` at position p, with at
      least one digit of guild id and 18 digits each of channel and message id. */
  function LinkAt(s: string, p: nat): (r: Option<(string, string)>)
    ensures r.Some? ==> |r.value.0| == 18 && |r.value.1| == 18 && AllDigits(r.value.0) && AllDigits(r.value.1)
  {
    var q := p + |LinkPrefix|;
    if q <= |s| && s[p..q] == LinkPrefix then
      var g := Run(s, q, IsDigit);
      var c := q + g + 1;
      if g >= 1 && q + g < |s| && s[q + g] == '/' && DigitsAt(s, c, 18) && c + 18 < |s| && s[c + 18] == '/'
         && DigitsAt(s, c + 19, 18)
      then Some((s[c..c + 18], s[c + 19..c + 37]))
      else None
    else None
  }

  /** The ids of `<c>:<m>` at position p, with 18 digits each. */
  function PairAt(s: string, p: nat): (r: Option<(string, string)>)
    ensures r.Some? ==> |r.value.0| == 18 && |r.value.1| == 18 && AllDigits(r.value.0) && AllDigits(r.value.1)
  {
    if DigitsAt(s, p, 18) && p + 18 < |s| && s[p + 18] == ':' && DigitsAt(s, p + 19, 18)
    then Some((s[p..p + 18], s[p + 19..p + 37]))
    else None
  }

  /** What the message pattern matches at position p: the link alternative first, then the pair. */
  function MessageRefAt(s: string, p: nat): Option<(string, string)>
  {
    if LinkAt(s, p).Some? then LinkAt(s, p) else PairAt(s, p)
  }

  /** The leftmost match from position p on. */
  function FindMessageRef(s: string, p: nat): (r: Option<(string, string)>)
    ensures r.None? <==> forall i :: p <= i < |s| ==> MessageRefAt(s, i).None?
    ensures r.Some? ==> exists i :: p <= i < |s| && MessageRefAt(s, i) == r
                                    && forall j :: p <= j < i ==> MessageRefAt(s, j).None?
    decreases |s| - p
  {
    if p >= |s| then None
    else if MessageRefAt(s, p).Some? then MessageRefAt(s, p)
    else FindMessageRef(s, p + 1)
  }

  /** The channel and message ids a message reference names; both or neither. */
  function InterpretMessageRef(messageStr: string): (r: (Option<string>, Option<string>))
    ensures r.0.Some? <==> r.1.Some?
    ensures r.0.Some? ==> |r.0.value| == 18 && |r.1.value| == 18 && AllDigits(r.0.value) && AllDigits(r.1.value)
    ensures r.0.None? <==> forall i :: 0 <= i < |messageStr| ==> MessageRefAt(messageStr, i).None?
  {
    match FindMessageRef(messageStr, 0)
    case None => (None, None)
    case Some((c, m)) =>
      assert exists i :: 0 <= i < |messageStr| && MessageRefAt(messageStr, i) == Some((c, m));
      (Some(c), Some(m))
  }

  /** A message link yields its channel and message ids. */
  lemma MessageLinkForm(g: string, c: string, m: string, tail: string)
    requires |g| >= 1 && AllDigits(g)
    requires |c| == 18 && AllDigits(c) && |m| == 18 && AllDigits(m)
    ensures InterpretMessageRef(LinkPrefix + g + "/" + c + "/" + m + tail) == (Some(c), Some(m))
  {
    var s := LinkPrefix + g + "/" + c + "/" + m + tail;
    var q := |LinkPrefix|;
    assert s[0..q] == LinkPrefix;
    assert s[q..q + |g|] == g;
    assert s[q + |g|] == '/';
    RunOfSlice(s, q, g, IsDigit);
    var ci := q + |g| + 1;
    assert s[ci..ci + 18] == c;
    assert s[ci + 18] == '/';
    assert s[ci + 19..ci + 37] == m;
    forall k | ci <= k < ci + 18 ensures IsDigit(s[k]) {
      assert s[k] == c[k - ci];
    }
    forall k | ci + 19 <= k < ci + 37 ensures IsDigit(s[k]) {
      assert s[k] == m[k - ci - 19];
    }
    assert LinkAt(s, 0) == Some((c, m));
  }

  /** A link starts with 'h', so none starts at a digit. */
  lemma NoLinkAtDigit(s: string)
    requires s != [] && IsDigit(s[0])
    ensures LinkAt(s, 0).None?
  {
    if |LinkPrefix| <= |s| {
      assert s[0..|LinkPrefix|][0] == s[0];
      assert LinkPrefix[0] == 'h';
    }
  }

  /** A `<c>:<m>` pair yields its two ids. */
  lemma MessagePairForm(c: string, m: string, tail: string)
    requires |c| == 18 && AllDigits(c) && |m| == 18 && AllDigits(m)
    ensures InterpretMessageRef(c + ":" + m + tail) == (Some(c), Some(m))
  {
    var s := c + ":" + m + tail;
    assert s[0] == c[0] && IsDigit(c[0]);
    NoLinkAtDigit(s);
    assert s[0..18] == c && s[18] == ':' && s[19..37] == m;
    forall k | 0 <= k < 18 ensures IsDigit(s[k]) {
      assert s[k] == c[k];
    }
    forall k | 19 <= k < 37 ensures IsDigit(s[k]) {
      assert s[k] == m[k - 19];
    }
    assert PairAt(s, 0) == Some((c, m));
  }

  // ---------- interpretEmoji ----------

  /** A guild emoji `<a?:name:id>` at position p, as Discord's API spells it: "name:id". The animated flag is
      dropped. */
  function CustomEmojiAt(s: string, p: nat): Option<string>
  {
    if p + 1 < |s| && s[p] == '<' && (s[p + 1] == ':' || (p + 2 < |s| && s[p + 1] == 'a' && s[p + 2] == ':')) then
      var nameStart := if s[p + 1] == 'a' then p + 3 else p + 2;
      var n := Run(s, nameStart, IsNonColon);
      var idStart := nameStart + n + 1;
      var d := Run(s, idStart, IsDigit);
      if n >= 1 && nameStart + n < |s| && d >= 1 && idStart + d < |s| && s[idStart + d] == '>'
      then Some(s[nameStart..nameStart + n] + ":" + s[idStart..idStart + d])
      else None
    else None
  }

  /** The first 1 to 4 non-space characters from position p, which must be non-space. */
  function ShortRunAt(s: string, p: nat): (r: string)
    requires p < |s| && !IsSpace(s[p])
    ensures 1 <= |r| <= 4
    ensures forall k :: 0 <= k < |r| ==> !IsSpace(r[k])
  {
    var n := Run(s, p, IsNonSpace);
    var m := if n < 4 then n else 4;
    s[p..p + m]
  }

  /** The emoji pattern's leftmost match from p on: it starts at the first non-space character. */
  function FindEmoji(s: string, p: nat): (r: Option<string>)
    ensures r.None? <==> forall i :: p <= i < |s| ==> IsSpace(s[i])
    decreases |s| - p
  {
    if p >= |s| then None
    else if IsSpace(s[p]) then FindEmoji(s, p + 1)
    else if CustomEmojiAt(s, p).Some? then CustomEmojiAt(s, p)
    else Some(ShortRunAt(s, p))
  }

  /** The emoji an argument names; nothing exactly when the argument is all whitespace. */
  function InterpretEmoji(emojiStr: string): (r: Option<string>)
    ensures r.None? <==> forall i :: 0 <= i < |emojiStr| ==> IsSpace(emojiStr[i])
  {
    FindEmoji(emojiStr, 0)
  }

  /** A guild emoji, animated or not, is named "name:id". */
  lemma CustomEmojiForm(animated: bool, name: string, id: string, tail: string)
    requires |name| >= 1 && forall k :: 0 <= k < |name| ==> name[k] != ':'
    requires |id| >= 1 && AllDigits(id)
    ensures InterpretEmoji("<" + (if animated then "a" else "") + ":" + name + ":" + id + ">" + tail)
            == Some(name + ":" + id)
  {
    var a := if animated then "a" else "";
    var head := "<" + a + ":";
    var rest := id + ">" + tail;
    var s := head + name + (":" + rest);
    assert s == "<" + a + ":" + name + ":" + id + ">" + tail;
    var ns := |head|;
    assert s[0] == '<' && s[ns - 1] == ':';
    if animated {
      assert s[1] == 'a';
    }
    Middle(head, name, ":" + rest);
    var ids := ns + |name| + 1;
    assert s == (head + name + ":") + id + (">" + tail);
    Middle(head + name + ":", id, ">" + tail);
    assert s[ids + |id|] == '>';
    CustomEmojiAtParts(s, ns, name, id);
  }

  /** The middle part of a concatenation, and what follows it, as slices. */
  lemma Middle(a: string, b: string, c: string)
    ensures (a + b + c)[|a|..|a| + |b|] == b
    ensures (a + b + c)[|a| + |b|..] == c
  {
  }

  /** The guild emoji pattern reads the name and the id back from their positions. */
  lemma CustomEmojiAtParts(s: string, ns: nat, name: string, id: string)
    requires 2 <= ns <= 3 && ns < |s| && s[0] == '<' && s[ns - 1] == ':' && (ns == 3 <==> s[1] == 'a')
    requires |name| >= 1 && forall k :: 0 <= k < |name| ==> name[k] != ':'
    requires |id| >= 1 && AllDigits(id)
    requires ns + |name| < |s| && s[ns..ns + |name|] == name && s[ns + |name|] == ':'
    requires ns + |name| + 1 + |id| < |s| && s[ns + |name| + 1..ns + |name| + 1 + |id|] == id
    requires s[ns + |name| + 1 + |id|] == '>'
    ensures CustomEmojiAt(s, 0) == Some(name + ":" + id)
  {
    assert (if s[1] == 'a' then 3 else 2) == ns;
    RunOfSlice(s, ns, name, IsNonColon);
    RunOfSlice(s, ns + |name| + 1, id, IsDigit);
  }

  /** Any other argument gives the first 1 to 4 non-space characters after the leading whitespace. */
  lemma ShortEmojiForm(s: string, p: nat)
    requires p < |s| && !IsSpace(s[p]) && forall i :: 0 <= i < p ==> IsSpace(s[i])
    requires CustomEmojiAt(s, p).None?
    ensures InterpretEmoji(s) == Some(ShortRunAt(s, p))
  {
    FindEmojiSkipsSpaces(s, 0, p);
  }

  lemma {:induction false} FindEmojiSkipsSpaces(s: string, i: nat, p: nat)
    requires i <= p < |s| && forall j :: i <= j < p ==> IsSpace(s[j])
    ensures FindEmoji(s, i) == FindEmoji(s, p)
    decreases p - i
  {
    if i < p {
      FindEmojiSkipsSpaces(s, i + 1, p);
    }
  }

  // ---------- interpretRoleString ----------

  /** What the role pattern's leftmost match is: the mention alternative (which is anchored at the start) with
      its digits, the quoted alternative with the text between its quotes, or the bare alternative with its word
      (which always matches at the end at the latest, so the pattern never fails). */
  datatype RoleSpec = RoleMention(roleId: string) | RoleQuoted(quoted: string) | RoleBare(word: string)

  /** The mention alternative at the start: optional whitespace, an optional quote, `<@&digits>`. */
  function MentionAtStart(s: string): (r: Option<string>)
    ensures r.Some? ==> AllDigits(r.value)
  {
    var w := Run(s, 0, IsSpace);
    var a := if w < |s| && s[w] == '"' then w + 1 else w;
    if a + 3 <= |s| && s[a..a + 3] == "<@&" then
      var d := Run(s, a + 3, IsDigit);
      if a + 3 + d < |s| && s[a + 3 + d] == '>' then
        Some(s[a + 3..a + 3 + d])
      else None
    else None
  }

  predicate IsNonQuote(c: char) { c != '"' }

  /** The quoted alternative at p: a quote and the next quote after it. */
  predicate QuotedAt(s: string, p: nat)
  {
    p < |s| && s[p] == '"' && p + 1 + Run(s, p + 1, IsNonQuote) < |s|
  }

  /** The bare alternative at p: word characters, then whitespace to the end. */
  predicate BareAt(s: string, p: nat)
  {
    var w := Run(s, p, IsWord);
    p + w <= |s| && p + w + Run(s, p + w, IsSpace) == |s|
  }

  /** The leftmost of the quoted and the bare alternatives from p on. */
  function RoleAltFrom(s: string, p: nat): (r: RoleSpec)
    ensures !r.RoleMention?
    ensures r.RoleQuoted? ==> forall k :: 0 <= k < |r.quoted| ==> r.quoted[k] != '"'
    ensures r.RoleBare? ==> forall k :: 0 <= k < |r.word| ==> IsWord(r.word[k])
    decreases |s| - p
  {
    if p >= |s| then RoleBare("")
    else if QuotedAt(s, p) then RoleQuoted(s[p + 1..p + 1 + Run(s, p + 1, IsNonQuote)])
    else if BareAt(s, p) then RoleBare(s[p..p + Run(s, p, IsWord)])
    else RoleAltFrom(s, p + 1)
  }

  function ParseRoleString(s: string): RoleSpec
  {
    match MentionAtStart(s)
    case Some(rid) => RoleMention(rid)
    case None => RoleAltFrom(s, 0)
  }

  /** The first role with the given id. */
  function FindRoleById(roles: seq<Role>, id: string): (r: Option<Role>)
    ensures r.Some? ==> r.value in roles && r.value.id == id
    ensures r.None? <==> forall x :: x in roles ==> x.id != id
  {
    if roles == [] then None
    else if roles[0].id == id then Some(roles[0])
    else
      assert forall x :: x in roles <==> x == roles[0] || x in roles[1..];
      FindRoleById(roles[1..], id)
  }

  /** The role found is the first one with that id: the one at index i when no earlier role has it. */
  lemma {:induction false} FindRoleByIdIsFirst(roles: seq<Role>, id: string, i: nat)
    requires i < |roles| && roles[i].id == id
    requires forall j :: 0 <= j < i ==> roles[j].id != id
    ensures FindRoleById(roles, id) == Some(roles[i])
  {
    if i > 0 {
      assert roles[0].id != id;
      FindRoleByIdIsFirst(roles[1..], id, i - 1);
    }
  }

  /** The first role with the given name. */
  function FindRoleByName(roles: seq<Role>, name: string): (r: Option<Role>)
    ensures r.Some? ==> r.value in roles && r.value.name == name
    ensures r.None? <==> forall x :: x in roles ==> x.name != name
  {
    if roles == [] then None
    else if roles[0].name == name then Some(roles[0])
    else
      assert forall x :: x in roles <==> x == roles[0] || x in roles[1..];
      FindRoleByName(roles[1..], name)
  }

  /** What interpretRoleString gives: a role (or none), an error, or an out-of-range index on group 5 of a
      pattern that has four groups. */
  datatype RoleAnswer = RoleResult(role: Option<Role>) | RoleFailed(error: string) | IndexPanic

  /** Resolves a role argument as written. `guildRoles` is Discord's answer to the guild roles request. A
      mention is looked up by id; a quoted name is looked up under group 4, which the quoted alternative leaves
      empty; any other argument reads group 5, which does not exist. */
  function InterpretRoleString(roleStr: string, guildRoles: Result<seq<Role>, string>): (r: RoleAnswer)
    ensures guildRoles.Failure? ==> r == RoleFailed(guildRoles.error)
    ensures guildRoles.Success? && ParseRoleString(roleStr).RoleMention? ==>
      && r.RoleResult?
      && (r.role.Some? <==> exists x :: x in guildRoles.value && x.id == ParseRoleString(roleStr).roleId)
      && (r.role.Some? ==> r.role.value in guildRoles.value && r.role.value.id == ParseRoleString(roleStr).roleId)
    ensures guildRoles.Success? && ParseRoleString(roleStr).RoleQuoted? ==>
      r.RoleResult? && (r.role.Some? ==> r.role.value.name == "")
    ensures guildRoles.Success? && ParseRoleString(roleStr).RoleBare? ==> r == IndexPanic
  {
    if guildRoles.Failure? then RoleFailed(guildRoles.error)
    else match ParseRoleString(roleStr)
      case RoleMention(rid) => RoleResult(FindRoleById(guildRoles.value, rid))
      case RoleQuoted(_) => RoleResult(FindRoleByName(guildRoles.value, ""))
      case RoleBare(_) => IndexPanic
  }

  /** interpretRoleString as evidently intended: a quoted name is looked up by the text between the quotes and
      a bare name by its word. It never fails on an index. */
  function InterpretRoleStringIntended(roleStr: string, guildRoles: Result<seq<Role>, string>): (r: RoleAnswer)
    ensures r != IndexPanic
    ensures guildRoles.Failure? ==> r == RoleFailed(guildRoles.error)
    ensures guildRoles.Success? && ParseRoleString(roleStr).RoleMention? ==>
      && r.RoleResult?
      && (r.role.Some? <==> exists x :: x in guildRoles.value && x.id == ParseRoleString(roleStr).roleId)
      && (r.role.Some? ==> r.role.value in guildRoles.value && r.role.value.id == ParseRoleString(roleStr).roleId)
    ensures guildRoles.Success? && ParseRoleString(roleStr).RoleQuoted? ==>
      && r.RoleResult?
      && (r.role.Some? <==> exists x :: x in guildRoles.value && x.name == ParseRoleString(roleStr).quoted)
      && (r.role.Some? ==> r.role.value in guildRoles.value && r.role.value.name == ParseRoleString(roleStr).quoted)
    ensures guildRoles.Success? && ParseRoleString(roleStr).RoleBare? ==>
      && r.RoleResult?
      && (r.role.Some? <==> exists x :: x in guildRoles.value && x.name == ParseRoleString(roleStr).word)
      && (r.role.Some? ==> r.role.value in guildRoles.value && r.role.value.name == ParseRoleString(roleStr).word)
  {
    if guildRoles.Failure? then RoleFailed(guildRoles.error)
    else match ParseRoleString(roleStr)
      case RoleMention(rid) => RoleResult(FindRoleById(guildRoles.value, rid))
      case RoleQuoted(name) => RoleResult(FindRoleByName(guildRoles.value, name))
      case RoleBare(word) => RoleResult(FindRoleByName(guildRoles.value, word))
  }

  /** A mention `<@&id>` names the role with exactly that id. */
  lemma RoleMentionForm(rid: string, tail: string)
    requires AllDigits(rid)
    ensures ParseRoleString("<@&" + rid + ">" + tail) == RoleMention(rid)
  {
    var s := "<@&" + rid + ">" + tail;
    assert !IsSpace(s[0]);
    assert Run(s, 0, IsSpace) == 0;
    assert s[0..3] == "<@&";
    forall k | 3 <= k < 3 + |rid| ensures IsDigit(s[k]) {
      assert s[k] == rid[k - 3];
    }
    assert s[3 + |rid|] == '>';
    RunIs(s, 3, |rid|, IsDigit);
    assert s[3..3 + |rid|] == rid;
  }

  /** A name in quotes is read as the quoted alternative with that name. */
  lemma RoleQuotedForm(name: string)
    requires |name| >= 1 && name[0] != '<' && forall k :: 0 <= k < |name| ==> name[k] != '"'
    ensures ParseRoleString("\"" + name + "\"") == RoleQuoted(name)
  {
    var s := "\"" + name + "\"";
    assert !IsSpace(s[0]);
    assert Run(s, 0, IsSpace) == 0;
    assert s[1] == name[0];
    assert MentionAtStart(s).None? by {
      if 4 <= |s| {
        assert s[1..4][0] == s[1];
      }
    }
    forall k | 1 <= k < 1 + |name| ensures IsNonQuote(s[k]) {
      assert s[k] == name[k - 1];
    }
    assert s[1 + |name|] == '"';
    RunIs(s, 1, |name|, IsNonQuote);
    assert s[1..1 + |name|] == name;
  }

  /** A plain word is read as the bare alternative with that word. */
  lemma RoleBareForm(name: string)
    requires |name| >= 1 && forall k :: 0 <= k < |name| ==> IsWord(name[k])
    ensures ParseRoleString(name) == RoleBare(name)
  {
    assert !IsSpace(name[0]) && name[0] != '"';
    assert Run(name, 0, IsSpace) == 0;
    assert MentionAtStart(name).None? by {
      if 3 <= |name| {
        assert name[0..3][0] == name[0];
      }
    }
    RunIs(name, 0, |name|, IsWord);
    assert name[0..|name|] == name;
  }

  /** As written, a plain role name is read through the missing group 5. */
  lemma RoleNameCrashes(name: string, roles: seq<Role>)
    requires |name| >= 1 && forall k :: 0 <= k < |name| ==> IsWord(name[k])
    ensures InterpretRoleString(name, Success(roles)) == IndexPanic
  {
    RoleBareForm(name);
  }

  /** As written, a quoted name finds nothing even when a role has exactly that name (and no role is unnamed). */
  lemma QuotedRoleNotFound(name: string, id: string)
    requires |name| >= 1 && name[0] != '<' && forall k :: 0 <= k < |name| ==> name[k] != '"'
    ensures InterpretRoleString("\"" + name + "\"", Success([Role(id, name)])) == RoleResult(None)
  {
    RoleQuotedForm(name);
  }

  /** As intended, the quoted name and the bare word are found by name. */
  lemma IntendedRoleNameFound(name: string, roles: seq<Role>)
    requires |name| >= 1 && name[0] != '<' && forall k :: 0 <= k < |name| ==> name[k] != '"'
    ensures InterpretRoleStringIntended("\"" + name + "\"", Success(roles)) == RoleResult(FindRoleByName(roles, name))
    ensures (forall k :: 0 <= k < |name| ==> IsWord(name[k])) ==>
      InterpretRoleStringIntended(name, Success(roles)) == RoleResult(FindRoleByName(roles, name))
  {
    RoleQuotedForm(name);
    if forall k :: 0 <= k < |name| ==> IsWord(name[k]) {
      RoleBareForm(name);
    }
  }

  // ---------- interpretChannelString ----------

  /** What the channel pattern matches: a channel link `<#id>` at the start, or a name ending the argument. */
  datatype ChannelSpec = ChannelLink(channelId: string) | ChannelName(name: string) | NoChannelSpec

  /** The link alternative at the start: optional whitespace, an optional quote, `<#digits>`. */
  function ChannelLinkAtStart(s: string): Option<string>
  {
    var w := Run(s, 0, IsSpace);
    var a := if w < |s| && s[w] == '"' then w + 1 else w;
    if a + 2 <= |s| && s[a..a + 2] == "<#" then
      var d := Run(s, a + 2, IsDigit);
      if d >= 1 && a + 2 + d < |s| && s[a + 2 + d] == '>' then Some(s[a + 2..a + 2 + d]) else None
    else None
  }

  /** The name alternative at p: an optional '#', a run of [\w-], an optional quote, whitespace to the end. */
  function ChannelNameAt(s: string, p: nat): (r: Option<string>)
    ensures r.Some? ==> |r.value| >= 1 && forall k :: 0 <= k < |r.value| ==> IsChannelNameChar(r.value[k])
  {
    var start := if p < |s| && s[p] == '#' then p + 1 else p;
    var n := Run(s, start, IsChannelNameChar);
    var e := if start + n < |s| && s[start + n] == '"' then start + n + 1 else start + n;
    if n >= 1 && e + Run(s, e, IsSpace) == |s| then
      Some(s[start..start + n])
    else None
  }

  /** The leftmost name match from p on. */
  function FindChannelName(s: string, p: nat): (r: Option<string>)
    ensures r.None? <==> forall i :: p <= i < |s| ==> ChannelNameAt(s, i).None?
    ensures r.Some? ==> exists i :: p <= i < |s| && ChannelNameAt(s, i) == r
    decreases |s| - p
  {
    if p >= |s| then None
    else if ChannelNameAt(s, p).Some? then ChannelNameAt(s, p)
    else FindChannelName(s, p + 1)
  }

  function ParseChannelString(s: string): ChannelSpec
  {
    match ChannelLinkAtStart(s)
    case Some(id) => ChannelLink(id)
    case None =>
      match FindChannelName(s, 0)
      case Some(name) => ChannelName(name)
      case None => NoChannelSpec
  }

  /** The first channel with the given name. */
  function FindChannelByName(channels: seq<Channel>, name: string): (r: Option<Channel>)
    ensures r.Some? ==> r.value in channels && r.value.name == name
    ensures r.None? <==> forall x :: x in channels ==> x.name != name
  {
    if channels == [] then None
    else if channels[0].name == name then Some(channels[0])
    else
      assert forall x :: x in channels <==> x == channels[0] || x in channels[1..];
      FindChannelByName(channels[1..], name)
  }

  /** The channel found is the first one with that name: the one at index i when no earlier channel has it. */
  lemma {:induction false} FindChannelByNameIsFirst(channels: seq<Channel>, name: string, i: nat)
    requires i < |channels| && channels[i].name == name
    requires forall j :: 0 <= j < i ==> channels[j].name != name
    ensures FindChannelByName(channels, name) == Some(channels[i])
  {
    if i > 0 {
      assert channels[0].name != name;
      FindChannelByNameIsFirst(channels[1..], name, i - 1);
    }
  }

  /** Resolves a channel argument. `channelById` is Discord's answer to a channel request for a given id, used
      by the link branch, and `guildChannels` its answer to the guild channels request of the name branch. */
  function InterpretChannelString(chanStr: string, channelById: string -> Result<Channel, string>,
                                  guildChannels: Result<seq<Channel>, string>): (r: Result<Channel, string>)
    ensures ParseChannelString(chanStr).ChannelLink? ==> r == channelById(ParseChannelString(chanStr).channelId)
    ensures ParseChannelString(chanStr).ChannelName? && guildChannels.Failure? ==> r == Failure(guildChannels.error)
    ensures ParseChannelString(chanStr).ChannelName? && guildChannels.Success? ==>
      && (r.Success? <==> exists x :: x in guildChannels.value && x.name == ParseChannelString(chanStr).name)
      && (r.Success? ==> r.value in guildChannels.value && r.value.name == ParseChannelString(chanStr).name)
    ensures ParseChannelString(chanStr).NoChannelSpec? ==> r.Failure?
  {
    match ParseChannelString(chanStr)
    case ChannelLink(id) => channelById(id)
    case ChannelName(name) =>
      if guildChannels.Failure? then Failure(guildChannels.error)
      else
        match FindChannelByName(guildChannels.value, name) {
          case Some(ch) => Success(ch)
          case None => Failure("couldn't find any channel called " + name + "; it may be worth using a channel link")
        }
    case NoChannelSpec => Failure("unrecognized channel identifier was provided")
  }

  /** A bare channel name, or one after '#', is looked up by that name. */
  lemma ChannelNameForm(hash: bool, name: string)
    requires |name| >= 1 && forall k :: 0 <= k < |name| ==> IsChannelNameChar(name[k])
    ensures ParseChannelString((if hash then "#" else "") + name) == ChannelName(name)
  {
    var h := if hash then "#" else "";
    var s := h + name;
    assert !IsSpace(s[0]) && s[0] != '"' && s[0] != '<';
    assert Run(s, 0, IsSpace) == 0;
    assert ChannelLinkAtStart(s).None? by {
      if 2 <= |s| {
        assert s[0..2][0] == s[0];
      }
    }
    forall k | |h| <= k < |s| ensures IsChannelNameChar(s[k]) {
      assert s[k] == name[k - |h|];
    }
    RunIs(s, |h|, |name|, IsChannelNameChar);
    assert s[|h|..|s|] == name;
    assert ChannelNameAt(s, 0) == Some(name);
  }

  /** A channel link `<#id>` is looked up by its id, whatever follows it. */
  lemma ChannelLinkForm(id: string, tail: string)
    requires |id| >= 1 && AllDigits(id)
    ensures ParseChannelString("<#" + id + ">" + tail) == ChannelLink(id)
  {
    var s := "<#" + id + ">" + tail;
    assert !IsSpace(s[0]) && s[0] != '"';
    assert Run(s, 0, IsSpace) == 0;
    assert s[0..2] == "<#";
    forall k | 2 <= k < 2 + |id| ensures IsDigit(s[k]) {
      assert s[k] == id[k - 2];
    }
    assert s[2 + |id|] == '>';
    RunIs(s, 2, |id|, IsDigit);
    assert s[2..2 + |id|] == id;
  }

  // ---------- undoRoleRule ----------

  /** Undoes a managed-role rule: a reaction rule has its reactions reset, every other kind is left alone. */
  method UndoRoleRule(session: DiscordSession, rule: RoleAssignment, resetOutcome: Option<string>)
    returns (err: Option<string>)
    modifies session
    ensures session.memberRoles == old(session.memberRoles)
    ensures rule.assignmentType == "reaction" ==>
      session.calls == old(session.calls) + [ResetReactions(rule.reactionRoleData)] && err == resetOutcome
    ensures rule.assignmentType != "reaction" ==> session.calls == old(session.calls) && err == None
  {
    if rule.assignmentType == "reaction" {
      err := session.ResetAssignmentReactions(rule.reactionRoleData, resetOutcome);
    } else {
      err := None;
    }
  }
}
