/** The role purge of bot/admin_commands.go: doRolePurge takes a role away from every member holding it and
    undoes every rule that assigns it, collecting failures instead of stopping; HandlePurgeRoleMessage then
    classifies the outcome. The member listing is the paged listing of module GuildMembers. */
module RolePurge {
  import opened Wrappers
  import opened GuildModels
  import opened Session
  import opened GuildMembers
  import BotUtil

  /** A member the role could not be taken from, and why. */
  datatype RemovalFailure = RemovalFailure(member: Member, error: string)

  /** A rule that could not be undone, and why. */
  datatype RuleFailure = RuleFailure(rule: ManagedRoleRule, error: string)

  // ---------- selecting the members ----------

  /** The error of the first error item of the listing, if any. */
  function ListingError(items: seq<GuildMemberResult>): (r: Option<string>)
    ensures r.None? <==> forall i :: 0 <= i < |items| ==> !items[i].ErrorItem?
  {
    if items == [] then None
    else if items[0].ErrorItem? then Some(items[0].error)
    else
      assert forall i :: 1 <= i < |items| ==> items[i] == items[1..][i - 1];
      ListingError(items[1..])
  }

  /** The listed members that hold the role, in listing order. */
  function Selected(items: seq<GuildMemberResult>, roleId: string): seq<Member>
  {
    if items == [] then []
    else
      var last := items[|items| - 1];
      Selected(items[..|items| - 1], roleId)
      + (if last.MemberItem? && roleId in last.member.roles then [last.member] else [])
  }

  /** Walks the listing: stops at the first error item, and otherwise keeps each member holding the role. */
  method SelectMembers(items: seq<GuildMemberResult>, roleId: string)
    returns (relevant: seq<Member>, err: Option<string>)
    ensures err == ListingError(items)
    ensures err.None? ==> relevant == Selected(items, roleId)
  {
    relevant := [];
    var i := 0;
    while i < |items|
      invariant i <= |items|
      invariant ListingError(items[..i]).None?
      invariant relevant == Selected(items[..i], roleId)
    {
      var item := items[i];
      assert items[..i + 1][..i] == items[..i];
      if item.ErrorItem? {
        ErrorOfPrefix(items, i);
        return relevant, Some(item.error);
      } else if item.MemberItem? {
        var holds := ContainsRole(item.member.roles, roleId);
        if holds {
          relevant := relevant + [item.member];
        }
      }
      i := i + 1;
    }
    assert items[..i] == items;
    err := None;
  }

  /** The scan of a member's roles, which stops at the first match. */
  method ContainsRole(roles: seq<string>, roleId: string) returns (found: bool)
    ensures found <==> roleId in roles
  {
    var i := 0;
    while i < |roles|
      invariant i <= |roles|
      invariant roleId !in roles[..i]
    {
      if roles[i] == roleId {
        return true;
      }
      i := i + 1;
    }
    assert roles[..i] == roles;
    return false;
  }

  lemma ErrorOfPrefix(items: seq<GuildMemberResult>, i: nat)
    requires i < |items| && items[i].ErrorItem? && ListingError(items[..i]).None?
    ensures ListingError(items) == Some(items[i].error)
  {
    ListingErrorSplit(items[..i], items[i..]);
    assert items == items[..i] + items[i..];
  }

  lemma {:induction false} ListingErrorSplit(a: seq<GuildMemberResult>, b: seq<GuildMemberResult>)
    requires ListingError(a).None?
    ensures ListingError(a + b) == ListingError(b)
  {
    if a != [] {
      assert (a + b)[1..] == a[1..] + b;
      ListingErrorSplit(a[1..], b);
    } else {
      assert a + b == b;
    }
  }

  /** The members selected are exactly the listed members that hold the role, each as often as it is listed. */
  lemma {:induction false} SelectedAreHolders(items: seq<GuildMemberResult>, roleId: string, m: Member)
    ensures multiset(Selected(items, roleId))[m] == if roleId in m.roles then multiset(items)[MemberItem(m)] else 0
  {
    if items != [] {
      var init := items[..|items| - 1];
      var last := items[|items| - 1];
      var extra := if last.MemberItem? && roleId in last.member.roles then [last.member] else [];
      SelectedAreHolders(init, roleId, m);
      assert items == init + [last];
      assert multiset(items)[MemberItem(m)] == multiset(init)[MemberItem(m)] + multiset{last}[MemberItem(m)];
      assert multiset(Selected(items, roleId))[m] == multiset(Selected(init, roleId))[m] + multiset(extra)[m];
      if last == MemberItem(m) {
        assert multiset(extra)[m] == if roleId in m.roles then 1 else 0;
      } else {
        assert multiset(extra)[m] == 0;
      }
    }
  }

  /** Selection keeps the listing order: a member listed before another is selected before it. */
  lemma {:induction false} SelectedInOrder(a: seq<GuildMemberResult>, b: seq<GuildMemberResult>, roleId: string)
    ensures Selected(a + b, roleId) == Selected(a, roleId) + Selected(b, roleId)
    decreases |b|
  {
    if b == [] {
      assert a + b == a;
    } else {
      var init := b[..|b| - 1];
      SelectedInOrder(a, init, roleId);
      assert (a + b)[..|a + b| - 1] == a + init;
      assert (a + b)[|a + b| - 1] == b[|b| - 1];
    }
  }

  // ---------- removing the role ----------

  /** The removal requests: one per selected member, in order. */
  function RemovalCalls(guildId: string, members: seq<Member>, roleId: string): (r: seq<SessionCall>)
    ensures |r| == |members|
    ensures forall i :: 0 <= i < |members| ==> r[i] == RemoveRole(guildId, members[i].userId, roleId)
  {
    if members == [] then []
    else RemovalCalls(guildId, members[..|members| - 1], roleId)
         + [RemoveRole(guildId, members[|members| - 1].userId, roleId)]
  }

  /** The members whose removal Discord refused, with its error, in order. */
  function RemovalFailures(members: seq<Member>, outcomes: seq<Option<string>>): seq<RemovalFailure>
    requires |outcomes| == |members|
  {
    if members == [] then []
    else
      var n := |members| - 1;
      RemovalFailures(members[..n], outcomes[..n])
      + (if outcomes[n].Some? then [RemovalFailure(members[n], outcomes[n].value)] else [])
  }

  /** The role sets after the removals. */
  function RolesAfterRemovals(roles: map<string, set<string>>, members: seq<Member>, roleId: string,
                              outcomes: seq<Option<string>>): map<string, set<string>>
    requires |outcomes| == |members|
  {
    if members == [] then roles
    else
      var n := |members| - 1;
      RoleRemoved(RolesAfterRemovals(roles, members[..n], roleId, outcomes[..n]), members[n].userId, roleId,
                  outcomes[n])
  }

  /** Asks Discord to take the role from each member in turn; a refusal is recorded and the next member is
      tried. */
  method RemoveFromAll(session: DiscordSession, guildId: string, members: seq<Member>, roleId: string,
                       outcomes: seq<Option<string>>)
    returns (errs: seq<RemovalFailure>)
    requires |outcomes| == |members|
    modifies session
    ensures session.calls == old(session.calls) + RemovalCalls(guildId, members, roleId)
    ensures session.memberRoles == RolesAfterRemovals(old(session.memberRoles), members, roleId, outcomes)
    ensures errs == RemovalFailures(members, outcomes)
  {
    errs := [];
    var i := 0;
    while i < |members|
      invariant i <= |members|
      invariant session.calls == old(session.calls) + RemovalCalls(guildId, members[..i], roleId)
      invariant session.memberRoles == RolesAfterRemovals(old(session.memberRoles), members[..i], roleId, outcomes[..i])
      invariant errs == RemovalFailures(members[..i], outcomes[..i])
    {
      assert members[..i + 1][..i] == members[..i];
      assert outcomes[..i + 1][..i] == outcomes[..i];
      var err := session.GuildMemberRoleRemove(guildId, members[i].userId, roleId, outcomes[i]);
      if err.Some? {
        errs := errs + [RemovalFailure(members[i], err.value)];
      }
      i := i + 1;
    }
    assert members[..i] == members && outcomes[..i] == outcomes;
  }

  /** The failures are the refused members: as many as Discord refused, each a refused member with its error,
      and every refused member among them. */
  lemma RemovalFailuresAreRefusals(members: seq<Member>, outcomes: seq<Option<string>>)
    requires |outcomes| == |members|
    ensures |RemovalFailures(members, outcomes)| == |set i | 0 <= i < |members| && outcomes[i].Some?|
    ensures forall f :: f in RemovalFailures(members, outcomes) ==>
      exists i :: 0 <= i < |members| && outcomes[i].Some? && f == RemovalFailure(members[i], outcomes[i].value)
    ensures forall i :: 0 <= i < |members| && outcomes[i].Some? ==>
      RemovalFailure(members[i], outcomes[i].value) in RemovalFailures(members, outcomes)
  {
    FailuresComeFromRefusals(members, outcomes);
    RefusalsAreListed(members, outcomes);
  }

  /** There are as many failures as refusals, and each is a refused member with its error. */
  lemma {:induction false} FailuresComeFromRefusals(members: seq<Member>, outcomes: seq<Option<string>>)
    requires |outcomes| == |members|
    ensures |RemovalFailures(members, outcomes)| == |set i | 0 <= i < |members| && outcomes[i].Some?|
    ensures forall f :: f in RemovalFailures(members, outcomes) ==>
      exists i :: 0 <= i < |members| && outcomes[i].Some? && f == RemovalFailure(members[i], outcomes[i].value)
  {
    if members != [] {
      var n := |members| - 1;
      FailuresComeFromRefusals(members[..n], outcomes[..n]);
      var before := set i | 0 <= i < n && outcomes[..n][i].Some?;
      var all := set i | 0 <= i < |members| && outcomes[i].Some?;
      assert before == set i | 0 <= i < n && outcomes[i].Some?;
      assert all == before + (if outcomes[n].Some? then {n} else {});
      forall f | f in RemovalFailures(members, outcomes)
        ensures exists i :: 0 <= i < |members| && outcomes[i].Some? && f == RemovalFailure(members[i], outcomes[i].value)
      {
        if f in RemovalFailures(members[..n], outcomes[..n]) {
          var i :| 0 <= i < n && outcomes[..n][i].Some? && f == RemovalFailure(members[..n][i], outcomes[..n][i].value);
          assert members[..n][i] == members[i] && outcomes[..n][i] == outcomes[i];
        } else {
          assert f == RemovalFailure(members[n], outcomes[n].value);
        }
      }
    }
  }

  /** Every refused removal is among the failures, with its member and error. */
  lemma {:induction false} RefusalsAreListed(members: seq<Member>, outcomes: seq<Option<string>>)
    requires |outcomes| == |members|
    ensures forall i :: 0 <= i < |members| && outcomes[i].Some? ==>
      RemovalFailure(members[i], outcomes[i].value) in RemovalFailures(members, outcomes)
  {
    if members != [] {
      var n := |members| - 1;
      RefusalsAreListed(members[..n], outcomes[..n]);
      forall i | 0 <= i < |members| && outcomes[i].Some?
        ensures RemovalFailure(members[i], outcomes[i].value) in RemovalFailures(members, outcomes)
      {
        if i < n {
          assert members[..n][i] == members[i] && outcomes[..n][i] == outcomes[i];
        }
      }
    }
  }

  /** The failures keep the order of the removals: those of a batch split in two are the first part's followed
      by the second part's. */
  lemma {:induction false} RemovalFailuresInOrder(m1: seq<Member>, o1: seq<Option<string>>,
                                                  m2: seq<Member>, o2: seq<Option<string>>)
    requires |o1| == |m1| && |o2| == |m2|
    ensures RemovalFailures(m1 + m2, o1 + o2) == RemovalFailures(m1, o1) + RemovalFailures(m2, o2)
    decreases |m2|
  {
    if m2 == [] {
      assert m1 + m2 == m1 && o1 + o2 == o1;
    } else {
      var n := |m2| - 1;
      RemovalFailuresInOrder(m1, o1, m2[..n], o2[..n]);
      assert (m1 + m2)[..|m1 + m2| - 1] == m1 + m2[..n];
      assert (o1 + o2)[..|o1 + o2| - 1] == o1 + o2[..n];
      assert (m1 + m2)[|m1 + m2| - 1] == m2[n];
      assert (o1 + o2)[|o1 + o2| - 1] == o2[n];
    }
  }

  /** After the removals, a member whose last removal Discord accepted no longer holds the role, and members
      that were not selected keep their roles. */
  lemma {:induction false} RemovalsTakeTheRole(roles: map<string, set<string>>, members: seq<Member>, roleId: string,
                                               outcomes: seq<Option<string>>)
    requires |outcomes| == |members|
    ensures RolesAfterRemovals(roles, members, roleId, outcomes).Keys == roles.Keys
    ensures forall i :: 0 <= i < |members| && outcomes[i].None? && members[i].userId in roles ==>
      roleId !in RolesAfterRemovals(roles, members, roleId, outcomes)[members[i].userId]
    ensures forall u :: u in roles && (forall i :: 0 <= i < |members| ==> members[i].userId != u) ==>
      RolesAfterRemovals(roles, members, roleId, outcomes)[u] == roles[u]
  {
    if members != [] {
      var n := |members| - 1;
      RemovalsTakeTheRole(roles, members[..n], roleId, outcomes[..n]);
      var prev := RolesAfterRemovals(roles, members[..n], roleId, outcomes[..n]);
      var after := RolesAfterRemovals(roles, members, roleId, outcomes);
      assert after == RoleRemoved(prev, members[n].userId, roleId, outcomes[n]);
      forall i | 0 <= i < |members| && outcomes[i].None? && members[i].userId in roles
        ensures roleId !in after[members[i].userId]
      {
        if i < n {
          assert members[..n][i] == members[i] && outcomes[..n][i] == outcomes[i];
          assert roleId !in prev[members[i].userId];
        }
      }
      forall u | u in roles && (forall i :: 0 <= i < |members| ==> members[i].userId != u)
        ensures after[u] == roles[u]
      {
        assert forall i :: 0 <= i < n ==> members[..n][i] == members[i];
        assert members[n].userId != u;
      }
    }
  }

  // ---------- undoing the rules ----------

  /** The requests undoing the rules make: a reaction reset per reaction rule, in order. */
  function UndoCalls(rules: seq<ManagedRoleRule>): seq<SessionCall>
  {
    if rules == [] then []
    else
      var last := rules[|rules| - 1].roleAssignment;
      UndoCalls(rules[..|rules| - 1])
      + (if last.assignmentType == "reaction" then [ResetReactions(last.reactionRoleData)] else [])
  }

  /** The rules whose undoing failed, with the error: only reaction rules can fail. */
  function RuleFailures(rules: seq<ManagedRoleRule>, outcomes: seq<Option<string>>): seq<RuleFailure>
    requires |outcomes| == |rules|
  {
    if rules == [] then []
    else
      var n := |rules| - 1;
      RuleFailures(rules[..n], outcomes[..n])
      + (if rules[n].roleAssignment.assignmentType == "reaction" && outcomes[n].Some?
         then [RuleFailure(rules[n], outcomes[n].value)] else [])
  }

  /** Undoes each rule in turn; a failure is recorded and the next rule is tried. `outcomes` are the errors of
      the reaction resets, one per rule. */
  method UndoAll(session: DiscordSession, rules: seq<ManagedRoleRule>, outcomes: seq<Option<string>>)
    returns (failed: seq<RuleFailure>)
    requires |outcomes| == |rules|
    modifies session
    ensures session.calls == old(session.calls) + UndoCalls(rules)
    ensures session.memberRoles == old(session.memberRoles)
    ensures failed == RuleFailures(rules, outcomes)
  {
    failed := [];
    var i := 0;
    while i < |rules|
      invariant i <= |rules|
      invariant session.calls == old(session.calls) + UndoCalls(rules[..i])
      invariant session.memberRoles == old(session.memberRoles)
      invariant failed == RuleFailures(rules[..i], outcomes[..i])
    {
      assert rules[..i + 1][..i] == rules[..i];
      assert outcomes[..i + 1][..i] == outcomes[..i];
      var err := BotUtil.UndoRoleRule(session, rules[i].roleAssignment, outcomes[i]);
      if err.Some? {
        failed := failed + [RuleFailure(rules[i], err.value)];
      }
      i := i + 1;
    }
    assert rules[..i] == rules && outcomes[..i] == outcomes;
  }

  /** The reaction rules, in order. */
  function ReactionRules(rules: seq<ManagedRoleRule>): seq<ManagedRoleRule>
  {
    if rules == [] then []
    else
      var last := rules[|rules| - 1];
      ReactionRules(rules[..|rules| - 1]) + (if last.roleAssignment.assignmentType == "reaction" then [last] else [])
  }

  /** Undoing makes one reset request per reaction rule, in order, and no other request. */
  lemma {:induction false} OneResetPerReactionRule(rules: seq<ManagedRoleRule>)
    ensures |UndoCalls(rules)| == |ReactionRules(rules)|
    ensures forall i :: 0 <= i < |UndoCalls(rules)| ==>
      UndoCalls(rules)[i] == ResetReactions(ReactionRules(rules)[i].roleAssignment.reactionRoleData)
  {
    if rules != [] {
      OneResetPerReactionRule(rules[..|rules| - 1]);
    }
  }

  /** Every failed rule is a reaction rule of the list; there are no more failures than reaction rules. */
  lemma {:induction false} OnlyReactionRulesFail(rules: seq<ManagedRoleRule>, outcomes: seq<Option<string>>)
    requires |outcomes| == |rules|
    ensures forall f :: f in RuleFailures(rules, outcomes) ==> f.rule in ReactionRules(rules)
    ensures |RuleFailures(rules, outcomes)| <= |ReactionRules(rules)|
  {
    if rules != [] {
      var n := |rules| - 1;
      OnlyReactionRulesFail(rules[..n], outcomes[..n]);
    }
  }

  /** A reaction rule is one of the rules, of type "reaction". */
  lemma {:induction false} ReactionRulesAreReactions(rules: seq<ManagedRoleRule>)
    ensures forall r :: r in ReactionRules(rules) <==> r in rules && r.roleAssignment.assignmentType == "reaction"
  {
    if rules != [] {
      var n := |rules| - 1;
      ReactionRulesAreReactions(rules[..n]);
      assert rules == rules[..n] + [rules[n]];
    }
  }

  // ---------- doRolePurge ----------

  /** Purges a role: lists the guild's members (`responses` are the listing's page answers), takes the role
      from every member holding it, then looks up the rules for the role (`rules` is the store's answer) and
      undoes each. A listing error stops everything before any request; a rule lookup error returns the
      member failures gathered so far with that error. */
  method DoRolePurge(session: DiscordSession, guildId: string, role: Role, responses: seq<FetchResponse>,
                     removeOutcomes: seq<Option<string>>, rules: Result<seq<ManagedRoleRule>, string>,
                     undoOutcomes: seq<Option<string>>)
    returns (problemMembers: seq<RemovalFailure>, problemRules: seq<RuleFailure>, err: Option<string>)
    requires Terminates(responses)
    requires ListingError(Emitted(responses)).None? ==> |removeOutcomes| == |Selected(Emitted(responses), role.id)|
    requires rules.Success? ==> |undoOutcomes| == |rules.value|
    modifies session
    ensures ListingError(Emitted(responses)).Some? ==>
      && err == ListingError(Emitted(responses)) && problemMembers == [] && problemRules == []
      && session.calls == old(session.calls) && session.memberRoles == old(session.memberRoles)
    ensures ListingError(Emitted(responses)).None? ==>
      && problemMembers == RemovalFailures(Selected(Emitted(responses), role.id), removeOutcomes)
      && session.memberRoles == RolesAfterRemovals(old(session.memberRoles), Selected(Emitted(responses), role.id),
                                                   role.id, removeOutcomes)
      && (rules.Failure? ==>
            && err == Some(rules.error) && problemRules == []
            && session.calls == old(session.calls) + RemovalCalls(guildId, Selected(Emitted(responses), role.id), role.id))
      && (rules.Success? ==>
            && err == None && problemRules == RuleFailures(rules.value, undoOutcomes)
            && session.calls == old(session.calls) + RemovalCalls(guildId, Selected(Emitted(responses), role.id), role.id)
                                + UndoCalls(rules.value))
  {
    var items, _ := GuildMembersIter(guildId, responses);
    var relevant, listErr := SelectMembers(items, role.id);
    if listErr.Some? {
      return [], [], listErr;
    }
    problemMembers := RemoveFromAll(session, guildId, relevant, role.id, removeOutcomes);
    if rules.Failure? {
      return problemMembers, [], Some(rules.error);
    }
    problemRules := UndoAll(session, rules.value, undoOutcomes);
    err := None;
  }

  // ---------- HandlePurgeRoleMessage's classification ----------

  /** How a purge is reported. A partial success carries the member failures grouped by error text and the
      rule failures, each present or absent as the reply's two data entries are. */
  datatype PurgeReport =
    | PurgeFailed(error: string)
    | PurgeSucceeded
    | PurgePartial(memberCauses: Option<map<string, seq<string>>>, ruleFailures: Option<seq<RuleFailure>>)

  /** The nicknames of the failed members, grouped by error text, each group in order. */
  function CausesOf(problems: seq<RemovalFailure>): map<string, seq<string>>
  {
    if problems == [] then map[]
    else
      var rest := CausesOf(problems[..|problems| - 1]);
      var p := problems[|problems| - 1];
      rest[p.error := (if p.error in rest then rest[p.error] else []) + [p.member.nick]]
  }

  /** The nicknames of the failures with the given error, in order. */
  function NicksWithError(problems: seq<RemovalFailure>, error: string): seq<string>
  {
    if problems == [] then []
    else
      var p := problems[|problems| - 1];
      NicksWithError(problems[..|problems| - 1], error) + (if p.error == error then [p.member.nick] else [])
  }

  /** Builds the map from error text to the nicknames of the members that failed with it. */
  method BuildCausesMap(problems: seq<RemovalFailure>) returns (causes: map<string, seq<string>>)
    ensures causes == CausesOf(problems)
  {
    causes := map[];
    var i := 0;
    while i < |problems|
      invariant i <= |problems|
      invariant causes == CausesOf(problems[..i])
    {
      var issue := problems[i];
      assert problems[..i + 1][..i] == problems[..i];
      var members := if issue.error in causes then causes[issue.error] else [];
      causes := causes[issue.error := members + [issue.member.nick]];
      i := i + 1;
    }
    assert problems[..i] == problems;
  }

  /** The map has a group for each error that occurred, holding exactly the nicknames that failed with it, in
      order. */
  lemma CausesGroupByError(problems: seq<RemovalFailure>)
    ensures forall e :: e in CausesOf(problems) <==> exists p :: p in problems && p.error == e
    ensures forall e :: e in CausesOf(problems) ==> CausesOf(problems)[e] == NicksWithError(problems, e)
  {
    CausesKeys(problems);
    CausesGroups(problems);
  }

  lemma {:induction false} CausesKeys(problems: seq<RemovalFailure>)
    ensures forall e :: e in CausesOf(problems) <==> exists p :: p in problems && p.error == e
  {
    if problems != [] {
      var init := problems[..|problems| - 1];
      var last := problems[|problems| - 1];
      CausesKeys(init);
      assert problems == init + [last];
      forall e ensures e in CausesOf(problems) <==> exists p :: p in problems && p.error == e {
        if e in CausesOf(init) {
          var p :| p in init && p.error == e;
          assert p in problems;
        }
        if e != last.error && (exists p :: p in problems && p.error == e) {
          var p :| p in problems && p.error == e;
          assert p in init;
        }
      }
    }
  }

  lemma {:induction false} CausesGroups(problems: seq<RemovalFailure>)
    ensures forall e :: e in CausesOf(problems) ==> CausesOf(problems)[e] == NicksWithError(problems, e)
  {
    if problems != [] {
      var init := problems[..|problems| - 1];
      var last := problems[|problems| - 1];
      CausesGroups(init);
      if last.error !in CausesOf(init) {
        CausesKeys(init);
        NicksWithErrorAbsent(init, last.error);
      }
    }
  }

  lemma {:induction false} NicksWithErrorAbsent(problems: seq<RemovalFailure>, e: string)
    requires forall p :: p in problems ==> p.error != e
    ensures NicksWithError(problems, e) == []
  {
    if problems != [] {
      assert problems[|problems| - 1] in problems;
      assert forall p :: p in problems[..|problems| - 1] ==> p in problems;
      NicksWithErrorAbsent(problems[..|problems| - 1], e);
    }
  }

  /** The report as written: the guards meant to include each data entry only when it has failures test
      "non-nil or empty", which every list satisfies, so a partial success always carries both entries. */
  function PurgeReportAsWritten(problemMembers: seq<RemovalFailure>, problemRules: seq<RuleFailure>,
                                err: Option<string>): (r: PurgeReport)
    ensures err.Some? ==> r == PurgeFailed(err.value)
    ensures err.None? ==> (r == PurgeSucceeded <==> problemMembers == [] && problemRules == [])
    ensures r.PurgePartial? ==> r.memberCauses.Some? && r.ruleFailures.Some?
  {
    if err.Some? then PurgeFailed(err.value)
    else if problemMembers == [] && problemRules == [] then PurgeSucceeded
    else PurgePartial(Some(CausesOf(problemMembers)), Some(problemRules))
  }

  /** The report as evidently intended: a data entry only for the kind of failure that occurred. */
  function PurgeReportIntended(problemMembers: seq<RemovalFailure>, problemRules: seq<RuleFailure>,
                       err: Option<string>): (r: PurgeReport)
    ensures err.Some? ==> r == PurgeFailed(err.value)
    ensures err.None? ==> (r == PurgeSucceeded <==> problemMembers == [] && problemRules == [])
    ensures r.PurgePartial? ==> (r.memberCauses.Some? <==> problemMembers != [])
                                && (r.ruleFailures.Some? <==> problemRules != [])
  {
    if err.Some? then PurgeFailed(err.value)
    else if problemMembers == [] && problemRules == [] then PurgeSucceeded
    else PurgePartial(if problemMembers != [] then Some(CausesOf(problemMembers)) else None,
                      if problemRules != [] then Some(problemRules) else None)
  }

  /** As written, a purge where only members failed still reports an (empty) entry for failed rules. */
  lemma EmptyRuleEntryReported(problemMembers: seq<RemovalFailure>)
    requires problemMembers != []
    ensures PurgeReportAsWritten(problemMembers, [], None).ruleFailures == Some([])
    ensures PurgeReportIntended(problemMembers, [], None).ruleFailures == None
  {
  }

  /** A purge where nothing fails reports success. */
  lemma PurgeOutcomes(responses: seq<FetchResponse>, role: Role, rules: seq<ManagedRoleRule>)
    requires ListingError(Emitted(responses)).None?
    ensures PurgeReportIntended(RemovalFailures(Selected(Emitted(responses), role.id),
                                        NoErrors(|Selected(Emitted(responses), role.id)|)),
                        RuleFailures(rules, NoErrors(|rules|)), None) == PurgeSucceeded
  {
    NoFailuresWithoutErrors(Selected(Emitted(responses), role.id));
    NoRuleFailuresWithoutErrors(rules);
  }

  /** n answers that report no error. */
  function NoErrors(n: nat): (r: seq<Option<string>>)
    ensures |r| == n && forall i :: 0 <= i < n ==> r[i].None?
  {
    seq(n, _ => None)
  }

  lemma {:induction false} NoFailuresWithoutErrors(members: seq<Member>)
    ensures RemovalFailures(members, NoErrors(|members|)) == []
  {
    if members != [] {
      var n := |members| - 1;
      assert NoErrors(|members|)[..n] == NoErrors(n);
      NoFailuresWithoutErrors(members[..n]);
    }
  }

  lemma {:induction false} NoRuleFailuresWithoutErrors(rules: seq<ManagedRoleRule>)
    ensures RuleFailures(rules, NoErrors(|rules|)) == []
  {
    if rules != [] {
      var n := |rules| - 1;
      assert NoErrors(|rules|)[..n] == NoErrors(n);
      NoRuleFailuresWithoutErrors(rules[..n]);
    }
  }
}
