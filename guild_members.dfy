/** Paging through the members of a guild (discord/guild_members.go). The goroutine and its channel become one
    sequential method that returns the items the channel would deliver, in order, together with the page
    requests sent to Discord. */
module GuildMembers {
  import opened Wrappers
  import opened Session
  import Lex

  /** The page size of every member request. */
  const MemberPageSize: nat := 512

  /** One item of the listing. `Done` is the empty item the exhausted iterator would send. */
  datatype GuildMemberResult = MemberItem(member: Member) | ErrorItem(error: string) | Done

  /** A request for the members whose id comes after `after`. */
  datatype MembersRequest = MembersRequest(guildId: string, after: string, limit: nat)

  /** What Discord answers to one page request: a page, or an error (with no members). */
  datatype FetchResponse = Page(members: seq<Member>) | FetchFailed(error: string)

  /** A response after which the iterator closes. */
  predicate Ends(r: FetchResponse)
  {
    r.FetchFailed? || r.members == []
  }

  /** The user ids of a page, in order. */
  function Ids(page: seq<Member>): seq<string>
  {
    if page == [] then [] else [page[0].userId] + Ids(page[1..])
  }

  // ---------- maxUID ----------

  /** The running maximum of a left-to-right scan that starts at `acc`. */
  function MaxFrom(acc: string, ids: seq<string>): string
    decreases |ids|
  {
    if ids == [] then acc
    else MaxFrom(if Lex.Less(acc, ids[0]) then ids[0] else acc, ids[1..])
  }

  /** The value maxUID computes. */
  function MaxUidOf(ids: seq<string>): string
  {
    MaxFrom("0", ids)
  }

  /** maxUID: the largest id in Go's string order, starting from "0". */
  method MaxUid(ids: seq<string>) returns (maxuid: string)
    ensures maxuid == MaxUidOf(ids)
    ensures maxuid == "0" || maxuid in ids
    ensures Lex.LessEq("0", maxuid)
    ensures forall i :: 0 <= i < |ids| ==> Lex.LessEq(ids[i], maxuid)
  {
    maxuid := "0";
    for i := 0 to |ids|
      invariant MaxFrom(maxuid, ids[i..]) == MaxUidOf(ids)
      invariant maxuid == "0" || maxuid in ids[..i]
      invariant Lex.LessEq("0", maxuid)
      invariant forall j :: 0 <= j < i ==> Lex.LessEq(ids[j], maxuid)
    {
      Lex.LessTotal(maxuid, ids[i]);
      if Lex.Less(maxuid, ids[i]) {
        forall j | 0 <= j < i ensures Lex.LessEq(ids[j], ids[i]) {
          Lex.LessEqTransitive(ids[j], maxuid, ids[i]);
        }
        Lex.LessEqTransitive("0", maxuid, ids[i]);
        maxuid := ids[i];
      }
      assert ids[i..][1..] == ids[i + 1..];
    }
    assert ids[|ids|..] == [];
  }

  /** The scan's result is at least its start and every id. */
  lemma {:induction false} MaxFromIsUpperBound(acc: string, ids: seq<string>)
    ensures Lex.LessEq(acc, MaxFrom(acc, ids))
    ensures forall i :: 0 <= i < |ids| ==> Lex.LessEq(ids[i], MaxFrom(acc, ids))
    decreases |ids|
  {
    if ids != [] {
      var next := if Lex.Less(acc, ids[0]) then ids[0] else acc;
      MaxFromIsUpperBound(next, ids[1..]);
      var m := MaxFrom(acc, ids);
      Lex.LessTotal(acc, ids[0]);
      Lex.LessEqTransitive(acc, next, m);
      Lex.LessEqTransitive(ids[0], next, m);
      forall i | 0 <= i < |ids| ensures Lex.LessEq(ids[i], m) {
        if i > 0 {
          assert ids[i] == ids[1..][i - 1];
        }
      }
    }
  }

  /** The scan's result is its start or one of the ids. */
  lemma {:induction false} MaxFromIsMember(acc: string, ids: seq<string>)
    ensures MaxFrom(acc, ids) == acc || MaxFrom(acc, ids) in ids
    decreases |ids|
  {
    if ids != [] {
      var next := if Lex.Less(acc, ids[0]) then ids[0] else acc;
      MaxFromIsMember(next, ids[1..]);
    }
  }

  /** maxUID of an empty page is "0". */
  lemma MaxUidOfEmpty()
    ensures MaxUidOf([]) == "0"
  {
  }

  /** maxUID is the greatest of "0" and the ids; in particular it is unique. */
  lemma MaxUidIsGreatest(ids: seq<string>)
    ensures MaxUidOf(ids) == "0" || MaxUidOf(ids) in ids
    ensures Lex.LessEq("0", MaxUidOf(ids))
    ensures forall i :: 0 <= i < |ids| ==> Lex.LessEq(ids[i], MaxUidOf(ids))
  {
    MaxFromIsUpperBound("0", ids);
    MaxFromIsMember("0", ids);
  }

  /** maxUID compares ids as strings, not as numbers. */
  lemma MaxUidIsNotNumeric()
    ensures MaxUidOf(["9", "10"]) == "9"
  {
    assert Lex.Less("0", "9");
    assert !Lex.Less("9", "10");
  }

  // ---------- the listing ----------

  /** The member items of a page from position i on, in page order. */
  function ItemsFrom(page: seq<Member>, i: nat): seq<GuildMemberResult>
    decreases |page| - i
  {
    if i >= |page| then [] else [MemberItem(page[i])] + ItemsFrom(page, i + 1)
  }

  /** The items delivered once Discord has answered the k-th page request with responses[k], and so on. */
  function EmittedFrom(responses: seq<FetchResponse>, k: nat): seq<GuildMemberResult>
    decreases |responses| - k
  {
    if k >= |responses| then []
    else match responses[k]
      case FetchFailed(e) => [ErrorItem(e)]
      case Page(ms) => if ms == [] then [] else ItemsFrom(ms, 0) + EmittedFrom(responses, k + 1)
  }

  /** The items the iterator delivers when Discord answers its page requests with `responses`, in order. */
  function Emitted(responses: seq<FetchResponse>): seq<GuildMemberResult>
  {
    EmittedFrom(responses, 0)
  }

  /** The page requests from the k-th on, when the k-th asks for the members after `after`: each later one
      asks for the members after maxUID of the page before it. */
  function RequestsFrom(guildId: string, after: string, responses: seq<FetchResponse>, k: nat)
    : (reqs: seq<MembersRequest>)
    ensures k <= |responses| ==> |reqs| <= |responses| - k
    decreases |responses| - k
  {
    if k >= |responses| then []
    else
      var rest := if Ends(responses[k]) then [] else RequestsFrom(guildId, MaxUidOf(Ids(responses[k].members)), responses, k + 1);
      [MembersRequest(guildId, after, MemberPageSize)] + rest
  }

  /** The page requests the iterator sends; the first asks for the members after maxUID of no page, "0". */
  function PageRequests(guildId: string, responses: seq<FetchResponse>): seq<MembersRequest>
  {
    RequestsFrom(guildId, MaxUidOf([]), responses, 0)
  }

  /** Discord's answers end the listing somewhere: at an empty page or an error. */
  predicate Terminates(responses: seq<FetchResponse>)
  {
    exists i :: 0 <= i < |responses| && Ends(responses[i])
  }

  /** GuildMembersIter: fetches a page after maxUID of the previous one, sends its members one by one, and
      closes at the first empty page; a failed fetch sends one error item and then closes. `responses` are
      Discord's answers to the successive page requests, and must end the listing at some point. */
  method GuildMembersIter(guildId: string, responses: seq<FetchResponse>)
    returns (items: seq<GuildMemberResult>, requests: seq<MembersRequest>)
    requires Terminates(responses)
    ensures items == Emitted(responses)
    ensures requests == PageRequests(guildId, responses)
  {
    items, requests := [], [];
    var isDone := false;
    var lastLoc: nat := 0;
    var currentPage: seq<Member> := [];
    var k := 0;
    TerminatesHasStop(responses, 0);
    ghost var all := Emitted(responses);
    ghost var allRequests := PageRequests(guildId, responses);
    while true
      invariant 0 <= k <= |responses|
      invariant !isDone
      invariant StopFrom(responses, k) < |responses|
      invariant lastLoc <= |currentPage|
      invariant all == items + (ItemsFrom(currentPage, lastLoc + 1) + EmittedFrom(responses, k))
      invariant allRequests == requests + RequestsFrom(guildId, MaxUidOf(Ids(currentPage)), responses, k)
      decreases |responses| - k, |currentPage| - lastLoc
    {
      if isDone {
        // The goroutine returns as soon as it sets isDone, so this branch never runs.
        assert false;
      } else if lastLoc + 1 < |currentPage| {
        Shift(all, items, MemberItem(currentPage[lastLoc + 1]),
          ItemsFrom(currentPage, lastLoc + 2), EmittedFrom(responses, k));
        lastLoc := lastLoc + 1;
        items := items + [MemberItem(currentPage[lastLoc])];
      } else {
        var afterUid := MaxUid(Ids(currentPage));
        RequestStep(allRequests, requests, guildId, currentPage, responses, k);
        requests := requests + [MembersRequest(guildId, afterUid, MemberPageSize)];
        var response := responses[k];
        ghost var sent := items;
        if response.FetchFailed? {
          items := items + [ErrorItem(response.error)];
        }
        var newMembers := if response.Page? then response.members else [];
        if |newMembers| == 0 {
          EndStep(all, sent, currentPage, lastLoc, responses, k);
          isDone := true;
          return;
        }
        assert response == Page(newMembers) && !Ends(response);
        PageStep(all, items, currentPage, lastLoc, responses, k);
        currentPage := newMembers;
        lastLoc := 0;
        k := k + 1;
        items := items + [MemberItem(currentPage[0])];
      }
    }
  }

  /** The index of the first answer from k on that ends the listing (|responses| if there is none). */
  function StopFrom(responses: seq<FetchResponse>, k: nat): (stop: nat)
    ensures k <= stop || stop == |responses|
    ensures stop <= |responses|
    decreases |responses| - k
  {
    if k >= |responses| then |responses|
    else if Ends(responses[k]) then k
    else StopFrom(responses, k + 1)
  }

  /** When the answers from k on end the listing somewhere, the first such answer is found. */
  lemma {:induction false} TerminatesHasStop(responses: seq<FetchResponse>, k: nat)
    requires exists i :: k <= i < |responses| && Ends(responses[i])
    ensures StopFrom(responses, k) < |responses| && Ends(responses[StopFrom(responses, k)])
    ensures forall j :: k <= j < StopFrom(responses, k) ==> !Ends(responses[j])
    decreases |responses| - k
  {
    if !Ends(responses[k]) {
      var i :| k <= i < |responses| && Ends(responses[i]);
      assert i != k;
      TerminatesHasStop(responses, k + 1);
    }
  }

  /** The member items of a page are its members, in order. */
  lemma {:induction false} ItemsFromAreMembers(page: seq<Member>, i: nat)
    ensures |ItemsFrom(page, i)| == if i <= |page| then |page| - i else 0
    ensures forall j :: 0 <= j < |ItemsFrom(page, i)| ==> ItemsFrom(page, i)[j] == MemberItem(page[i + j])
    decreases |page| - i
  {
    if i < |page| {
      ItemsFromAreMembers(page, i + 1);
      var r := ItemsFrom(page, i + 1);
      assert ItemsFrom(page, i) == [MemberItem(page[i])] + r;
      forall j | 0 <= j < |ItemsFrom(page, i)| ensures ItemsFrom(page, i)[j] == MemberItem(page[i + j]) {
        if j > 0 {
          assert ItemsFrom(page, i)[j] == r[j - 1];
        }
      }
    }
  }

  /** The last member item of a non-empty page is a member item. */
  lemma ItemsFromLast(page: seq<Member>)
    requires page != []
    ensures ItemsFrom(page, 0) != [] && ItemsFrom(page, 0)[|ItemsFrom(page, 0)| - 1].MemberItem?
  {
    ItemsFromAreMembers(page, 0);
  }

  /** The last element of a concatenation. */
  lemma LastOfConcat<T>(a: seq<T>, b: seq<T>)
    requires a != []
    ensures (a + b)[|a + b| - 1] == if b == [] then a[|a| - 1] else b[|b| - 1]
  {
  }

  /** A listing never holds `Done`, and an error item can only be its last item. */
  lemma {:induction false} ErrorOnlyLast(responses: seq<FetchResponse>, k: nat)
    ensures forall j :: 0 <= j < |EmittedFrom(responses, k)| ==> !EmittedFrom(responses, k)[j].Done?
    ensures forall j :: 0 <= j < |EmittedFrom(responses, k)| - 1 ==> EmittedFrom(responses, k)[j].MemberItem?
    decreases |responses| - k
  {
    if k < |responses| && responses[k].Page? && responses[k].members != [] {
      ErrorOnlyLast(responses, k + 1);
      ItemsFromAreMembers(responses[k].members, 0);
      var a := ItemsFrom(responses[k].members, 0);
      var b := EmittedFrom(responses, k + 1);
      var e := EmittedFrom(responses, k);
      assert e == a + b;
      forall j | 0 <= j < |e| ensures !e[j].Done? && (j < |e| - 1 ==> e[j].MemberItem?) {
        if j >= |a| {
          assert e[j] == b[j - |a|];
        }
      }
    }
  }

  /** The listing ends with an error item exactly when the answer that stops it is a failed fetch. */
  lemma {:induction false} ErrorIffFailedStop(responses: seq<FetchResponse>, k: nat)
    ensures (|EmittedFrom(responses, k)| > 0 && EmittedFrom(responses, k)[|EmittedFrom(responses, k)| - 1].ErrorItem?)
            <==> (StopFrom(responses, k) < |responses| && responses[StopFrom(responses, k)].FetchFailed?)
    decreases |responses| - k
  {
    if k < |responses| && responses[k].Page? && responses[k].members != [] {
      ErrorIffFailedStop(responses, k + 1);
      ItemsFromLast(responses[k].members);
      var a := ItemsFrom(responses[k].members, 0);
      var b := EmittedFrom(responses, k + 1);
      assert EmittedFrom(responses, k) == a + b;
      LastOfConcat(a, b);
    }
  }

  /** One page request is sent per answer up to and including the one that stops the listing, every one for
      512 members of the guild, the first for those after `after`. */
  lemma {:induction false} RequestsCount(guildId: string, after: string, responses: seq<FetchResponse>, k: nat)
    requires k <= |responses|
    ensures |RequestsFrom(guildId, after, responses, k)| == if StopFrom(responses, k) < |responses| then StopFrom(responses, k) + 1 - k else |responses| - k
    ensures forall j :: 0 <= j < |RequestsFrom(guildId, after, responses, k)| ==>
      RequestsFrom(guildId, after, responses, k)[j].guildId == guildId && RequestsFrom(guildId, after, responses, k)[j].limit == MemberPageSize
    ensures |RequestsFrom(guildId, after, responses, k)| > 0 ==> RequestsFrom(guildId, after, responses, k)[0].after == after
    decreases |responses| - k
  {
    if k < |responses| && !Ends(responses[k]) {
      var next := MaxUidOf(Ids(responses[k].members));
      RequestsCount(guildId, next, responses, k + 1);
      var r := RequestsFrom(guildId, next, responses, k + 1);
      var all := RequestsFrom(guildId, after, responses, k);
      assert all == [MembersRequest(guildId, after, MemberPageSize)] + r;
      forall j | 0 < j < |all| ensures all[j].guildId == guildId && all[j].limit == MemberPageSize {
        assert all[j] == r[j - 1];
      }
    }
  }

  /** The page request sent after Discord's i-th answer asks for the members after maxUID of that answer's
      page, and that answer did not stop the listing. */
  lemma {:induction false} RequestsAreChained(guildId: string, after: string, responses: seq<FetchResponse>, k: nat)
    requires k <= |responses|
    ensures forall i :: k <= i < k + |RequestsFrom(guildId, after, responses, k)| - 1 ==>
      !Ends(responses[i]) && RequestsFrom(guildId, after, responses, k)[i + 1 - k].after == MaxUidOf(Ids(responses[i].members))
    decreases |responses| - k
  {
    if k < |responses| && !Ends(responses[k]) {
      var next := MaxUidOf(Ids(responses[k].members));
      RequestsAreChained(guildId, next, responses, k + 1);
      RequestsCount(guildId, next, responses, k + 1);
      var r := RequestsFrom(guildId, next, responses, k + 1);
      var all := RequestsFrom(guildId, after, responses, k);
      assert all == [MembersRequest(guildId, after, MemberPageSize)] + r;
      forall i | k <= i < k + |all| - 1
        ensures !Ends(responses[i]) && all[i + 1 - k].after == MaxUidOf(Ids(responses[i].members))
      {
        assert all[i + 1 - k] == r[i - k];
      }
    } else if k < |responses| {
      assert RequestsFrom(guildId, after, responses, k) == [MembersRequest(guildId, after, MemberPageSize)];
    } else {
      assert RequestsFrom(guildId, after, responses, k) == [];
    }
  }

  /** Sending the k-th page request moves it from the pending requests to those already sent. */
  lemma RequestStep(total: seq<MembersRequest>, requests: seq<MembersRequest>, guildId: string,
                    prev: seq<Member>, responses: seq<FetchResponse>, k: nat)
    requires k < |responses|
    requires total == requests + RequestsFrom(guildId, MaxUidOf(Ids(prev)), responses, k)
    ensures Ends(responses[k]) ==> total == requests + [MembersRequest(guildId, MaxUidOf(Ids(prev)), MemberPageSize)]
    ensures !Ends(responses[k]) ==> total == (requests + [MembersRequest(guildId, MaxUidOf(Ids(prev)), MemberPageSize)])
                                             + RequestsFrom(guildId, MaxUidOf(Ids(responses[k].members)), responses, k + 1)
  {
  }

  /** Discord's k-th answer, once the page before it is used up: an error item, or the end. */
  lemma EndStep(total: seq<GuildMemberResult>, items: seq<GuildMemberResult>, prev: seq<Member>, lastLoc: nat,
                responses: seq<FetchResponse>, k: nat)
    requires k < |responses| && |prev| <= lastLoc + 1 && Ends(responses[k])
    requires total == items + (ItemsFrom(prev, lastLoc + 1) + EmittedFrom(responses, k))
    ensures total == items + (if responses[k].FetchFailed? then [ErrorItem(responses[k].error)] else [])
  {
    assert ItemsFrom(prev, lastLoc + 1) == [];
  }

  /** Discord's k-th answer, once the page before it is used up: a new page whose first member is sent. */
  lemma PageStep(total: seq<GuildMemberResult>, items: seq<GuildMemberResult>, prev: seq<Member>, lastLoc: nat,
                 responses: seq<FetchResponse>, k: nat)
    requires k < |responses| && |prev| <= lastLoc + 1 && !Ends(responses[k])
    requires total == items + (ItemsFrom(prev, lastLoc + 1) + EmittedFrom(responses, k))
    ensures total == (items + [MemberItem(responses[k].members[0])])
                     + (ItemsFrom(responses[k].members, 1) + EmittedFrom(responses, k + 1))
  {
    var ms := responses[k].members;
    var x, pending, rest := MemberItem(ms[0]), ItemsFrom(ms, 1), EmittedFrom(responses, k + 1);
    assert ItemsFrom(prev, lastLoc + 1) + EmittedFrom(responses, k) == EmittedFrom(responses, k);
    assert EmittedFrom(responses, k) == [x] + pending + rest;
    Shift(total, items, x, pending, rest);
  }

  /** Moving one element from the pending part to the part already produced. */
  lemma Shift<T>(total: seq<T>, done: seq<T>, x: T, pending: seq<T>, rest: seq<T>)
    requires total == done + ([x] + pending + rest)
    ensures total == (done + [x]) + (pending + rest)
  {
  }

}
