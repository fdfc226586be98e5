/** The Twitch side (twitch/twitch_event_source.go): stream.online / stream.offline subscriptions held by the
    EventSub provider, created in pairs with a rollback, and cleared and recreated at startup. The provider is
    abstract state: the subscriptions it holds and a log of the calls made to it. Whether it accepts a call is
    decided outside this program, so every call takes its outcome as a parameter. */
module Twitch {
  import opened Wrappers

  /** The two event kinds the bot subscribes to. */
  datatype Direction = StreamOnline | StreamOffline

  /** A subscription held by the provider: its event kind, the broadcaster it watches and its id. */
  datatype Subscription = Subscription(direction: Direction, broadcaster: string, id: string)

  /** The provider's answer to a create request: the new subscription's id and whether the response lists it
      among its data, or an error (and nothing created). */
  datatype CreateOutcome = Created(id: string, listed: bool) | CreateFailed(error: string)

  /** The answers to the online and the offline create for one broadcaster. */
  datatype PairOutcome = PairOutcome(online: CreateOutcome, offline: CreateOutcome)

  /** A call made to the provider. */
  datatype ProviderCall =
    | Clear
    | Create(direction: Direction, broadcaster: string)
    | Delete(id: string)
    | Lookup(nameOrUrl: string)

  // ---------- the provider's state, as functions ----------

  /** The subscriptions without those of the given id. */
  function WithoutId(subs: seq<Subscription>, id: string): (r: seq<Subscription>)
    ensures |r| <= |subs|
    ensures forall s :: s in r <==> s in subs && s.id != id
  {
    if subs == [] then []
    else (if subs[0].id == id then [] else [subs[0]]) + WithoutId(subs[1..], id)
  }

  /** The ids of the subscriptions held. */
  function SubIds(subs: seq<Subscription>): set<string>
  {
    set s | s in subs :: s.id
  }

  /** The subscription a successful create adds. */
  function NewSub(direction: Direction, broadcaster: string, outcome: CreateOutcome): Subscription
    requires outcome.Created?
  {
    Subscription(direction, broadcaster, outcome.id)
  }

  /** The subscriptions after a create request. */
  function AfterCreate(subs: seq<Subscription>, direction: Direction, broadcaster: string, outcome: CreateOutcome)
    : (r: seq<Subscription>)
    ensures outcome.CreateFailed? ==> r == subs
    ensures outcome.Created? ==> multiset(r) == multiset(subs) + multiset{NewSub(direction, broadcaster, outcome)}
  {
    if outcome.Created? then subs + [NewSub(direction, broadcaster, outcome)] else subs
  }

  /** The subscriptions after a delete request; nothing changes when the provider refuses it. */
  function AfterDelete(subs: seq<Subscription>, id: string, outcome: Option<string>): seq<Subscription>
  {
    if outcome.None? then WithoutId(subs, id) else subs
  }

  /** The subscriptions after a clear request; nothing changes when the provider refuses it. */
  function AfterClear(subs: seq<Subscription>, outcome: Option<string>): (r: seq<Subscription>)
    ensures outcome.None? ==> r == []
    ensures outcome.Some? ==> r == subs
  {
    if outcome.None? then [] else subs
  }

  class EventsubClient {
    /** The subscriptions the provider holds, in creation order. */
    var subs: seq<Subscription>
    /** Every call made to the provider, oldest first. */
    var calls: seq<ProviderCall>

    constructor (existing: seq<Subscription>)
      ensures subs == existing && calls == []
    {
      subs := existing;
      calls := [];
    }

    /** Asks for a subscription; returns the subscriptions the response lists, and the error if any. */
    method CreateSubscription(direction: Direction, broadcaster: string, outcome: CreateOutcome)
      returns (data: seq<Subscription>, err: Option<string>)
      modifies this
      ensures calls == old(calls) + [Create(direction, broadcaster)]
      ensures subs == AfterCreate(old(subs), direction, broadcaster, outcome)
      ensures outcome.CreateFailed? ==> data == [] && err == Some(outcome.error)
      ensures outcome.Created? ==>
        err == None && data == (if outcome.listed then [NewSub(direction, broadcaster, outcome)] else [])
    {
      calls := calls + [Create(direction, broadcaster)];
      subs := AfterCreate(subs, direction, broadcaster, outcome);
      if outcome.Created? {
        data := if outcome.listed then [NewSub(direction, broadcaster, outcome)] else [];
        err := None;
      } else {
        data := [];
        err := Some(outcome.error);
      }
    }

    /** Deletes the subscription with the given id; `outcome` is the provider's error, if any. */
    method DeleteSubscription(id: string, outcome: Option<string>) returns (err: Option<string>)
      modifies this
      ensures calls == old(calls) + [Delete(id)]
      ensures subs == AfterDelete(old(subs), id, outcome)
      ensures err == outcome
    {
      calls := calls + [Delete(id)];
      subs := AfterDelete(subs, id, outcome);
      err := outcome;
    }

    /** Deletes every subscription; `outcome` is the provider's error, if any. */
    method ClearSubscriptions(outcome: Option<string>) returns (err: Option<string>)
      modifies this
      ensures calls == old(calls) + [Clear]
      ensures subs == AfterClear(old(subs), outcome)
      ensures err == outcome
    {
      calls := calls + [Clear];
      subs := AfterClear(subs, outcome);
      err := outcome;
    }

    /** Resolves a Twitch name or channel URL to a broadcaster id; `outcome` is the provider's answer. */
    method GetBroadcaster(nameOrUrl: string, outcome: Result<string, string>) returns (r: Result<string, string>)
      modifies this
      ensures calls == old(calls) + [Lookup(nameOrUrl)]
      ensures subs == old(subs)
      ensures r == outcome
    {
      calls := calls + [Lookup(nameOrUrl)];
      r := outcome;
    }
  }

  // ---------- SubscribeToUID, as functions ----------

  /** The error SubscribeToUID returns: the first failed create's. */
  function SubscribeError(online: CreateOutcome, offline: CreateOutcome): Option<string>
  {
    if online.CreateFailed? then Some(online.error)
    else if offline.CreateFailed? then Some(offline.error)
    else None
  }

  /** Whether SubscribeToUID asks to delete the online subscription: its offline create failed and the online
      create's response listed the subscription. */
  predicate RollsBack(online: CreateOutcome, offline: CreateOutcome)
  {
    online.Created? && offline.CreateFailed? && online.listed
  }

  /** The calls SubscribeToUID makes. */
  function SubscribeCalls(uid: string, online: CreateOutcome, offline: CreateOutcome): seq<ProviderCall>
  {
    if online.CreateFailed? then [Create(StreamOnline, uid)]
    else [Create(StreamOnline, uid), Create(StreamOffline, uid)]
         + (if RollsBack(online, offline) then [Delete(online.id)] else [])
  }

  /** The subscriptions after SubscribeToUID. */
  function AfterSubscribe(subs: seq<Subscription>, uid: string, online: CreateOutcome, offline: CreateOutcome,
                          rollback: Option<string>): seq<Subscription>
  {
    var afterOnline := AfterCreate(subs, StreamOnline, uid, online);
    if online.CreateFailed? then afterOnline
    else
      var afterOffline := AfterCreate(afterOnline, StreamOffline, uid, offline);
      if RollsBack(online, offline) then AfterDelete(afterOffline, online.id, rollback) else afterOffline
  }

  class EventSource {
    /** The provider client this source talks to. */
    const client: EventsubClient

    constructor (client: EventsubClient)
      ensures this.client == client
    {
      this.client := client;
    }

    /** Creates the stream.online and then the stream.offline subscription for a broadcaster; when the second
        fails, deletes the first (if the provider listed it) and returns the error. */
    method SubscribeToUID(uid: string, online: CreateOutcome, offline: CreateOutcome, rollback: Option<string>)
      returns (err: Option<string>)
      modifies client
      ensures err == SubscribeError(online, offline)
      ensures client.calls == old(client.calls) + SubscribeCalls(uid, online, offline)
      ensures client.subs == AfterSubscribe(old(client.subs), uid, online, offline, rollback)
    {
      var s, e := client.CreateSubscription(StreamOnline, uid, online);
      if e.Some? {
        return e;
      }
      var _, e2 := client.CreateSubscription(StreamOffline, uid, offline);
      if e2.Some? {
        if |s| > 0 {
          var _ := client.DeleteSubscription(s[0].id, rollback);
        }
        return e2;
      }
      return None;
    }

    /** Looks up a broadcaster by name through the provider client. */
    method GetBroadcasterDeets(name: string, outcome: Result<string, string>) returns (r: Result<string, string>)
      modifies client
      ensures client.calls == old(client.calls) + [Lookup(name)]
      ensures client.subs == old(client.subs)
      ensures r == outcome
    {
      r := client.GetBroadcaster(name, outcome);
    }

    /** Resolves a name or URL and subscribes to its broadcaster; returns the broadcaster id, or "" and the
        error of whichever step failed. */
    method SubscribeToURL(nameOrUrl: string, lookup: Result<string, string>, online: CreateOutcome,
                          offline: CreateOutcome, rollback: Option<string>)
      returns (broadcasterId: string, err: Option<string>)
      modifies client
      ensures lookup.Failure? ==>
        && broadcasterId == "" && err == Some(lookup.error)
        && client.calls == old(client.calls) + [Lookup(nameOrUrl)] && client.subs == old(client.subs)
      ensures lookup.Success? ==>
        && client.calls == old(client.calls) + [Lookup(nameOrUrl)] + SubscribeCalls(lookup.value, online, offline)
        && client.subs == AfterSubscribe(old(client.subs), lookup.value, online, offline, rollback)
        && err == SubscribeError(online, offline)
        && broadcasterId == (if err.None? then lookup.value else "")
    {
      var userData := client.GetBroadcaster(nameOrUrl, lookup);
      if userData.Failure? {
        return "", Some(userData.error);
      }
      var id := userData.value;
      err := SubscribeToUID(id, online, offline, rollback);
      if err.Some? {
        return "", err;
      }
      return id, None;
    }
  }

  // ---------- startup ----------

  /** The create calls the startup loop makes: online then offline, per broadcaster in order. */
  function StartupCreates(uids: seq<string>): (r: seq<ProviderCall>)
    ensures |r| == 2 * |uids|
  {
    if uids == [] then []
    else [Create(StreamOnline, uids[0]), Create(StreamOffline, uids[0])] + StartupCreates(uids[1..])
  }

  /** The subscriptions after the startup loop's creates, whose errors are ignored. */
  function AfterStartupCreates(subs: seq<Subscription>, uids: seq<string>, outcomes: seq<PairOutcome>)
    : seq<Subscription>
    requires |outcomes| == |uids|
    decreases |uids|
  {
    if uids == [] then subs
    else AfterStartupCreates(AfterPair(subs, uids[0], outcomes[0]), uids[1..], outcomes[1..])
  }

  /** The subscriptions after the online and the offline create for one broadcaster. */
  function AfterPair(subs: seq<Subscription>, uid: string, outcome: PairOutcome): seq<Subscription>
  {
    AfterCreate(AfterCreate(subs, StreamOnline, uid, outcome.online), StreamOffline, uid, outcome.offline)
  }

  /** One step of the startup loop, on the calls made. */
  lemma StartupCallsStep(before: seq<ProviderCall>, calls: seq<ProviderCall>, uids: seq<string>, i: nat)
    requires i < |uids| && calls == before + StartupCreates(uids[..i])
    ensures calls + [Create(StreamOnline, uids[i])] + [Create(StreamOffline, uids[i])]
            == before + StartupCreates(uids[..i + 1])
  {
    StartupCreatesSnoc(uids[..i], uids[i]);
    assert uids[..i + 1] == uids[..i] + [uids[i]];
  }

  /** The end of the startup loop. */
  lemma StartupDone(subs: seq<Subscription>, uids: seq<string>, outcomes: seq<PairOutcome>)
    requires |outcomes| == |uids|
    ensures AfterStartupCreates(subs, uids[|uids|..], outcomes[|uids|..]) == subs
    ensures uids[..|uids|] == uids
  {
    assert uids[|uids|..] == [];
  }

  /** One step of the startup loop, on the subscriptions held. */
  lemma StartupStep(subs: seq<Subscription>, uids: seq<string>, outcomes: seq<PairOutcome>, i: nat)
    requires |outcomes| == |uids| && i < |uids|
    ensures AfterStartupCreates(subs, uids[i..], outcomes[i..])
            == AfterStartupCreates(AfterPair(subs, uids[i], outcomes[i]), uids[i + 1..], outcomes[i + 1..])
  {
    assert uids[i..][1..] == uids[i + 1..];
    assert outcomes[i..][1..] == outcomes[i + 1..];
  }

  /** Startup: fails with the options error before touching the provider; otherwise clears every subscription,
      then asks for an online and an offline subscription for each initial broadcaster, ignoring the errors.
      `optsError` is the missing-variable error of the environment lookup; `client` is the client built from
      the options; `outcomes` are the provider's answers to the creates, one pair per broadcaster. */
  method StartTwitchListener(client: EventsubClient, optsError: Option<string>, initUids: seq<string>,
                             clearOutcome: Option<string>, outcomes: seq<PairOutcome>)
    returns (source: EventSource?, err: Option<string>)
    requires |outcomes| == |initUids|
    modifies client
    ensures optsError.Some? ==>
      && source == null && err == optsError
      && client.calls == old(client.calls) && client.subs == old(client.subs)
    ensures optsError.None? ==>
      && source != null && fresh(source) && source.client == client && err == None
      && client.calls == old(client.calls) + [Clear] + StartupCreates(initUids)
      && client.subs == AfterStartupCreates(AfterClear(old(client.subs), clearOutcome), initUids, outcomes)
  {
    if optsError.Some? {
      return null, optsError;
    }
    source := new EventSource(client);
    var _ := client.ClearSubscriptions(clearOutcome);
    ghost var cleared := client.subs;
    ghost var callsBefore := client.calls;
    for i := 0 to |initUids|
      invariant client.calls == callsBefore + StartupCreates(initUids[..i])
      invariant AfterStartupCreates(cleared, initUids, outcomes)
                == AfterStartupCreates(client.subs, initUids[i..], outcomes[i..])
    {
      var uid := initUids[i];
      StartupStep(client.subs, initUids, outcomes, i);
      StartupCallsStep(callsBefore, client.calls, initUids, i);
      var _, _ := client.CreateSubscription(StreamOnline, uid, outcomes[i].online);
      var _, _ := client.CreateSubscription(StreamOffline, uid, outcomes[i].offline);
    }
    StartupDone(client.subs, initUids, outcomes);
    err := None;
  }

  // ---------- properties ----------

  /** The startup creates of a longer list end with the new broadcaster's pair. */
  lemma {:induction false} StartupCreatesSnoc(uids: seq<string>, uid: string)
    ensures StartupCreates(uids + [uid]) == StartupCreates(uids) + [Create(StreamOnline, uid), Create(StreamOffline, uid)]
    decreases |uids|
  {
    if uids != [] {
      assert (uids + [uid])[1..] == uids[1..] + [uid];
      StartupCreatesSnoc(uids[1..], uid);
    }
  }

  /** At startup the i-th broadcaster gets an online create at 2i and an offline create at 2i + 1, and the
      loop makes no other call. */
  lemma {:induction false} StartupCreatesPerUid(uids: seq<string>)
    ensures forall i :: 0 <= i < |uids| ==>
      StartupCreates(uids)[2 * i] == Create(StreamOnline, uids[i])
      && StartupCreates(uids)[2 * i + 1] == Create(StreamOffline, uids[i])
    decreases |uids|
  {
    if uids != [] {
      StartupCreatesPerUid(uids[1..]);
      var rest := StartupCreates(uids[1..]);
      assert StartupCreates(uids) == [Create(StreamOnline, uids[0]), Create(StreamOffline, uids[0])] + rest;
      forall i | 0 < i < |uids|
        ensures StartupCreates(uids)[2 * i] == Create(StreamOnline, uids[i])
             && StartupCreates(uids)[2 * i + 1] == Create(StreamOffline, uids[i])
      {
        assert StartupCreates(uids)[2 * i] == rest[2 * (i - 1)];
        assert StartupCreates(uids)[2 * i + 1] == rest[2 * (i - 1) + 1];
      }
    }
  }

  /** Startup clears before it creates: the only Clear is the first call. */
  lemma {:induction false} StartupCreatesOnlyCreate(uids: seq<string>)
    ensures forall c :: c in StartupCreates(uids) ==> c.Create?
    decreases |uids|
  {
    if uids != [] {
      StartupCreatesOnlyCreate(uids[1..]);
    }
  }

  /** The startup creates only watch broadcasters of the list: when every subscription held before is for a
      broadcaster in `watched`, and so is every initial one, so is every subscription held after. */
  lemma {:induction false} StartupCreatesWatch(subs: seq<Subscription>, uids: seq<string>,
                                               outcomes: seq<PairOutcome>, watched: set<string>)
    requires |outcomes| == |uids|
    requires forall s :: s in subs ==> s.broadcaster in watched
    requires forall i :: 0 <= i < |uids| ==> uids[i] in watched
    ensures forall s :: s in AfterStartupCreates(subs, uids, outcomes) ==> s.broadcaster in watched
    decreases |uids|
  {
    if uids != [] {
      var afterPair := AfterPair(subs, uids[0], outcomes[0]);
      forall s | s in afterPair ensures s.broadcaster in watched {
        assert s in multiset(afterPair);
      }
      forall i | 0 <= i < |uids[1..]| ensures uids[1..][i] in watched {
        assert uids[1..][i] == uids[i + 1];
      }
      StartupCreatesWatch(afterPair, uids[1..], outcomes[1..], watched);
    }
  }

  /** When the clear succeeds, every subscription held after startup is for an initial broadcaster. */
  lemma StartupWatchesOnlyInitialUids(subs: seq<Subscription>, uids: seq<string>, outcomes: seq<PairOutcome>)
    requires |outcomes| == |uids|
    ensures forall s :: s in AfterStartupCreates(AfterClear(subs, None), uids, outcomes) ==> s.broadcaster in uids
  {
    StartupCreatesWatch([], uids, outcomes, set u | u in uids);
  }

  /** Removing an id that no subscription has changes nothing. */
  lemma {:induction false} WithoutAbsentId(subs: seq<Subscription>, id: string)
    requires id !in SubIds(subs)
    ensures WithoutId(subs, id) == subs
    decreases |subs|
  {
    if subs != [] {
      assert subs[0] in subs;
      assert SubIds(subs[1..]) <= SubIds(subs);
      WithoutAbsentId(subs[1..], id);
      assert subs == [subs[0]] + subs[1..];
    }
  }

  /** Removing an id from a list extended by that id's subscription drops the new one too. */
  lemma {:induction false} WithoutIdSnoc(subs: seq<Subscription>, s: Subscription)
    ensures WithoutId(subs + [s], s.id) == WithoutId(subs, s.id)
    decreases |subs|
  {
    if subs == [] {
      assert WithoutId([s], s.id) == [] + WithoutId([], s.id);
    } else {
      assert (subs + [s])[1..] == subs[1..] + [s];
      WithoutIdSnoc(subs[1..], s);
    }
  }

  /** If the online create fails, nothing is created and the error is returned. */
  lemma OnlineFailureChangesNothing(subs: seq<Subscription>, uid: string, online: CreateOutcome,
                                    offline: CreateOutcome, rollback: Option<string>)
    requires online.CreateFailed?
    ensures AfterSubscribe(subs, uid, online, offline, rollback) == subs
    ensures SubscribeError(online, offline) == Some(online.error)
    ensures SubscribeCalls(uid, online, offline) == [Create(StreamOnline, uid)]
  {
  }

  /** If the offline create fails after the online one was listed, and the provider accepts the delete of a
      fresh id, the provider ends up holding exactly what it held before. */
  lemma RollbackRestores(subs: seq<Subscription>, uid: string, online: CreateOutcome, offline: CreateOutcome)
    requires RollsBack(online, offline)
    requires online.id !in SubIds(subs)
    ensures AfterSubscribe(subs, uid, online, offline, None) == subs
    ensures SubscribeError(online, offline) == Some(offline.error)
  {
    WithoutIdSnoc(subs, NewSub(StreamOnline, uid, online));
    WithoutAbsentId(subs, online.id);
  }

  /** If the offline create fails but the online subscription was not listed in the response, no delete is
      attempted and the online subscription stays. */
  lemma UnlistedOnlineIsKept(subs: seq<Subscription>, uid: string, online: CreateOutcome, offline: CreateOutcome,
                             rollback: Option<string>)
    requires online.Created? && !online.listed && offline.CreateFailed?
    ensures AfterSubscribe(subs, uid, online, offline, rollback) == subs + [NewSub(StreamOnline, uid, online)]
    ensures SubscribeCalls(uid, online, offline) == [Create(StreamOnline, uid), Create(StreamOffline, uid)]
  {
  }

  /** The online and offline subscriptions held for a broadcaster. */
  function Watching(subs: seq<Subscription>, direction: Direction, uid: string): (n: nat)
    ensures n <= |subs|
  {
    if subs == [] then 0
    else (if subs[0].direction == direction && subs[0].broadcaster == uid then 1 else 0)
         + Watching(subs[1..], direction, uid)
  }

  /** The count of a list extended by one. */
  lemma {:induction false} WatchingSnoc(subs: seq<Subscription>, s: Subscription, direction: Direction, uid: string)
    ensures Watching(subs + [s], direction, uid)
            == Watching(subs, direction, uid) + (if s.direction == direction && s.broadcaster == uid then 1 else 0)
    decreases |subs|
  {
    if subs != [] {
      assert (subs + [s])[1..] == subs[1..] + [s];
      WatchingSnoc(subs[1..], s, direction, uid);
    }
  }

  /** A successful SubscribeToUID adds exactly one online and one offline subscription for the broadcaster,
      whatever is held already: existing subscriptions are not consulted, so repeating the call duplicates. */
  lemma SubscribeAddsOnePair(subs: seq<Subscription>, uid: string, online: CreateOutcome, offline: CreateOutcome,
                             rollback: Option<string>)
    requires online.Created? && offline.Created?
    ensures SubscribeError(online, offline) == None
    ensures multiset(AfterSubscribe(subs, uid, online, offline, rollback))
            == multiset(subs) + multiset{NewSub(StreamOnline, uid, online), NewSub(StreamOffline, uid, offline)}
    ensures Watching(AfterSubscribe(subs, uid, online, offline, rollback), StreamOnline, uid)
            == Watching(subs, StreamOnline, uid) + 1
    ensures Watching(AfterSubscribe(subs, uid, online, offline, rollback), StreamOffline, uid)
            == Watching(subs, StreamOffline, uid) + 1
  {
    var on, off := NewSub(StreamOnline, uid, online), NewSub(StreamOffline, uid, offline);
    assert AfterSubscribe(subs, uid, online, offline, rollback) == (subs + [on]) + [off];
    WatchingSnoc(subs, on, StreamOnline, uid);
    WatchingSnoc(subs + [on], off, StreamOnline, uid);
    WatchingSnoc(subs, on, StreamOffline, uid);
    WatchingSnoc(subs + [on], off, StreamOffline, uid);
  }
}
