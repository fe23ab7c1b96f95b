/**
 * The push-subscription registry (`push_subscriptions`): the subscribe and
 * unsubscribe handlers that mutate it, and `send_push_notification`, which
 * delivers one notification to every entry and prunes the entries whose
 * delivery reports the endpoint gone.
 */
module Subscriptions {
  import opened Wrappers
  import opened Seqs
  import opened Frames

  /** A browser push subscription as the client posts it: its endpoint (possibly missing) and its delivery keys. */
  datatype Subscription = Subscription(endpoint: Option<string>, keys: map<string, string>)

  /** `if endpoint`: the endpoint is present and not the empty string. */
  predicate Admissible(sub: Subscription)
  {
    sub.endpoint.Some? && sub.endpoint.value != ""
  }

  predicate DistinctEndpoints(a: Subscription, b: Subscription)
  {
    a.endpoint != b.endpoint
  }

  /** The registry invariant: every entry has an endpoint, and no two entries share one. */
  ghost predicate WellFormed(s: seq<Subscription>)
  {
    (forall x :: x in s ==> Admissible(x)) && Pairwise(s, DistinctEndpoints)
  }

  ghost predicate HasEndpoint(s: seq<Subscription>, e: string)
  {
    exists i :: 0 <= i < |s| && s[i].endpoint == Some(e)
  }

  /** `any(sub.get("endpoint") == endpoint for sub in s)`. */
  method ContainsEndpoint(s: seq<Subscription>, e: string) returns (found: bool)
    ensures found <==> HasEndpoint(s, e)
  {
    found := false;
    var i := 0;
    while i < |s| && !found
      invariant 0 <= i <= |s|
      invariant found <==> exists j :: 0 <= j < i && s[j].endpoint == Some(e)
    {
      found := s[i].endpoint == Some(e);
      i := i + 1;
    }
  }

  /** The registry after a subscribe request carrying `sub`. */
  ghost function Subscribed(s: seq<Subscription>, sub: Subscription): (r: seq<Subscription>)
    ensures |s| <= |r| <= |s| + 1 && r[..|s|] == s
    ensures Admissible(sub) ==> HasEndpoint(r, sub.endpoint.value)
  {
    if Admissible(sub) && !HasEndpoint(s, sub.endpoint.value) then
      assert (s + [sub])[|s|] == sub;
      s + [sub]
    else s
  }

  /** The registry after an unsubscribe request carrying endpoint `e` (possibly missing). */
  function Unsubscribed(s: seq<Subscription>, e: Option<string>): (r: seq<Subscription>)
    ensures forall x :: x in r <==> x in s && x.endpoint != e
  {
    Filter(s, WithEndpoint(s, e))
  }

  /** The entries of `s` whose endpoint is `e`. */
  function WithEndpoint(s: seq<Subscription>, e: Option<string>): set<Subscription>
  {
    set sub | sub in s && sub.endpoint == e
  }

  /** What one `webpush` call does for one subscription. */
  datatype Delivery =
    | Delivered
      /** `WebPushException`, carrying the HTTP status of the provider's response when there was one. */
    | PushError(status: Option<int>)
      /** Any other exception: it is not caught inside the loop. */
    | OtherError

  /** The provider reports the endpoint permanently gone: status 410. */
  predicate IsGone(d: Delivery)
  {
    d.PushError? && d.status == Some(410)
  }

  /** `bool(response)` in the requests library is `response.ok`: false exactly for a status from 400 to 599. */
  predicate ResponseTruthy(status: int)
  {
    !(400 <= status < 600)
  }

  /**
   * The prune test as the loop writes it, `e.response and
   * e.response.status_code == 410`: the truthiness of the response is
   * tested first, and an error response is never truthy.
   */
  predicate PrunesAsWritten(d: Delivery)
    ensures PrunesAsWritten(d) ==> IsGone(d)
  {
    d.PushError? && d.status.Some? && ResponseTruthy(d.status.value) && d.status.value == 410
  }

  /** Which prune test a push run applies: the one written at main.py:138, or the intended status-410 test. */
  datatype PruneTest = AsWritten | Intended

  /** Whether the delivery outcome `d` makes the run remove the subscription. */
  predicate Prunes(test: PruneTest, d: Delivery)
  {
    match test
    case AsWritten => PrunesAsWritten(d)
    case Intended => IsGone(d)
  }

  /** Index of the first subscription whose delivery raises an uncaught exception, or the length. */
  function FirstRaise(s: seq<Subscription>, deliver: Subscription -> Delivery): (k: nat)
    ensures k <= |s|
    ensures forall j :: 0 <= j < k ==> !deliver(s[j]).OtherError?
    ensures k < |s| ==> deliver(s[k]).OtherError?
  {
    if s == [] then 0
    else if deliver(s[0]).OtherError? then 0
    else 1 + FirstRaise(s[1..], deliver)
  }

  /** The subscriptions a push run reaches, in order: all of them, or up to the one that raises. */
  function Attempted(s: seq<Subscription>, deliver: Subscription -> Delivery): seq<Subscription>
  {
    var k := FirstRaise(s, deliver);
    s[..if k < |s| then k + 1 else k]
  }

  /** The subscriptions of `s` whose delivery outcome the prune test selects. */
  function Gone(s: seq<Subscription>, deliver: Subscription -> Delivery, test: PruneTest): set<Subscription>
  {
    set sub | sub in s && Prunes(test, deliver(sub))
  }

  /** The subscriptions of `s` the prune test does not select, in order. */
  function Pruned(s: seq<Subscription>, deliver: Subscription -> Delivery, test: PruneTest): seq<Subscription>
  {
    Filter(s, Gone(s, deliver, test))
  }

  /** The registry after a push run that started from `s`: the selected ones among those reached before any raise are removed. */
  function AfterPush(s: seq<Subscription>, deliver: Subscription -> Delivery, test: PruneTest): (r: seq<Subscription>)
    ensures |s| - FirstRaise(s, deliver) <= |r| <= |s|
    ensures r[|r| - (|s| - FirstRaise(s, deliver))..] == s[FirstRaise(s, deliver)..]
  {
    var k := FirstRaise(s, deliver);
    Filter(s[..k], Gone(s, deliver, test)) + s[k..]
  }

  class SubscriptionRegistry {
    var entries: seq<Subscription>

    ghost predicate Valid()
      reads this
    {
      WellFormed(entries)
    }

    /** The registry starts empty. */
    constructor ()
      ensures Valid() && entries == []
    {
      entries := [];
    }

    /** POST /subscribe: append unless the endpoint is missing, empty or already registered. */
    method Subscribe(sub: Subscription)
      requires Valid()
      modifies this
      ensures Valid()
      ensures entries == Subscribed(old(entries), sub)
    {
      if Admissible(sub) {
        var present := ContainsEndpoint(entries, sub.endpoint.value);
        if !present {
          entries := entries + [sub];
        }
      }
      SubscribedWellFormed(old(entries), sub);
    }

    /** DELETE /subscribe: keep only the entries whose endpoint differs from `e`. */
    method Unsubscribe(e: Option<string>)
      requires Valid()
      modifies this
      ensures Valid()
      ensures entries == Unsubscribed(old(entries), e)
    {
      UnsubscribedWellFormed(entries, e);
      entries := Unsubscribed(entries, e);
    }

    /**
     * `send_push_notification`: build the body once, try every subscription
     * of a snapshot in order, remove from the live registry each one whose
     * delivery outcome `test` selects, and stop at the first exception that
     * is not a `WebPushException` (it propagates to the caller). The relay
     * runs it with the test as written, which selects nothing.
     */
    method SendPushNotification(m: Message, deliver: Subscription -> Delivery, test: PruneTest)
      returns (body: string, attempted: seq<Subscription>, raised: bool)
      requires Valid()
      modifies this
      ensures Valid()
      ensures body == NotificationBody(m)
      ensures attempted == Attempted(old(entries), deliver)
      ensures raised <==> FirstRaise(old(entries), deliver) < |old(entries)|
      ensures entries == AfterPush(old(entries), deliver, test)
    {
      body := NotificationBody(m);
      var snapshot := entries;
      var live := entries;
      attempted := [];
      raised := false;
      var i := 0;
      while i < |snapshot|
        invariant 0 <= i <= |snapshot|
        invariant i <= FirstRaise(snapshot, deliver)
        invariant attempted == snapshot[..i]
        invariant live == Filter(snapshot[..i], Gone(snapshot, deliver, test)) + snapshot[i..]
      {
        var sub := snapshot[i];
        var outcome := deliver(sub);
        attempted := attempted + [sub];
        PushStep(snapshot, i, deliver, test);
        PrefixExtend(snapshot, i);
        if outcome.OtherError? {
          raised := true;
          RaiseAt(snapshot, i, deliver, test);
          assert attempted == Attempted(snapshot, deliver);
          assert live == AfterPush(snapshot, deliver, test);
          AfterPushWellFormed(snapshot, deliver, test);
          entries := live;
          return;
        }
        NoRaiseAt(snapshot, i, deliver);
        if Prunes(test, outcome) {
          live := RemoveFirst(live, sub);
        }
        assert live == Filter(snapshot[..i + 1], Gone(snapshot, deliver, test)) + snapshot[i + 1..];
        i := i + 1;
      }
      NoRaise(snapshot, deliver, test);
      assert attempted == Attempted(snapshot, deliver);
      assert live == AfterPush(snapshot, deliver, test);
      AfterPushWellFormed(snapshot, deliver, test);
      entries := live;
    }
  }

  /** A run that raises at index `i` attempted `s[..i + 1]` and pruned only among `s[..i]`. */
  lemma RaiseAt(s: seq<Subscription>, i: nat, deliver: Subscription -> Delivery, test: PruneTest)
    requires i < |s| && deliver(s[i]).OtherError?
    requires i <= FirstRaise(s, deliver)
    ensures FirstRaise(s, deliver) == i
    ensures Attempted(s, deliver) == s[..i + 1]
    ensures AfterPush(s, deliver, test) == Filter(s[..i], Gone(s, deliver, test)) + s[i..]
  {
  }

  /** A delivery at index `i` that does not raise lets the run go past `i`. */
  lemma NoRaiseAt(s: seq<Subscription>, i: nat, deliver: Subscription -> Delivery)
    requires i < |s| && i <= FirstRaise(s, deliver)
    ensures !deliver(s[i]).OtherError? ==> i + 1 <= FirstRaise(s, deliver)
  {
  }

  /** A run that gets past every subscription attempted all of `s`. */
  lemma NoRaise(s: seq<Subscription>, deliver: Subscription -> Delivery, test: PruneTest)
    requires |s| <= FirstRaise(s, deliver)
    ensures FirstRaise(s, deliver) == |s|
    ensures Attempted(s, deliver) == s[..|s|]
    ensures AfterPush(s, deliver, test) == Filter(s[..|s|], Gone(s, deliver, test)) + s[|s|..]
  {
  }

  /**
   * One step of the push loop: the `i`-th subscription of the snapshot is
   * still in the live registry (so `list.remove` does not raise), and
   * removing it when it is gone extends the pruned prefix by one.
   */
  lemma PushStep(snapshot: seq<Subscription>, i: nat, deliver: Subscription -> Delivery, test: PruneTest)
    requires Pairwise(snapshot, DistinctEndpoints) && i < |snapshot|
    ensures var gone := Gone(snapshot, deliver, test);
      var live := Filter(snapshot[..i], gone) + snapshot[i..];
      var sub := snapshot[i];
      sub in live &&
      (if Prunes(test, deliver(sub)) then RemoveFirst(live, sub) else live) == Filter(snapshot[..i + 1], gone) + snapshot[i + 1..]
  {
    var gone := Gone(snapshot, deliver, test);
    assert snapshot[i] in gone <==> Prunes(test, deliver(snapshot[i]));
    PairwiseNotBefore(snapshot, i, DistinctEndpoints);
    FilterStep(snapshot, i, gone);
  }

  /** Subscribing keeps the registry well formed. */
  lemma SubscribedWellFormed(s: seq<Subscription>, sub: Subscription)
    requires WellFormed(s)
    ensures WellFormed(Subscribed(s, sub))
  {
    if Admissible(sub) && !HasEndpoint(s, sub.endpoint.value) {
      forall x, y | x in s && y in [sub] ensures DistinctEndpoints(x, y) {
        var i :| 0 <= i < |s| && s[i] == x;
      }
      PairwiseAppend(s, [sub], DistinctEndpoints);
    }
  }

  /**
   * A subscribe request with an endpoint that is already registered changes
   * nothing; one with a new, non-empty endpoint appends exactly that
   * subscription; one without an endpoint adds nothing.
   */
  lemma SubscribeOutcomes(s: seq<Subscription>, sub: Subscription)
    ensures sub.endpoint.Some? && HasEndpoint(s, sub.endpoint.value) ==> Subscribed(s, sub) == s
    ensures !Admissible(sub) ==> Subscribed(s, sub) == s
    ensures Admissible(sub) && !HasEndpoint(s, sub.endpoint.value) ==> Subscribed(s, sub) == s + [sub]
  {
  }

  /** Two subscribe requests with the same endpoint leave exactly one entry for it. */
  lemma {:induction false} SubscribeTwice(s: seq<Subscription>, a: Subscription, b: Subscription)
    requires WellFormed(s) && Admissible(a) && b.endpoint == a.endpoint
    ensures var r := Subscribed(Subscribed(s, a), b);
      r == Subscribed(s, a) && WellFormed(r) &&
      exists i :: 0 <= i < |r| && r[i].endpoint == a.endpoint &&
        forall j :: 0 <= j < |r| && r[j].endpoint == a.endpoint ==> j == i
  {
    var r1 := Subscribed(s, a);
    SubscribedWellFormed(s, a);
    var i :| 0 <= i < |r1| && r1[i].endpoint == a.endpoint;
    forall j | 0 <= j < |r1| && j != i ensures r1[j].endpoint != a.endpoint {
      if j < i {
        assert DistinctEndpoints(r1[j], r1[i]);
      } else {
        assert DistinctEndpoints(r1[i], r1[j]);
      }
    }
  }

  /** Unsubscribing keeps the registry well formed. */
  lemma UnsubscribedWellFormed(s: seq<Subscription>, e: Option<string>)
    requires WellFormed(s)
    ensures WellFormed(Unsubscribed(s, e))
  {
    FilterPairwise(s, WithEndpoint(s, e), DistinctEndpoints);
  }

  /**
   * After unsubscribing `e` no entry has endpoint `e`, and the other entries
   * keep their relative order: unsubscribing distributes over concatenation.
   */
  lemma UnsubscribedKeepsOrder(a: seq<Subscription>, b: seq<Subscription>, e: Option<string>)
    ensures Unsubscribed(a + b, e) == Unsubscribed(a, e) + Unsubscribed(b, e)
    ensures e.Some? ==> !HasEndpoint(Unsubscribed(a + b, e), e.value)
  {
    var d := WithEndpoint(a + b, e);
    FilterAppend(a, b, d);
    FilterAgree(a, d, WithEndpoint(a, e));
    FilterAgree(b, d, WithEndpoint(b, e));
    var r := Unsubscribed(a + b, e);
    forall i | 0 <= i < |r| ensures r[i].endpoint != e {
      assert r[i] in r;
    }
  }

  /** A request without an endpoint unsubscribes nothing from a well-formed registry. */
  lemma UnsubscribeMissingEndpoint(s: seq<Subscription>)
    requires WellFormed(s)
    ensures Unsubscribed(s, None) == s
  {
    FilterKeepsAll(s, WithEndpoint(s, None));
  }

  /** A push run keeps the registry well formed. */
  lemma AfterPushWellFormed(s: seq<Subscription>, deliver: Subscription -> Delivery, test: PruneTest)
    requires WellFormed(s)
    ensures WellFormed(AfterPush(s, deliver, test))
  {
    var k := FirstRaise(s, deliver);
    assert s == s[..k] + s[k..];
    FilterFrontPairwise(s[..k], s[k..], Gone(s, deliver, test), DistinctEndpoints);
  }

  /**
   * When no delivery raises, a push run tries every subscription once, in
   * order, and afterwards the registry holds exactly the subscriptions that
   * the prune test did not select, in their original order.
   */
  lemma PushWithoutExceptions(s: seq<Subscription>, deliver: Subscription -> Delivery, test: PruneTest)
    requires forall x :: x in s ==> !deliver(x).OtherError?
    ensures Attempted(s, deliver) == s
    ensures AfterPush(s, deliver, test) == Pruned(s, deliver, test)
    ensures forall x :: x in AfterPush(s, deliver, test) <==> x in s && !Prunes(test, deliver(x))
  {
    var k := FirstRaise(s, deliver);
    assert forall j :: 0 <= j < |s| ==> s[j] in s;
    assert s[..k] == s;
  }

  /** Under the intended test, a subscription reported gone is removed and never tried again by a later push run. */
  lemma GoneNeverRetried(s: seq<Subscription>, d1: Subscription -> Delivery, d2: Subscription -> Delivery, x: Subscription)
    requires WellFormed(s)
    requires x in Attempted(s, d1) && IsGone(d1(x))
    ensures x !in AfterPush(s, d1, Intended)
    ensures x !in Attempted(AfterPush(s, d1, Intended), d2)
  {
    var k := FirstRaise(s, d1);
    var i :| 0 <= i < |Attempted(s, d1)| && Attempted(s, d1)[i] == x;
    assert s[i] == x;
    assert i < k;
    forall j | k <= j < |s| ensures s[j] != x {
      assert DistinctEndpoints(s[i], s[j]);
    }
    assert x !in Pruned(s[..k], d1, Intended);
  }

  /**
   * With the prune test as written, no delivery outcome selects a
   * subscription, so a push run leaves the registry exactly as it was,
   * whether or not a delivery raises.
   */
  lemma {:induction false} AsWrittenNeverPrunes(s: seq<Subscription>, deliver: Subscription -> Delivery)
    ensures forall d :: !PrunesAsWritten(d)
    ensures Pruned(s, deliver, AsWritten) == s
    ensures AfterPush(s, deliver, AsWritten) == s
  {
    var k := FirstRaise(s, deliver);
    var none := Gone(s, deliver, AsWritten);
    assert none == {};
    FilterKeepsAll(s, none);
    FilterKeepsAll(s[..k], none);
    assert s[..k] + s[k..] == s;
  }

  /**
   * A subscription whose provider answers 410 stays registered under the
   * test as written, and is removed under the intended test `IsGone`.
   */
  lemma GoneSubscriptionSurvivesAsWritten(sub: Subscription)
    ensures var deliver := (x: Subscription) => PushError(Some(410));
      IsGone(deliver(sub)) && Pruned([sub], deliver, AsWritten) == [sub] && Pruned([sub], deliver, Intended) == []
  {
    var deliver := (x: Subscription) => PushError(Some(410));
    AsWrittenNeverPrunes([sub], deliver);
    assert [sub][1..] == [];
  }
}
