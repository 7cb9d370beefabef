/**
 * The webhook publisher: a bounded FIFO queue of change events, and the
 * consumer tick that takes one event off the head and chooses, subscriber by
 * subscriber, who is sent it and at which URL.
 */
module EventPublisher {
  import opened Wrappers
  import opened Text

  type Uuid = nat

  /** A change message: its event type (the enum constant's name) and its body. */
  datatype PubSubMessage = PubSubMessage(eventType: string, body: string)

  /** A queued message with the x-forwarded-client-cert header of its requester. */
  datatype EnqueuedEvent = EnqueuedEvent(message: PubSubMessage, xfccHeader: Option<string>)

  /** The app client behind a subscription: its cluster URL and the names of its privileges. */
  datatype AppClient = AppClient(clusterUrl: Option<string>, privileges: set<string>)

  /** A subscription of an app client to one event type, at an address under the client's URL. */
  datatype Subscriber = Subscriber(id: Uuid, appClientUser: Option<AppClient>, subscriberAddress: string,
                                   subscribedEvent: string, secret: Option<string>)

  /** One webhook POST the consumer makes: the URL, the message, and whether it carries a signature header. */
  datatype Delivery = Delivery(url: string, message: PubSubMessage, signed: bool)

  // ---------------------------------------------------------------------
  // Subscriber checks
  // ---------------------------------------------------------------------

  /** `subscriberUrlValid`: an app client with a cluster URL that is not blank. */
  predicate SubscriberUrlValid(s: Subscriber)
  {
    s.appClientUser.Some? && s.appClientUser.value.clusterUrl.Some? && !IsBlank(s.appClientUser.value.clusterUrl.value)
  }

  /** The address with one leading '/' dropped, if it has one. */
  function Relative(address: string): (r: string)
    ensures StartsWith(address, "/") ==> "/" + r == address
    ensures !StartsWith(address, "/") ==> r == address
  {
    if StartsWith(address, "/") then address[1..] else address
  }

  /** `buildSubscriberFullUrl`: the cluster URL followed by the address without one leading '/'. */
  function BuildSubscriberFullUrl(s: Subscriber): (r: string)
    requires SubscriberUrlValid(s)
    ensures StartsWith(r, s.appClientUser.value.clusterUrl.value)
    ensures EndsWith(r, Relative(s.subscriberAddress))
    ensures |r| == |s.appClientUser.value.clusterUrl.value| + |s.subscriberAddress|
                   - (if StartsWith(s.subscriberAddress, "/") then 1 else 0)
  {
    var url := s.appClientUser.value.clusterUrl.value;
    var r := url + Relative(s.subscriberAddress);
    assert r[..|url|] == url;
    assert r[|r| - |Relative(s.subscriberAddress)|..] == Relative(s.subscriberAddress);
    r
  }

  /**
   * No "//" is made where the cluster URL and the address meet, unless the
   * address itself starts with "//": a single leading slash is dropped, so a
   * URL ending in '/' and an address starting with '/' join with one slash.
   */
  lemma FullUrlJoinsWithOneSlash(s: Subscriber)
    requires SubscriberUrlValid(s) && !StartsWith(s.subscriberAddress, "//")
    ensures var url := s.appClientUser.value.clusterUrl.value;
            var rest := BuildSubscriberFullUrl(s)[|url|..];
            rest == Relative(s.subscriberAddress) && !(EndsWith(url, "/") && StartsWith(rest, "/"))
  {
    var url := s.appClientUser.value.clusterUrl.value;
    var a := s.subscriberAddress;
    var rest := BuildSubscriberFullUrl(s)[|url|..];
    assert rest == Relative(a);
    if StartsWith(a, "/") && |a| >= 2 {
      assert a[..2] == [a[0], a[1]];
    }
  }

  /** The join keeps a double slash when the URL ends in '/' and the address starts with "//". */
  lemma DoubleSlashAddressKeepsOne(s: Subscriber)
    requires SubscriberUrlValid(s) && StartsWith(s.subscriberAddress, "//")
    requires EndsWith(s.appClientUser.value.clusterUrl.value, "/")
    ensures var n := |s.appClientUser.value.clusterUrl.value|;
            BuildSubscriberFullUrl(s)[n - 1..n + 1] == "//"
  {
    var url := s.appClientUser.value.clusterUrl.value;
    var r := BuildSubscriberFullUrl(s);
    var n := |url|;
    assert r == url + s.subscriberAddress[1..];
    assert r[n - 1] == url[n - 1] == '/';
    assert r[n] == s.subscriberAddress[1] == '/';
  }

  /** The entity type before the first '_' of the event name. */
  function FirstSegment(event: string): (r: string)
    ensures StartsWith(event, r) && '_' !in r
    ensures |r| < |event| ==> event[|r|] == '_'
  {
    if event == [] || event[0] == '_' then []
    else
      var rest := FirstSegment(event[1..]);
      assert ([event[0]] + rest)[1..] == rest;
      [event[0]] + rest
  }

  /**
   * `getTargetEntityType`: the entity type named by an event, the part of
   * its name before the first '_', where "SUB" (the SUB_ORG events) stands
   * for ORGANIZATION.
   */
  function TargetEntityType(event: string): (r: string)
    ensures FirstSegment(event) == "SUB" ==> r == "ORGANIZATION"
    ensures FirstSegment(event) != "SUB" ==> r == FirstSegment(event)
  {
    var type_ := FirstSegment(event);
    if type_ == "SUB" then "ORGANIZATION" else type_
  }

  /** The first segment of a name built as type + "_" + rest is the type. */
  lemma {:induction false} FirstSegmentOfJoined(type_: string, rest: string)
    requires '_' !in type_
    ensures FirstSegment(type_ + "_" + rest) == type_
  {
    if type_ != [] {
      assert (type_ + "_" + rest)[1..] == type_[1..] + "_" + rest;
      FirstSegmentOfJoined(type_[1..], rest);
    }
  }

  /** The entity type of an event named type + "_" + rest: the type, or ORGANIZATION for SUB. */
  lemma TargetEntityTypeOfJoined(type_: string, rest: string)
    requires '_' !in type_
    ensures TargetEntityType(type_ + "_" + rest) == if type_ == "SUB" then "ORGANIZATION" else type_
  {
    FirstSegmentOfJoined(type_, rest);
  }

  /** `checkSubscriberHasReadPrivsForEvent`: the app client holds "<entity type>_READ". */
  predicate HasReadPrivsForEvent(s: Subscriber)
    requires s.appClientUser.Some?
  {
    TargetEntityType(s.subscribedEvent) + "_READ" in s.appClientUser.value.privileges
  }

  // ---------------------------------------------------------------------
  // The publish loop
  // ---------------------------------------------------------------------

  /**
   * A subscriber the event is sent to: a valid URL, READ on the event's
   * entity type, and a namespace other than the requester's (a requester
   * without a namespace matches nobody).
   */
  predicate Receives(s: Subscriber, requester: Option<string>, namespaceOf: string -> string)
  {
    SubscriberUrlValid(s) && HasReadPrivsForEvent(s)
    && requester != Some(namespaceOf(BuildSubscriberFullUrl(s)))
  }

  /** The POST made to a subscriber that receives the event. */
  function DeliveryTo(s: Subscriber, message: PubSubMessage): Delivery
    requires SubscriberUrlValid(s)
  {
    Delivery(BuildSubscriberFullUrl(s), message, s.secret.Some?)
  }

  /** The POSTs of one broadcast, in subscriber order. */
  function Deliveries(subs: seq<Subscriber>, message: PubSubMessage, requester: Option<string>,
                      namespaceOf: string -> string): seq<Delivery>
  {
    if subs == [] then []
    else
      var last := subs[|subs| - 1];
      var before := Deliveries(subs[..|subs| - 1], message, requester, namespaceOf);
      if Receives(last, requester, namespaceOf) then before + [DeliveryTo(last, message)] else before
  }

  /**
   * Every POST of a broadcast goes to a subscriber that receives the event,
   * at that subscriber's URL, so never into the requester's namespace.
   */
  lemma {:induction false} DeliveriesSound(subs: seq<Subscriber>, message: PubSubMessage, requester: Option<string>,
                                           namespaceOf: string -> string, d: Delivery)
    requires d in Deliveries(subs, message, requester, namespaceOf)
    ensures d.message == message && requester != Some(namespaceOf(d.url))
    ensures exists i :: 0 <= i < |subs| && Receives(subs[i], requester, namespaceOf) && d == DeliveryTo(subs[i], message)
  {
    var n := |subs| - 1;
    var init := subs[..n];
    if d in Deliveries(init, message, requester, namespaceOf) {
      DeliveriesSound(init, message, requester, namespaceOf, d);
      var i :| 0 <= i < n && Receives(init[i], requester, namespaceOf) && d == DeliveryTo(init[i], message);
      assert init[i] == subs[i];
    } else {
      assert d == DeliveryTo(subs[n], message);
    }
  }

  /** Every subscriber that receives the event gets a POST. */
  lemma {:induction false} DeliveriesComplete(subs: seq<Subscriber>, message: PubSubMessage, requester: Option<string>,
                                              namespaceOf: string -> string, i: nat)
    requires i < |subs| && Receives(subs[i], requester, namespaceOf)
    ensures DeliveryTo(subs[i], message) in Deliveries(subs, message, requester, namespaceOf)
  {
    var n := |subs| - 1;
    if i < n {
      assert subs[..n][i] == subs[i];
      DeliveriesComplete(subs[..n], message, requester, namespaceOf, i);
      DeliveriesGrow(subs, message, requester, namespaceOf, DeliveryTo(subs[i], message));
    }
  }

  /** A POST of the broadcast to all but the last subscriber is also a POST of the whole broadcast. */
  lemma DeliveriesGrow(subs: seq<Subscriber>, message: PubSubMessage, requester: Option<string>,
                       namespaceOf: string -> string, d: Delivery)
    requires subs != [] && d in Deliveries(subs[..|subs| - 1], message, requester, namespaceOf)
    ensures d in Deliveries(subs, message, requester, namespaceOf)
  {
  }

  /** A subscriber without a valid URL or without READ on the event's entity type is never sent it. */
  lemma UnreadableNeverSent(subs: seq<Subscriber>, message: PubSubMessage, requester: Option<string>,
                            namespaceOf: string -> string, d: Delivery)
    requires d in Deliveries(subs, message, requester, namespaceOf)
    ensures exists i :: 0 <= i < |subs| && SubscriberUrlValid(subs[i]) && HasReadPrivsForEvent(subs[i])
                        && d.url == BuildSubscriberFullUrl(subs[i])
  {
    DeliveriesSound(subs, message, requester, namespaceOf, d);
  }

  /** The loop of `queueConsumer` over the subscribers of the event type. */
  method PublishTo(subs: seq<Subscriber>, message: PubSubMessage, requester: Option<string>,
                   namespaceOf: string -> string) returns (sent: seq<Delivery>)
    ensures sent == Deliveries(subs, message, requester, namespaceOf)
  {
    sent := [];
    for i := 0 to |subs|
      invariant sent == Deliveries(subs[..i], message, requester, namespaceOf)
    {
      var s := subs[i];
      assert subs[..i + 1][..i] == subs[..i];
      if !SubscriberUrlValid(s) {
        continue;
      }
      if !HasReadPrivsForEvent(s) {
        continue;
      }
      var subscriberUrl := BuildSubscriberFullUrl(s);
      if requester != Some(namespaceOf(subscriberUrl)) {
        sent := sent + [Delivery(subscriberUrl, message, s.secret.Some?)];
      }
    }
    assert subs[..|subs|] == subs;
  }

  // ---------------------------------------------------------------------
  // The queue
  // ---------------------------------------------------------------------

  /** The queue after one `publishEvent`: the event goes to the tail unless the queue holds `cap` or more. */
  function Offered(queue: seq<EnqueuedEvent>, cap: int, e: EnqueuedEvent): seq<EnqueuedEvent>
  {
    if |queue| >= cap then queue else queue + [e]
  }

  /** The queue after publishing `es` in turn. */
  function OfferedAll(queue: seq<EnqueuedEvent>, cap: int, es: seq<EnqueuedEvent>): seq<EnqueuedEvent>
    decreases |es|
  {
    if es == [] then queue else OfferedAll(Offered(queue, cap, es[0]), cap, es[1..])
  }

  /** The number of events still admitted to a queue of length `len` under `cap`. */
  function Room(len: nat, cap: int): nat
  {
    if cap <= len then 0 else cap - len
  }

  /**
   * Publishing a run of events admits a prefix of them, as many as there is
   * room for, in order; the rest are dropped.
   */
  lemma {:induction false} OfferedAllAdmitsPrefix(queue: seq<EnqueuedEvent>, cap: int, es: seq<EnqueuedEvent>)
    ensures var k := if Room(|queue|, cap) < |es| then Room(|queue|, cap) else |es|;
            OfferedAll(queue, cap, es) == queue + es[..k]
    decreases |es|
  {
    if es != [] {
      var q' := Offered(queue, cap, es[0]);
      OfferedAllAdmitsPrefix(q', cap, es[1..]);
      if |queue| >= cap {
        assert es[..0] == [];
        assert q' == queue;
      } else {
        var k' := if Room(|q'|, cap) < |es| - 1 then Room(|q'|, cap) else |es| - 1;
        assert queue + [es[0]] + es[1..][..k'] == queue + es[..k' + 1];
      }
    }
  }

  /** The queue and its cap (`webhook-queue-max-size`). */
  class Publisher {
    var queuedEvents: seq<EnqueuedEvent>
    const webhookQueueSize: int

    /** The queue never holds more than the cap, unless it is empty. */
    ghost predicate Valid()
      reads this
    {
      queuedEvents == [] || |queuedEvents| <= webhookQueueSize
    }

    constructor (cap: int)
      ensures Valid() && queuedEvents == [] && webhookQueueSize == cap
    {
      queuedEvents := [];
      webhookQueueSize := cap;
    }

    /** `publishEvent`: drops the message when the queue is at the cap, otherwise queues it at the tail. */
    method PublishEvent(message: PubSubMessage, xfccHeader: Option<string>) returns (queued: bool)
      requires Valid()
      modifies this
      ensures Valid()
      ensures queued <==> |old(queuedEvents)| < webhookQueueSize
      ensures queuedEvents == Offered(old(queuedEvents), webhookQueueSize, EnqueuedEvent(message, xfccHeader))
    {
      if |queuedEvents| >= webhookQueueSize {
        return false;
      }
      queuedEvents := queuedEvents + [EnqueuedEvent(message, xfccHeader)];
      queued := true;
    }

    /**
     * `queueConsumer`: one tick. An empty queue does nothing; otherwise the
     * head is taken off and broadcast to the subscribers of its event type.
     * `subscribersOf` is the subscription lookup, `requesterNamespaceOf` the
     * namespace extracted from the xfcc header, `namespaceOf` the namespace
     * of a subscriber URL.
     */
    method QueueConsumer(subscribersOf: string -> seq<Subscriber>, requesterNamespaceOf: Option<string> -> Option<string>,
                         namespaceOf: string -> string) returns (sent: seq<Delivery>)
      requires Valid()
      modifies this
      ensures Valid()
      ensures old(queuedEvents) == [] ==> queuedEvents == [] && sent == []
      ensures old(queuedEvents) != [] ==>
                var e := old(queuedEvents)[0];
                queuedEvents == old(queuedEvents)[1..]
                && sent == Deliveries(subscribersOf(e.message.eventType), e.message, requesterNamespaceOf(e.xfccHeader), namespaceOf)
    {
      if queuedEvents == [] {
        return [];
      }
      var event := queuedEvents[0];
      queuedEvents := queuedEvents[1..];
      var message := event.message;
      var requesterNamespace := requesterNamespaceOf(event.xfccHeader);
      var subscribers := subscribersOf(message.eventType);
      sent := PublishTo(subscribers, message, requesterNamespace, namespaceOf);
    }
  }
}
