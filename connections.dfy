/**
 * The WebSocket bookkeeping of the API routes: `ConnectionManager` keeps the open connections and
 * the pull-request subscriptions, and `broadcast_pr_event` picks the subscribed connections an event
 * goes to. Sending is not performed here: every send attempt is recorded as a `Delivery`.
 */
module Connections {
  import opened Wrappers
  import opened Seqs
  import opened Polling

  /** The key of a connection: the `id` of its socket (kept as a string by the source, and turned
      back into a number when matched, which is the identity here). */
  type ConnectionId = nat

  /** A client socket, known by its identity. */
  datatype WebSocket = WebSocket(id: ConnectionId)

  /** What a client subscribed to; a field the client's message left out is `None`. */
  datatype Subscription = Subscription(projectId: Option<string>, requirementId: Option<string>, agentRunId: Option<string>)

  /** The `pr_status_update` message a broadcast sends. */
  datatype Message = PrStatusUpdate(projectId: Option<string>, requirementId: Option<string>, event: PrEvent)

  /** One attempted send of a message to a socket. */
  datatype Delivery = Delivery(to: WebSocket, message: Message)

  /** The target rule of a broadcast: both the project and the requirement agree. */
  predicate Matches(subscription: Subscription, projectId: Option<string>, requirementId: Option<string>)
  {
    subscription.projectId == projectId && subscription.requirementId == requirementId
  }

  predicate HasId(id: ConnectionId, ws: WebSocket)
  {
    ws.id == id
  }

  /** The first open connection whose socket has the given id, as `next(..., None)` finds it. */
  function FindConnection(connections: seq<WebSocket>, id: ConnectionId): Option<WebSocket>
  {
    var k := FirstWhere(connections, ws => HasId(id, ws));
    if k == |connections| then None else Some(connections[k])
  }

  /** The sends a broadcast makes, walking the subscriptions in the order they were first made. */
  function Deliveries(connections: seq<WebSocket>, subscriptions: map<ConnectionId, Subscription>,
                      order: seq<ConnectionId>, message: Message): seq<Delivery>
    requires forall c :: c in order ==> c in subscriptions
  {
    if order == [] then []
    else
      var c := order[|order| - 1];
      var before := Deliveries(connections, subscriptions, order[..|order| - 1], message);
      var target := FindConnection(connections, c);
      if Matches(subscriptions[c], message.projectId, message.requirementId) && target.Some? then
        before + [Delivery(target.value, message)]
      else before
  }

  /** `FindConnection` finds a socket exactly when one with that id is open, and finds the first. */
  lemma FindConnectionFinds(connections: seq<WebSocket>, id: ConnectionId)
    ensures FindConnection(connections, id).None? <==> forall k :: 0 <= k < |connections| ==> connections[k].id != id
    ensures FindConnection(connections, id).Some? ==>
      exists k :: 0 <= k < |connections| && connections[k] == FindConnection(connections, id).value &&
        connections[k].id == id && forall j :: 0 <= j < k ==> connections[j].id != id
  {
    FirstWhereFinds(connections, ws => HasId(id, ws));
  }

  /** Only subscribers of the event's project and requirement receive it, and only on an open
      connection whose socket has the subscriber's id. */
  lemma {:induction false} OnlyMatchingSubscribersReceive(connections: seq<WebSocket>,
      subscriptions: map<ConnectionId, Subscription>, order: seq<ConnectionId>, message: Message)
    requires forall c :: c in order ==> c in subscriptions
    ensures forall d :: d in Deliveries(connections, subscriptions, order, message) ==>
      d.message == message && d.to in connections && d.to.id in order &&
      Matches(subscriptions[d.to.id], message.projectId, message.requirementId)
  {
    if order != [] {
      var c := order[|order| - 1];
      var prefix := order[..|order| - 1];
      assert forall x :: x in prefix ==> x in order;
      OnlyMatchingSubscribersReceive(connections, subscriptions, prefix, message);
      FindConnectionFinds(connections, c);
    }
  }

  /** Every subscriber of the event's project and requirement whose socket is open receives it,
      on the first open connection with its id. */
  lemma {:induction false} EveryMatchingSubscriberReceives(connections: seq<WebSocket>,
      subscriptions: map<ConnectionId, Subscription>, order: seq<ConnectionId>, message: Message,
      c: ConnectionId, ws: WebSocket)
    requires forall x :: x in order ==> x in subscriptions
    requires c in order && Matches(subscriptions[c], message.projectId, message.requirementId)
    requires ws in connections && ws.id == c
    ensures FindConnection(connections, c).Some?
    ensures Delivery(FindConnection(connections, c).value, message) in
      Deliveries(connections, subscriptions, order, message)
  {
    FindConnectionFinds(connections, c);
    var prefix := order[..|order| - 1];
    assert forall x :: x in prefix ==> x in order;
    if order[|order| - 1] != c {
      assert c in prefix by {
        var k :| 0 <= k < |order| && order[k] == c;
        assert prefix[k] == c;
      }
      EveryMatchingSubscriberReceives(connections, subscriptions, prefix, message, c, ws);
    }
  }

  /** A broadcast sends at most once per subscription. */
  lemma {:induction false} DeliveriesBound(connections: seq<WebSocket>,
      subscriptions: map<ConnectionId, Subscription>, order: seq<ConnectionId>, message: Message)
    requires forall c :: c in order ==> c in subscriptions
    ensures |Deliveries(connections, subscriptions, order, message)| <= |order|
  {
    if order != [] {
      var prefix := order[..|order| - 1];
      assert forall x :: x in prefix ==> x in order;
      DeliveriesBound(connections, subscriptions, prefix, message);
    }
  }

  /** Dropping a subscription from the map and its id from an insertion order that indexes the map
      leaves an insertion order that indexes the smaller map. */
  lemma DroppedSubscriptionLeavesOrder(order: seq<ConnectionId>, subscriptions: map<ConnectionId, Subscription>,
                                       c: ConnectionId)
    requires NoDuplicates(order) && forall x :: x in order <==> x in subscriptions
    ensures NoDuplicates(RemoveFirst(order, c))
    ensures forall x :: x in RemoveFirst(order, c) <==> x in subscriptions - {c}
    ensures forall x :: x in RemoveFirst(order, c) <==> x in order && x != c
    ensures c !in subscriptions ==> RemoveFirst(order, c) == order && subscriptions - {c} == subscriptions
  {
    RemoveFirstNoDuplicates(order, c);
    if c !in subscriptions {
      RemoveFirstAbsent(order, c);
    }
  }

  class ConnectionManager {
    /** `active_connections`, in the order the sockets connected. */
    var activeConnections: seq<WebSocket>
    /** `pr_subscriptions`, keyed by connection id. */
    var prSubscriptions: map<ConnectionId, Subscription>
    /** The keys of `prSubscriptions` in insertion order, the order a dict iterates in. */
    var subscriptionOrder: seq<ConnectionId>
    /** Every send attempted so far. */
    var sent: seq<Delivery>

    /** The insertion order lists each subscribed id exactly once. */
    ghost predicate Valid()
      reads this
    {
      NoDuplicates(subscriptionOrder) &&
      forall c :: c in subscriptionOrder <==> c in prSubscriptions
    }

    constructor()
      ensures Valid()
      ensures activeConnections == [] && prSubscriptions == map[] && subscriptionOrder == [] && sent == []
    {
      activeConnections := [];
      prSubscriptions := map[];
      subscriptionOrder := [];
      sent := [];
    }

    /** `connect`: the accepted socket joins the open connections. */
    method Connect(websocket: WebSocket)
      requires Valid()
      modifies this
      ensures Valid()
      ensures activeConnections == old(activeConnections) + [websocket]
      ensures prSubscriptions == old(prSubscriptions) && subscriptionOrder == old(subscriptionOrder)
      ensures sent == old(sent)
    {
      activeConnections := activeConnections + [websocket];
    }

    /** `disconnect`: the first occurrence of the socket leaves the open connections and the id's
        subscription is dropped; either step does nothing when its entry is absent. */
    method Disconnect(websocket: WebSocket, connectionId: ConnectionId)
      requires Valid()
      modifies this
      ensures Valid()
      ensures activeConnections == RemoveFirst(old(activeConnections), websocket)
      ensures multiset(activeConnections) == multiset(old(activeConnections)) - multiset{websocket}
      ensures websocket !in old(activeConnections) ==> activeConnections == old(activeConnections)
      ensures prSubscriptions == old(prSubscriptions) - {connectionId}
      ensures subscriptionOrder == RemoveFirst(old(subscriptionOrder), connectionId)
      ensures forall c :: c in subscriptionOrder <==> c in old(subscriptionOrder) && c != connectionId
      ensures sent == old(sent)
    {
      RemoveFirstMultiset(activeConnections, websocket);
      if websocket in activeConnections {
        activeConnections := RemoveFirst(activeConnections, websocket);
      } else {
        RemoveFirstAbsent(activeConnections, websocket);
      }
      DroppedSubscriptionLeavesOrder(subscriptionOrder, prSubscriptions, connectionId);
      if connectionId in prSubscriptions {
        prSubscriptions := prSubscriptions - {connectionId};
        subscriptionOrder := RemoveFirst(subscriptionOrder, connectionId);
      }
    }

    /** The `subscribe_pr_events` handler: the connection's subscription is set, replacing an
        earlier one in place, or added at the end of the iteration order. */
    method Subscribe(connectionId: ConnectionId, subscription: Subscription)
      requires Valid()
      modifies this
      ensures Valid()
      ensures prSubscriptions == old(prSubscriptions)[connectionId := subscription]
      ensures subscriptionOrder ==
        if connectionId in old(prSubscriptions) then old(subscriptionOrder) else old(subscriptionOrder) + [connectionId]
      ensures activeConnections == old(activeConnections) && sent == old(sent)
    {
      if connectionId !in prSubscriptions {
        subscriptionOrder := subscriptionOrder + [connectionId];
      }
      prSubscriptions := prSubscriptions[connectionId := subscription];
    }

    /** `broadcast_pr_event`: walk the subscriptions and send the event to every matching one whose
        socket is still open. */
    method BroadcastPrEvent(projectId: Option<string>, requirementId: Option<string>, event: PrEvent)
      requires Valid()
      modifies this
      ensures Valid()
      ensures sent == old(sent) + Deliveries(activeConnections, prSubscriptions, subscriptionOrder,
                                             PrStatusUpdate(projectId, requirementId, event))
      ensures activeConnections == old(activeConnections) && prSubscriptions == old(prSubscriptions)
      ensures subscriptionOrder == old(subscriptionOrder)
    {
      var message := PrStatusUpdate(projectId, requirementId, event);
      var i := 0;
      while i < |subscriptionOrder|
        invariant activeConnections == old(activeConnections) && prSubscriptions == old(prSubscriptions)
        invariant subscriptionOrder == old(subscriptionOrder)
        invariant i <= |subscriptionOrder|
        invariant forall c :: c in subscriptionOrder[..i] ==> c in prSubscriptions
        invariant sent == old(sent) + Deliveries(activeConnections, prSubscriptions, subscriptionOrder[..i], message)
      {
        var connectionId := subscriptionOrder[i];
        var subscription := prSubscriptions[connectionId];
        assert subscriptionOrder[..i + 1][..i] == subscriptionOrder[..i];
        if Matches(subscription, projectId, requirementId) {
          var websocket := FindConnection(activeConnections, connectionId);
          if websocket.Some? {
            sent := sent + [Delivery(websocket.value, message)];
          }
        }
        i := i + 1;
      }
      assert subscriptionOrder[..i] == subscriptionOrder;
    }
  }
}
