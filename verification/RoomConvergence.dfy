/** The clients' views of a room against the server's map, over every run. */
module RoomConvergence {
  import opened Prelude
  import opened Model
  import opened SignalingServer
  import opened RoomViews

  // ----- What each step does to the streams

  /** A message moves from the front of what is pending to the end of the queue. */
  lemma MoveKeepsFilter(topic: Topic, queue: seq<ServerMessage>, m: ServerMessage, rest: seq<ServerMessage>)
    ensures Filter(topic, queue + [m]) + Filter(topic, rest) == Filter(topic, queue) + Filter(topic, [m] + rest)
  {
    hide Filter;
    FilterAppend(topic, queue, [m]);
    FilterAppend(topic, [m], rest);
    Associative(Filter(topic, queue), Filter(topic, [m]), Filter(topic, rest));
  }

  lemma ToPeerHead(pending: seq<Send>, p: Uuid)
    requires pending != []
    ensures ToPeer(pending, p) == (if pending[0].to == p then [pending[0].message] + ToPeer(pending[1..], p)
                                   else ToPeer(pending[1..], p))
  {
    assert [] + ToPeer(pending[1..], p) == ToPeer(pending[1..], p);
  }

  /** Only its owner sends on a topic. */
  lemma OffTopic(topic: Topic, id: Uuid, send: Send, queue: seq<ServerMessage>)
    requires Belongs(id, send) && Owner(topic, send.to) != id
    ensures Filter(topic, queue + [send.message]) == Filter(topic, queue)
  {
    FilterAppend(topic, queue, [send.message]);
    FilterOne(topic, send.message);
  }

  lemma FirstBelongs(s: State, id: Uuid)
    requires Shape(s) && id in s.tasks && s.tasks[id].pending != []
    ensures Belongs(id, s.tasks[id].pending[0])
  {
    assert TaskOk(s, id) && SendOk(s, id, s.tasks[id].pending[0]);
  }

  /** A send moves a message from its task to a queue: no stream changes. */
  lemma DeliverStream(s: State, id: Uuid, p: Uuid, topic: Topic)
    requires Shape(s) && Enabled(s, Deliver(id))
    ensures Stream(ApplyDeliver(s, id), p, topic) == Stream(s, p, topic)
  {
    hide TaskOk, Filter, ToPeer;
    var pending := s.tasks[id].pending;
    var send := pending[0];
    FirstBelongs(s, id);
    ToPeerHead(pending, p);
    if send.to == p {
      if Owner(topic, p) == id {
        MoveKeepsFilter(topic, QueueOf(s, p), send.message, ToPeer(pending[1..], p));
      } else {
        OffTopic(topic, id, send, QueueOf(s, p));
      }
    }
  }

  /** A lock section that gives an idle task new sends extends the streams it owns. */
  lemma SayStream(s: State, id: Uuid, t: Task, next: State, p: Uuid, topic: Topic)
    requires id in s.tasks && s.tasks[id].pending == []
    requires next.queues == s.queues && next.tasks == s.tasks[id := t]
    ensures Stream(next, p, topic)
            == Stream(s, p, topic) + if Owner(topic, p) == id then Filter(topic, ToPeer(t.pending, p)) else []
  {}

  // ----- The views

  function Get(room: Room, id: Uuid): Option<ClientInfoWithoutId> {
    if id in room then Some(room[id]) else None
  }

  /** What a roster message says about its subject. */
  function Said(m: ServerMessage): Option<ClientInfoWithoutId> {
    match m
    case Join(peer) => Some(peer.WithoutId())
    case Update(peer) => Some(peer.WithoutId())
    case _ => None
  }

  /** The snapshot, overridden by the last news. */
  function Know(snapshot: Room, q: Uuid, news: seq<ServerMessage>): Option<ClientInfoWithoutId> {
    if news == [] then Get(snapshot, q) else Said(news[|news| - 1])
  }

  /** What `p` will know about `q` once everything under way has arrived is what the room holds. */
  ghost predicate PairOk(s: State, p: Uuid, q: Uuid) {
    p in s.tasks && Live(s.tasks[p]) ==>
      if p == q then Stream(s, p, News(q)) == [] && q !in s.tasks[p].snapshot
      else Know(s.tasks[p].snapshot, q, Stream(s, p, News(q))) == Get(RoomOf(s, s.tasks[p].group), q)
  }

  function PeerIn(peers: seq<ClientInfo>, q: Uuid): Option<ClientInfoWithoutId> {
    if peers == [] then None
    else if peers[|peers| - 1].id == q then Some(peers[|peers| - 1].WithoutId())
    else PeerIn(peers[..|peers| - 1], q)
  }

  /** The hello of a client lists its snapshot, and there is exactly one. */
  ghost predicate GreetOk(s: State, p: Uuid) {
    p in s.tasks && Live(s.tasks[p]) ==>
      var greeting := Stream(s, p, Greeting);
      |greeting| == 1 && greeting[0].Hello? && forall q :: PeerIn(greeting[0].peers, q) == Get(s.tasks[p].snapshot, q)
  }

  /** The SDP messages of `o` to `t` are the accepted ones, in order; those not yet sent when `o`
      disconnects are lost. */
  ghost predicate SdpOk(s: State, o: Uuid, t: Uuid) {
    var accepted := if o in s.tasks then ToPeer(s.tasks[o].relayed, t) else [];
    && Stream(s, t, Sdp(o)) <= accepted
    && (o in s.tasks && Live(s.tasks[o]) ==> Stream(s, t, Sdp(o)) == accepted)
    && (t !in s.tasks ==> accepted == [])
  }

  ghost predicate Inv(s: State) {
    && Shape(s)
    && (forall p, q :: PairOk(s, p, q))
    && (forall p :: GreetOk(s, p))
    && (forall o, t :: SdpOk(s, o, t))
  }

  lemma {:induction false} ListingAgrees(room: Room, order: seq<Uuid>, q: Uuid)
    requires forall id :: id in order ==> id in room
    ensures PeerIn(Listing(room, order), q) == if q in order then Get(room, q) else None
    decreases |order|
  {
    if order != [] {
      var last := |order| - 1;
      assert Listing(room, order)[..last] == Listing(room, order[..last]);
      ListingAgrees(room, order[..last], q);
      assert order == order[..last] + [order[last]];
    }
  }

  /** A step under which no stream, no task's snapshot and nobody's room entry changes. */
  ghost predicate Unheard(s: State, next: State) {
    && next.tasks.Keys == s.tasks.Keys
    && (forall p, topic :: Stream(next, p, topic) == Stream(s, p, topic))
    && (forall p :: p in s.tasks ==> next.tasks[p] == s.tasks[p].(phase := next.tasks[p].phase,
                                                                  pending := next.tasks[p].pending))
    && (forall p :: p in s.tasks ==> Live(next.tasks[p]) == Live(s.tasks[p]))
    && (forall g :: RoomOf(next, g) == RoomOf(s, g))
  }

  lemma UnheardInv(s: State, next: State)
    requires Inv(s) && Shape(next) && Unheard(s, next)
    ensures Inv(next)
  {
    forall p, q ensures PairOk(next, p, q) {
      assert PairOk(s, p, q);
    }
    forall p ensures GreetOk(next, p) {
      assert GreetOk(s, p);
    }
    forall o, t ensures SdpOk(next, o, t) {
      assert SdpOk(s, o, t);
    }
  }

  lemma DeliverUnheard(s: State, id: Uuid)
    requires Shape(s) && Enabled(s, Deliver(id))
    ensures Unheard(s, ApplyDeliver(s, id))
  {
    forall p, topic ensures Stream(ApplyDeliver(s, id), p, topic) == Stream(s, p, topic) {
      DeliverStream(s, id, p, topic);
    }
  }

  lemma DeliverInv(s: State, id: Uuid)
    requires Inv(s) && Enabled(s, Deliver(id))
    ensures Inv(ApplyDeliver(s, id))
  {
    DeliverShape(s, id);
    DeliverUnheard(s, id);
    UnheardInv(s, ApplyDeliver(s, id));
  }

  // ----- Connecting

  /** Nothing is under way to a socket that does not exist yet. */
  lemma NothingUnderWay(s: State, q: Uuid, p: Uuid)
    requires Shape(s) && p !in s.tasks
    ensures ToPeer(PendingOf(s, q), p) == []
  {
    if q in s.tasks {
      assert TaskOk(s, q);
      forall i | 0 <= i < |s.tasks[q].pending| ensures s.tasks[q].pending[i].to != p {
        assert SendOk(s, q, s.tasks[q].pending[i]);
      }
      ToPeerNone(s.tasks[q].pending, p);
    }
  }

  /** The sends of a new task: its join to the room, its hello to itself. */
  lemma NewTaskSends(s: State, peer: ClientInfo, group: string, order: seq<Uuid>, p: Uuid)
    requires peer.id !in RoomOf(s, group) && IsOrder(order, RoomOf(s, group).Keys)
    ensures ToPeer(NewTask(s, peer, group, order).pending, p)
            == if p == peer.id then [Hello(peer, Listing(RoomOf(s, group), order))]
               else if p in RoomOf(s, group) then [Join(peer)] else []
  {
    var hello := Send(peer.id, Hello(peer, Listing(RoomOf(s, group), order)));
    ToPeerAppend(FanOut(order, Join(peer)), [hello], p);
    ToPeerFanOut(order, Join(peer), p);
    assert [hello][1..] == [];
  }

  /** The streams after a socket was admitted. */
  lemma AdmittedStream(s: State, t: Task, counts: map<string, nat>, p: Uuid, topic: Topic)
    requires t.peer.id !in s.tasks
    ensures Stream(Admitted(s, t, counts), p, topic)
            == Filter(topic, if p == t.peer.id then [] else QueueOf(s, p))
               + Filter(topic, ToPeer(if Owner(topic, p) == t.peer.id then t.pending
                                      else PendingOf(s, Owner(topic, p)), p))
  {}

  lemma FilterNone(topic: Topic)
    ensures Filter(topic, []) == []
  {}

  /** What the others hear of the new socket. */
  lemma AdmittedNews(s: State, peer: ClientInfo, group: string, order: seq<Uuid>, counts: map<string, nat>, p: Uuid)
    requires peer.id !in s.tasks && peer.id !in RoomOf(s, group) && IsOrder(order, RoomOf(s, group).Keys)
             && p != peer.id
    ensures Stream(Admitted(s, NewTask(s, peer, group, order), counts), p, News(peer.id))
            == Stream(s, p, News(peer.id)) + if p in RoomOf(s, group) then [Join(peer)] else []
  {
    hide Filter, ToPeer;
    NewTaskSends(s, peer, group, order, p);
    AdmittedStream(s, NewTask(s, peer, group, order), counts, p, News(peer.id));
    FilterNone(News(peer.id));
    ToPeerNone([], p);
    FilterOne(News(peer.id), Join(peer));
  }

  lemma AdmittedAnnounced(s: State, peer: ClientInfo, group: string, order: seq<Uuid>, counts: map<string, nat>,
                          p: Uuid)
    requires Inv(s) && Enabled(s, Connect(peer, group, order)) && p != peer.id
    ensures PairOk(Admitted(s, NewTask(s, peer, group, order), counts), p, peer.id)
  {
    hide Stream;
    assert peer.id !in RoomOf(s, group);
    assert PairOk(s, p, peer.id);
    AdmittedNews(s, peer, group, order, counts, p);
    if p in s.tasks && Live(s.tasks[p]) {
      assert TaskOk(s, p);
    }
  }

  /** What the new socket knows. */
  lemma AdmittedKnows(s: State, peer: ClientInfo, group: string, order: seq<Uuid>, counts: map<string, nat>, q: Uuid)
    requires Inv(s) && Enabled(s, Connect(peer, group, order))
    ensures PairOk(Admitted(s, NewTask(s, peer, group, order), counts), peer.id, q)
  {
    hide Filter, ToPeer, TaskOk;
    assert peer.id !in RoomOf(s, group);
    AdmittedStream(s, NewTask(s, peer, group, order), counts, peer.id, News(q));
    FilterNone(News(q));
    if q == peer.id {
      NewTaskSends(s, peer, group, order, q);
      FilterOne(News(q), Hello(peer, Listing(RoomOf(s, group), order)));
    } else {
      NothingUnderWay(s, q, peer.id);
    }
  }

  lemma AdmittedPair(s: State, peer: ClientInfo, group: string, order: seq<Uuid>, counts: map<string, nat>, p: Uuid,
                     q: Uuid)
    requires Inv(s) && Enabled(s, Connect(peer, group, order))
    ensures PairOk(Admitted(s, NewTask(s, peer, group, order), counts), p, q)
  {
    if p == peer.id {
      AdmittedKnows(s, peer, group, order, counts, q);
    } else if q == peer.id {
      AdmittedAnnounced(s, peer, group, order, counts, p);
    } else {
      assert PairOk(s, p, q);
    }
  }

  lemma AdmittedGreet(s: State, peer: ClientInfo, group: string, order: seq<Uuid>, counts: map<string, nat>, p: Uuid)
    requires Inv(s) && Enabled(s, Connect(peer, group, order))
    ensures GreetOk(Admitted(s, NewTask(s, peer, group, order), counts), p)
  {
    assert GreetOk(s, p);
    assert peer.id !in RoomOf(s, group);
    if p == peer.id {
      NewTaskSends(s, peer, group, order, p);
      var hello := Hello(peer, Listing(RoomOf(s, group), order));
      FilterOne(Greeting, hello);
      forall q ensures PeerIn(hello.peers, q) == Get(RoomOf(s, group), q) {
        ListingAgrees(RoomOf(s, group), order, q);
      }
    }
  }

  lemma NothingFrom(s: State, o: Uuid, t: Uuid)
    requires SdpOk(s, o, t) && o !in s.tasks
    ensures Filter(Sdp(o), QueueOf(s, t)) == []
  {
    hide Filter, ToPeer;
    assert Stream(s, t, Sdp(o)) == [];
  }

  lemma AdmittedSends(s: State, peer: ClientInfo, group: string, order: seq<Uuid>, t: Uuid)
    requires peer.id !in RoomOf(s, group) && IsOrder(order, RoomOf(s, group).Keys)
    ensures Filter(Sdp(peer.id), ToPeer(NewTask(s, peer, group, order).pending, t)) == []
  {
    hide Filter, ToPeer;
    NewTaskSends(s, peer, group, order, t);
    FilterNone(Sdp(peer.id));
    FilterOne(Sdp(peer.id), Join(peer));
    FilterOne(Sdp(peer.id), Hello(peer, Listing(RoomOf(s, group), order)));
  }

  /** The new socket has relayed nothing. */
  lemma AdmittedOrigin(s: State, peer: ClientInfo, group: string, order: seq<Uuid>, counts: map<string, nat>, t: Uuid)
    requires SdpOk(s, peer.id, t) && peer.id !in s.tasks && peer.id !in RoomOf(s, group)
             && IsOrder(order, RoomOf(s, group).Keys)
    ensures SdpOk(Admitted(s, NewTask(s, peer, group, order), counts), peer.id, t)
  {
    NothingFrom(s, peer.id, t);
    AdmittedSends(s, peer, group, order, t);
    FilterNone(Sdp(peer.id));
    ToPeerNone([], t);
    AdmittedStream(s, NewTask(s, peer, group, order), counts, t, Sdp(peer.id));
    hide Stream, Filter, ToPeer, IsOrder, Listing, FanOut;
  }

  /** What goes from others to the new socket, or between others. */
  lemma AdmittedElsewhere(s: State, t: Task, counts: map<string, nat>, p: Uuid, o: Uuid)
    requires Shape(s) && t.peer.id !in s.tasks && o != t.peer.id
    ensures Stream(Admitted(s, t, counts), p, Sdp(o)) == if p == t.peer.id then [] else Stream(s, p, Sdp(o))
  {
    hide TaskOk, Filter, ToPeer;
    AdmittedStream(s, t, counts, p, Sdp(o));
    if p == t.peer.id {
      FilterNone(Sdp(o));
      NothingUnderWay(s, o, p);
    }
  }

  lemma AdmittedSdp(s: State, peer: ClientInfo, group: string, order: seq<Uuid>, counts: map<string, nat>, o: Uuid,
                    t: Uuid)
    requires Inv(s) && Enabled(s, Connect(peer, group, order))
    ensures SdpOk(Admitted(s, NewTask(s, peer, group, order), counts), o, t)
  {
    hide Stream, Filter, ToPeer, TaskOk, PairOk, GreetOk, Listing, FanOut;
    assert peer.id !in RoomOf(s, group);
    assert SdpOk(s, o, t);
    if o == peer.id {
      AdmittedOrigin(s, peer, group, order, counts, t);
    } else {
      AdmittedElsewhere(s, NewTask(s, peer, group, order), counts, t, o);
    }
  }

  lemma ConnectInv(limits: Limits, s: State, peer: ClientInfo, group: string, order: seq<Uuid>)
    requires Inv(s) && Enabled(s, Connect(peer, group, order))
    ensures Inv(ApplyConnect(limits, s, peer, group, order))
  {
    var counts := ApplyConnect(limits, s, peer, group, order).counts;
    ConnectOutcome(limits, s, peer, group, order);
    ConnectShape(limits, s, peer, group, order);
    if ApplyConnect(limits, s, peer, group, order) == TurnedAway(s, group, counts) {
      TurnedAwayInv(s, group, counts);
    } else {
      AdmittedInv(s, peer, group, order, counts);
    }
  }

  lemma TurnedAwayInv(s: State, group: string, counts: map<string, nat>)
    requires Inv(s)
    ensures Inv(TurnedAway(s, group, counts))
  {
    TurnedAwayShape(s, group, counts);
    assert Unheard(s, TurnedAway(s, group, counts));
    UnheardInv(s, TurnedAway(s, group, counts));
  }

  lemma AdmittedInv(s: State, peer: ClientInfo, group: string, order: seq<Uuid>, counts: map<string, nat>)
    requires Inv(s) && Enabled(s, Connect(peer, group, order))
    requires Shape(Admitted(s, NewTask(s, peer, group, order), counts))
    ensures Inv(Admitted(s, NewTask(s, peer, group, order), counts))
  {
    var next := Admitted(s, NewTask(s, peer, group, order), counts);
    forall p, q ensures PairOk(next, p, q) {
      AdmittedPair(s, peer, group, order, counts, p, q);
    }
    forall p ensures GreetOk(next, p) {
      AdmittedGreet(s, peer, group, order, counts, p);
    }
    forall o, t ensures SdpOk(next, o, t) {
      AdmittedSdp(s, peer, group, order, counts, o, t);
    }
  }

  // ----- Serving client messages

  lemma OnlyTo(send: Send, p: Uuid)
    ensures ToPeer([send], p) == if send.to == p then [send.message] else []
  {
    assert [send][1..] == [];
  }

  /** A request over the quota is answered with an error, which is on no topic. */
  lemma RefuseInv(s: State, id: Uuid, counts: map<string, nat>)
    requires Inv(s) && Idle(s, id) && Shape(Refuse(s, id, counts))
    ensures Inv(Refuse(s, id, counts))
  {
    hide TaskOk, Filter, ToPeer;
    var next := Refuse(s, id, counts);
    var send := Send(id, Error(TOO_MANY_REQUESTS));
    forall p, topic ensures Stream(next, p, topic) == Stream(s, p, topic) {
      SayStream(s, id, next.tasks[id], next, p, topic);
      OnlyTo(send, p);
      FilterOne(topic, send.message);
      FilterNone(topic);
    }
    UnheardInv(s, next);
  }

  /** A task that goes on without a send is heard by nobody. */
  lemma RephasedInv(s: State, id: Uuid, phase: Phase, counts: map<string, nat>)
    requires Inv(s) && (Idle(s, id) || Busy(s, id)) && (phase.Serving? || phase.Counted?)
    requires Shape(s.(counts := counts, tasks := s.tasks[id := s.tasks[id].(phase := phase)]))
    ensures Inv(s.(counts := counts, tasks := s.tasks[id := s.tasks[id].(phase := phase)]))
  {
    hide TaskOk, Filter, ToPeer;
    UnheardInv(s, s.(counts := counts, tasks := s.tasks[id := s.tasks[id].(phase := phase)]));
  }

  /** A request counted, but not yet carried out, is heard by nobody. */
  lemma AskInv(limits: Limits, s: State, id: Uuid, request: Request)
    requires Inv(s) && Idle(s, id)
    ensures Inv(ApplyAsk(limits, s, id, request))
  {
    var counts := ApplyAsk(limits, s, id, request).counts;
    AskShape(limits, s, id, request);
    hide Inv, Shape;
    if !CountRequest(limits, s.counts, s.tasks[id].group).0 {
      RefuseInv(s, id, counts);
    } else {
      RephasedInv(s, id, Counted(request), counts);
    }
  }

  /** The state after a counted SDP message for a target in the room. */
  function Relayed(s: State, id: Uuid, send: Send): State
    requires id in s.tasks
  {
    var task := s.tasks[id].(phase := Serving, pending := [send], relayed := s.tasks[id].relayed + [send]);
    s.(tasks := s.tasks[id := task])
  }

  lemma RelayedStream(s: State, id: Uuid, send: Send, p: Uuid, topic: Topic)
    requires Busy(s, id) && (send.message.Offer? || send.message.Answer?) && send.message.message.peer.id == id
    ensures Stream(Relayed(s, id, send), p, topic)
            == Stream(s, p, topic) + if topic == Sdp(id) && p == send.to then [send.message] else []
  {
    var next := Relayed(s, id, send);
    SayStream(s, id, next.tasks[id], next, p, topic);
    OnlyTo(send, p);
    FilterOne(topic, send.message);
  }

  lemma RelayedSdp(s: State, id: Uuid, send: Send, o: Uuid, t: Uuid)
    requires Busy(s, id) && SdpOk(s, o, t) && send.to in s.tasks
    requires (send.message.Offer? || send.message.Answer?) && send.message.message.peer.id == id
    ensures SdpOk(Relayed(s, id, send), o, t)
  {
    RelayedStream(s, id, send, t, Sdp(o));
    ToPeerAppend(s.tasks[id].relayed, [send], t);
    OnlyTo(send, t);
  }

  lemma RelayedInv(s: State, id: Uuid, send: Send)
    requires Inv(s) && Busy(s, id) && Shape(Relayed(s, id, send))
    requires (send.message.Offer? || send.message.Answer?) && send.message.message.peer.id == id && send.to in s.tasks
    ensures Inv(Relayed(s, id, send))
  {
    hide TaskOk, Stream, Filter, ToPeer;
    var next := Relayed(s, id, send);
    forall p, q ensures PairOk(next, p, q) {
      RelayedStream(s, id, send, p, News(q));
      assert PairOk(s, p, q);
    }
    forall p ensures GreetOk(next, p) {
      RelayedStream(s, id, send, p, Greeting);
      assert GreetOk(s, p);
    }
    forall o, t ensures SdpOk(next, o, t) {
      RelayedSdp(s, id, send, o, t);
    }
  }

  lemma OwnPeer(s: State, id: Uuid)
    requires Shape(s) && id in s.tasks
    ensures s.tasks[id].peer.id == id
  {
    assert TaskOk(s, id);
  }

  lemma SdpInv(s: State, id: Uuid, target: Uuid, sessionId: string, sdp: string, isOffer: bool)
    requires Inv(s) && Busy(s, id)
    ensures Inv(ApplySdp(s, id, target, sessionId, sdp, isOffer))
  {
    SdpShape(s, id, target, sessionId, sdp, isOffer);
    if target !in RoomOf(s, s.tasks[id].group) {
      RephasedInv(s, id, Serving, s.counts);
    } else {
      OwnPeer(s, id);
      RoomMates(s, id, target);
      hide Inv;
      RelayedInv(s, id, Send(target, Relay(s.tasks[id].peer, sessionId, sdp, isOffer)));
    }
  }

  /** The state after a counted update. */
  function Updated(s: State, id: Uuid, info: ClientInfoWithoutId, order: seq<Uuid>): State
    requires id in s.tasks
  {
    var task := s.tasks[id].(phase := Serving);
    s.(rooms := s.rooms[task.group := RoomOf(s, task.group)[id := info]],
       tasks := s.tasks[id := task.(pending := FanOut(order, Update(WithId(info, id))))])
  }

  lemma UpdatedStream(s: State, id: Uuid, info: ClientInfoWithoutId, order: seq<Uuid>, p: Uuid, topic: Topic)
    requires Busy(s, id) && IsOrder(order, RoomOf(s, s.tasks[id].group).Keys - {id})
    ensures Stream(Updated(s, id, info, order), p, topic)
            == Stream(s, p, topic) + if topic == News(id) && p in order then [Update(WithId(info, id))] else []
  {
    var next := Updated(s, id, info, order);
    var m := Update(WithId(info, id));
    SayStream(s, id, next.tasks[id], next, p, topic);
    ToPeerFanOut(order, m, p);
    FilterOne(topic, m);
  }

  lemma UpdatedPair(s: State, id: Uuid, info: ClientInfoWithoutId, order: seq<Uuid>, p: Uuid, q: Uuid)
    requires Inv(s) && Busy(s, id) && IsOrder(order, RoomOf(s, s.tasks[id].group).Keys - {id})
    ensures PairOk(Updated(s, id, info, order), p, q)
  {
    UpdatedStream(s, id, info, order, p, News(q));
    assert PairOk(s, p, q);
    InfoRoundTrip(info, id, WithId(info, id));
    if p in s.tasks && Live(s.tasks[p]) {
      assert TaskOk(s, p);
    }
  }

  lemma UpdateInv(s: State, id: Uuid, info: ClientInfoWithoutId, order: seq<Uuid>)
    requires Inv(s) && Busy(s, id) && IsOrder(order, RoomOf(s, s.tasks[id].group).Keys - {id})
    ensures Inv(ApplyUpdate(s, id, info, order))
  {
    var next := ApplyUpdate(s, id, info, order);
    UpdateShape(s, id, info, order);
    assert TaskOk(s, id);
    UpdatedInv(s, id, info, order);
  }

  lemma UpdatedInv(s: State, id: Uuid, info: ClientInfoWithoutId, order: seq<Uuid>)
    requires Inv(s) && Busy(s, id) && IsOrder(order, RoomOf(s, s.tasks[id].group).Keys - {id})
    requires Shape(Updated(s, id, info, order))
    ensures Inv(Updated(s, id, info, order))
  {
    hide TaskOk, Stream, Filter, ToPeer;
    var next := Updated(s, id, info, order);
    forall p, q ensures PairOk(next, p, q) {
      UpdatedPair(s, id, info, order, p, q);
    }
    forall p ensures GreetOk(next, p) {
      UpdatedStream(s, id, info, order, p, Greeting);
      assert GreetOk(s, p);
    }
    forall o, t ensures SdpOk(next, o, t) {
      UpdatedStream(s, id, info, order, t, Sdp(o));
      assert SdpOk(s, o, t);
    }
  }

  // ----- Disconnecting

  /** What was pending is dropped, and the rest of the room is told. */
  lemma LeftStream(s: State, id: Uuid, order: seq<Uuid>, p: Uuid, topic: Topic)
    requires Enabled(s, Disconnect(id, order))
    ensures var next := ApplyDisconnect(s, id, order);
            Stream(next, p, topic)
            == if Owner(topic, p) != id then Stream(s, p, topic)
               else Filter(topic, QueueOf(s, p)) + if topic == News(id) && p in order then [Left(id)] else []
  {
    hide Filter, ToPeer;
    ToPeerFanOut(order, Left(id), p);
    ToPeerNone([], p);
    FilterNone(topic);
    FilterOne(topic, Left(id));
    assert Filter(topic, QueueOf(s, p)) + [] == Filter(topic, QueueOf(s, p));
    if RoomOf(s, s.tasks[id].group) - {id} == map[] {
      assert p !in order;
    }
  }

  /** A task sends nothing to other groups. */
  lemma NothingAcross(s: State, id: Uuid, p: Uuid)
    requires Shape(s) && id in s.tasks && p in s.tasks && s.tasks[p].group != s.tasks[id].group
    ensures ToPeer(s.tasks[id].pending, p) == []
  {
    assert TaskOk(s, id);
    forall i | 0 <= i < |s.tasks[id].pending| ensures s.tasks[id].pending[i].to != p {
      assert SendOk(s, id, s.tasks[id].pending[i]);
    }
    ToPeerNone(s.tasks[id].pending, p);
  }

  /** Everything but the leaving task's streams, entry and phase stays. */
  ghost predicate Leaves(s: State, next: State, id: Uuid, order: seq<Uuid>)
    requires id in s.tasks
  {
    && next.tasks.Keys == s.tasks.Keys
    && (forall p :: p in s.tasks && p != id ==> next.tasks[p] == s.tasks[p])
    && next.tasks[id].phase.Gone? && next.tasks[id].relayed == s.tasks[id].relayed
    && (forall g :: RoomOf(next, g) == if g == s.tasks[id].group then RoomOf(s, g) - {id} else RoomOf(s, g))
    && (forall p, topic :: Stream(next, p, topic)
          == if Owner(topic, p) != id then Stream(s, p, topic)
             else Filter(topic, QueueOf(s, p)) + if topic == News(id) && p in order then [Left(id)] else [])
  }

  lemma DisconnectLeaves(s: State, id: Uuid, order: seq<Uuid>)
    requires Enabled(s, Disconnect(id, order))
    ensures Leaves(s, ApplyDisconnect(s, id, order), id, order)
  {
    hide Stream, Filter, TaskOk;
    forall p, topic
      ensures Stream(ApplyDisconnect(s, id, order), p, topic)
              == if Owner(topic, p) != id then Stream(s, p, topic)
                 else Filter(topic, QueueOf(s, p)) + if topic == News(id) && p in order then [Left(id)] else []
    {
      LeftStream(s, id, order, p, topic);
    }
  }

  /** What the others make of the one that left. */
  lemma LeftKnown(s: State, next: State, id: Uuid, order: seq<Uuid>, p: Uuid)
    requires Shape(s) && PairOk(s, p, id) && id in s.tasks && p in s.tasks && p != id && Live(s.tasks[p])
    requires IsOrder(order, RoomOf(s, s.tasks[id].group).Keys - {id})
    requires p in next.tasks && next.tasks[p] == s.tasks[p]
    requires RoomOf(next, s.tasks[p].group)
             == if s.tasks[p].group == s.tasks[id].group then RoomOf(s, s.tasks[p].group) - {id}
                                               else RoomOf(s, s.tasks[p].group)
    requires Stream(next, p, News(id)) == Filter(News(id), QueueOf(s, p)) + if p in order then [Left(id)] else []
    ensures PairOk(next, p, id)
  {
    assert TaskOk(s, p);
    if s.tasks[p].group != s.tasks[id].group {
      NothingAcross(s, id, p);
    } else {
      assert p in order;
    }
  }

  lemma LeftPair(s: State, next: State, id: Uuid, order: seq<Uuid>, p: Uuid, q: Uuid)
    requires Shape(s) && PairOk(s, p, q) && id in s.tasks && Leaves(s, next, id, order) && p != id
    requires IsOrder(order, RoomOf(s, s.tasks[id].group).Keys - {id})
    ensures PairOk(next, p, q)
  {
    hide Filter, ToPeer, TaskOk;
    if q != id {
      assert Owner(News(q), p) == q;
    } else if p in s.tasks && Live(s.tasks[p]) {
      assert Owner(News(id), p) == id;
      LeftKnown(s, next, id, order, p);
    }
  }

  lemma LeftSdp(s: State, next: State, o: Uuid, t: Uuid)
    requires SdpOk(s, o, t) && next.tasks.Keys == s.tasks.Keys
    requires o in s.tasks ==> next.tasks[o].relayed == s.tasks[o].relayed
    requires Stream(next, t, Sdp(o)) <= Stream(s, t, Sdp(o))
    requires o in s.tasks && Live(next.tasks[o]) ==> Live(s.tasks[o]) && Stream(next, t, Sdp(o)) == Stream(s, t, Sdp(o))
    ensures SdpOk(next, o, t)
  {}

  lemma LeavesSdp(s: State, next: State, id: Uuid, order: seq<Uuid>, o: Uuid, t: Uuid)
    requires id in s.tasks && Live(s.tasks[id]) && Leaves(s, next, id, order) && SdpOk(s, o, t)
    ensures SdpOk(next, o, t)
  {
    hide Filter, ToPeer;
    assert Owner(Sdp(o), t) == o;
    LeftSdp(s, next, o, t);
  }

  lemma LeavesGreet(s: State, next: State, id: Uuid, order: seq<Uuid>, p: Uuid)
    requires id in s.tasks && Leaves(s, next, id, order) && GreetOk(s, p)
    ensures GreetOk(next, p)
  {
    hide Stream, Filter, ToPeer;
    assert Owner(Greeting, p) == p;
  }

  lemma LeavesPair(s: State, next: State, id: Uuid, order: seq<Uuid>, p: Uuid, q: Uuid)
    requires Shape(s) && PairOk(s, p, q) && id in s.tasks && Leaves(s, next, id, order)
    requires IsOrder(order, RoomOf(s, s.tasks[id].group).Keys - {id})
    ensures PairOk(next, p, q)
  {
    if p != id {
      LeftPair(s, next, id, order, p, q);
    }
  }

  lemma LeavesInv(s: State, next: State, id: Uuid, order: seq<Uuid>)
    requires Inv(s) && Shape(next) && id in s.tasks && Live(s.tasks[id]) && Leaves(s, next, id, order)
    requires IsOrder(order, RoomOf(s, s.tasks[id].group).Keys - {id})
    ensures Inv(next)
  {
    forall p, q ensures PairOk(next, p, q) {
      assert PairOk(s, p, q);
      LeavesPair(s, next, id, order, p, q);
    }
    forall p ensures GreetOk(next, p) {
      assert GreetOk(s, p);
      LeavesGreet(s, next, id, order, p);
    }
    forall o, t ensures SdpOk(next, o, t) {
      assert SdpOk(s, o, t);
      LeavesSdp(s, next, id, order, o, t);
    }
  }

  lemma DisconnectInv(s: State, id: Uuid, order: seq<Uuid>)
    requires Inv(s) && Enabled(s, Disconnect(id, order))
    ensures Inv(ApplyDisconnect(s, id, order))
  {
    DisconnectShape(s, id, order);
    DisconnectLeaves(s, id, order);
    LeavesInv(s, ApplyDisconnect(s, id, order), id, order);
  }

  // ----- All runs

  lemma ServeInv(limits: Limits, s: State, id: Uuid, order: seq<Uuid>)
    requires Inv(s) && Enabled(s, Action.Serve(id, order))
    ensures Inv(Apply(limits, s, Action.Serve(id, order)))
  {
    match s.tasks[id].phase.request
    case NewInfo(info) => UpdateInv(s, id, info, order);
    case Relaying(target, sessionId, sdp, isOffer) => SdpInv(s, id, target, sessionId, sdp, isOffer);
  }

  lemma StepInv(limits: Limits, s: State, a: Action)
    requires Inv(s) && Enabled(s, a)
    ensures Inv(Apply(limits, s, a))
  {
    match a
    case Connect(peer, group, order) => ConnectInv(limits, s, peer, group, order);
    case Deliver(id) => DeliverInv(s, id);
    case Ask(id, request) => AskInv(limits, s, id, request);
    case Serve(id, order) => ServeInv(limits, s, id, order);
    case Disconnect(id, order) => DisconnectInv(s, id, order);
    case ClearCounts =>
      StepShape(limits, s, a);
      UnheardInv(s, Apply(limits, s, a));
  }

  lemma {:induction false} RunInv(limits: Limits, s: State, actions: seq<Action>)
    requires Inv(s) && Possible(limits, s, actions)
    ensures Inv(Run(limits, s, actions))
    decreases |actions|
  {
    if actions != [] {
      StepInv(limits, s, actions[0]);
      RunInv(limits, Apply(limits, s, actions[0]), actions[1..]);
    }
  }

  lemma EmptyInv()
    ensures Inv(EMPTY)
  {}

  // ----- What a client makes of its queue

  /** What a client that keeps one entry per peer id would know: it adds every peer of a hello, sets
      a peer on a join or update and forgets it on a left. */
  function ViewById(queue: seq<ServerMessage>, q: Uuid): Option<ClientInfoWithoutId> {
    if queue == [] then None
    else
      var m, before := queue[|queue| - 1], ViewById(queue[..|queue| - 1], q);
      if m.Hello? then
        if PeerIn(m.peers, q).Some? then PeerIn(m.peers, q) else before
      else if Matches(News(q), m) then Said(m)
      else before
  }

  /** The view after some messages without a hello. */
  lemma {:induction false} ViewWithoutHello(before: seq<ServerMessage>, late: seq<ServerMessage>, q: Uuid)
    requires Filter(Greeting, late) == []
    ensures var news := Filter(News(q), late);
            ViewById(before + late, q) == if news == [] then ViewById(before, q) else Said(news[|news| - 1])
    decreases |late|
  {
    hide Filter, PeerIn;
    FilterNone(News(q));
    if late == [] {
      assert before + late == before;
    } else {
      var n := |late| - 1;
      assert late == late[..n] + [late[n]];
      FilterAppend(Greeting, late[..n], [late[n]]);
      FilterAppend(News(q), late[..n], [late[n]]);
      FilterOne(Greeting, late[n]);
      FilterOne(News(q), late[n]);
      ViewWithoutHello(before, late[..n], q);
      assert (before + late)[..|before + late| - 1] == before + late[..n];
    }
  }

  /** The hello of a queue and what surrounds it. */
  ghost predicate Split(queue: seq<ServerMessage>, early: seq<ServerMessage>, hello: ServerMessage,
                        late: seq<ServerMessage>)
  {
    && queue == early + [hello] + late && hello.Hello?
    && Filter(Greeting, early) == [] && Filter(Greeting, late) == []
  }

  lemma {:induction false} SplitAtHello(queue: seq<ServerMessage>)
    returns (early: seq<ServerMessage>, late: seq<ServerMessage>)
    requires |Filter(Greeting, queue)| == 1
    ensures Split(queue, early, Filter(Greeting, queue)[0], late)
  {
    if Matches(Greeting, queue[0]) {
      early, late := [], queue[1..];
    } else {
      early, late := SplitAtHello(queue[1..]);
      early := [queue[0]] + early;
      assert early[1..] + [Filter(Greeting, queue)[0]] + late == queue[1..];
    }
  }

  /** The last news about `q` came before the hello, which lists `q`. */
  ghost predicate ListedLate(q: Uuid, early: seq<ServerMessage>, hello: ServerMessage, late: seq<ServerMessage>)
    requires hello.Hello?
  {
    Filter(News(q), late) == [] && Filter(News(q), early) != [] && PeerIn(hello.peers, q).Some?
  }

  /** The last news about `q` came before the hello, which lists `q` with something else. */
  ghost predicate Overwritten(q: Uuid, early: seq<ServerMessage>, hello: ServerMessage, late: seq<ServerMessage>)
    requires hello.Hello?
  {
    var news := Filter(News(q), early);
    ListedLate(q, early, hello, late) && PeerIn(hello.peers, q) != Said(news[|news| - 1])
  }

  lemma ViewAfterHello(early: seq<ServerMessage>, hello: ServerMessage, q: Uuid)
    requires hello.Hello?
    ensures ViewById(early + [hello], q) == if PeerIn(hello.peers, q).Some? then PeerIn(hello.peers, q)
            else ViewById(early, q)
  {
    assert (early + [hello])[..|early|] == early;
  }

  lemma ViewOfSplit(queue: seq<ServerMessage>, early: seq<ServerMessage>, hello: ServerMessage,
                    late: seq<ServerMessage>, q: Uuid, snapshot: Room)
    requires Split(queue, early, hello, late) && PeerIn(hello.peers, q) == Get(snapshot, q)
    ensures ViewById(queue, q) == (if ListedLate(q, early, hello, late) then PeerIn(hello.peers, q)
                                   else Know(snapshot, q, Filter(News(q), queue)))
    ensures var news := Filter(News(q), early);
            ListedLate(q, early, hello, late) ==> Know(snapshot, q, Filter(News(q), queue)) == Said(news[|news| - 1])
  {
    hide Filter, PeerIn;
    ViewWithoutHello(early + [hello], late, q);
    ViewWithoutHello([], early, q);
    assert [] + early == early;
    ViewAfterHello(early, hello, q);
    FilterAppend(News(q), early + [hello], late);
    FilterAppend(News(q), early, [hello]);
    FilterOne(News(q), hello);
    var news := Filter(News(q), early);
    assert news + [] == news;
  }

  /** A registered client with its hello received, and a peer with nothing left to send it. */
  ghost predicate Settled(s: State, p: Uuid, q: Uuid) {
    && p in s.tasks && Live(s.tasks[p])
    && ToPeer(PendingOf(s, p), p) == [] && ToPeer(PendingOf(s, q), p) == []
  }

  /** After any run, once nothing from `q` is under way to `p`, a client `p` with one entry per peer id
      knows `q` exactly as the server's room does, or not at all if the room does not hold it, unless
      news of `q` overtook the hello that lists it. */
  lemma ViewsConverge(limits: Limits, actions: seq<Action>, p: Uuid, q: Uuid)
    returns (early: seq<ServerMessage>, hello: ServerMessage, late: seq<ServerMessage>)
    requires Possible(limits, EMPTY, actions)
    requires Settled(Run(limits, EMPTY, actions), p, q) && p != q
    ensures var s := Run(limits, EMPTY, actions);
            && Split(QueueOf(s, p), early, hello, late)
            && (ViewById(QueueOf(s, p), q) == Get(RoomOf(s, s.tasks[p].group), q)
                <==> !Overwritten(q, early, hello, late))
  {
    EmptyInv();
    RunInv(limits, EMPTY, actions);
    early, hello, late := InvViews(Run(limits, EMPTY, actions), p, q);
  }

  lemma InvViews(s: State, p: Uuid, q: Uuid)
    returns (early: seq<ServerMessage>, hello: ServerMessage, late: seq<ServerMessage>)
    requires Inv(s) && Settled(s, p, q) && p != q
    ensures Split(QueueOf(s, p), early, hello, late)
    ensures var view, room := ViewById(QueueOf(s, p), q), Get(RoomOf(s, s.tasks[p].group), q);
            var news := Filter(News(q), early);
            && view == (if ListedLate(q, early, hello, late) then PeerIn(hello.peers, q) else room)
            && (ListedLate(q, early, hello, late) ==> room == Said(news[|news| - 1]))
    ensures ViewById(QueueOf(s, p), q) == Get(RoomOf(s, s.tasks[p].group), q) <==> !Overwritten(q, early, hello, late)
  {
    assert GreetOk(s, p) && PairOk(s, p, q);
    var queue := QueueOf(s, p);
    assert Stream(s, p, Greeting) == Filter(Greeting, queue);
    assert Stream(s, p, News(q)) == Filter(News(q), queue);
    hide Stream, Filter, ViewById;
    hello := Filter(Greeting, queue)[0];
    early, late := SplitAtHello(queue);
    ViewOfSplit(queue, early, hello, late, q, s.tasks[p].snapshot);
  }

  lemma HelloIsGreeting(queue: seq<ServerMessage>)
    requires Filter(Greeting, queue) == []
    ensures queue == [] || !queue[0].Hello?
  {}

  /** If the hello came first, that view is the room without the client itself. */
  lemma HelloFirstConverges(limits: Limits, actions: seq<Action>, p: Uuid, q: Uuid)
    requires Possible(limits, EMPTY, actions)
    requires var s := Run(limits, EMPTY, actions);
             Settled(s, p, q) && QueueOf(s, p) != [] && QueueOf(s, p)[0].Hello?
    ensures var s := Run(limits, EMPTY, actions);
            ViewById(QueueOf(s, p), q) == if p == q then None else Get(RoomOf(s, s.tasks[p].group), q)
  {
    var s := Run(limits, EMPTY, actions);
    EmptyInv();
    RunInv(limits, EMPTY, actions);
    if p == q {
      NotInOwnView(s, p);
    } else {
      var early, hello, late := InvViews(s, p, q);
      HelloIsGreeting(early);
    }
  }

  lemma NotInOwnView(s: State, p: Uuid)
    requires Inv(s) && Settled(s, p, p)
    ensures ViewById(QueueOf(s, p), p) == None
  {
    assert GreetOk(s, p) && PairOk(s, p, p);
    var queue := QueueOf(s, p);
    assert Stream(s, p, Greeting) == Filter(Greeting, queue);
    assert Stream(s, p, News(p)) == Filter(News(p), queue);
    var early, late := SplitAtHello(queue);
    var hello := Filter(Greeting, queue)[0];
    ViewOfSplit(queue, early, hello, late, p, s.tasks[p].snapshot);
  }

  /** Each room holds exactly the registered sockets of its group, and no socket is in two rooms. */
  lemma RoomsExact(limits: Limits, actions: seq<Action>, group: string, id: Uuid)
    requires Possible(limits, EMPTY, actions)
    ensures var s := Run(limits, EMPTY, actions);
            id in RoomOf(s, group) <==> id in s.tasks && Live(s.tasks[id]) && s.tasks[id].group == group
  {
    EmptyInv();
    RunInv(limits, EMPTY, actions);
    ShapeRooms(Run(limits, EMPTY, actions), group, id);
  }

  lemma ShapeRooms(s: State, group: string, id: Uuid)
    requires Shape(s)
    ensures id in RoomOf(s, group) <==> id in s.tasks && Live(s.tasks[id]) && s.tasks[id].group == group
  {
    if id in s.tasks {
      assert TaskOk(s, id);
    }
  }

  /** Between any two sockets the SDP messages arrive in the order and form in which they were
      accepted, none added; while the origin is connected none is lost either. */
  lemma RelayInOrder(limits: Limits, actions: seq<Action>, origin: Uuid, target: Uuid)
    requires Possible(limits, EMPTY, actions)
    requires origin in Run(limits, EMPTY, actions).tasks
    ensures var s := Run(limits, EMPTY, actions);
            var accepted := ToPeer(s.tasks[origin].relayed, target);
            var arrived := Filter(Sdp(origin), QueueOf(s, target));
            && arrived <= accepted
            && (Live(s.tasks[origin]) && ToPeer(s.tasks[origin].pending, target) == [] ==> arrived == accepted)
  {
    EmptyInv();
    RunInv(limits, EMPTY, actions);
    assert SdpOk(Run(limits, EMPTY, actions), origin, target);
  }
}
