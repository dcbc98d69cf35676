/** Invariants of the signaling server over all runs, and what the clients make of their queues. */
module RoomViews {
  import opened Prelude
  import opened Model
  import opened SignalingServer

  // ----- Messages by topic

  /** The hello of a client, what it hears about a peer, and the SDP messages it gets from a peer. */
  datatype Topic = Greeting | News(about: Uuid) | Sdp(origin: Uuid)

  predicate Matches(topic: Topic, m: ServerMessage) {
    match m
    case Hello(_, _) => topic.Greeting?
    case Join(peer) => topic == News(peer.id)
    case Update(peer) => topic == News(peer.id)
    case Left(id) => topic == News(id)
    case Offer(message) => topic == Sdp(message.peer.id)
    case Answer(message) => topic == Sdp(message.peer.id)
    case Error(_) => false
  }

  function Filter(topic: Topic, ms: seq<ServerMessage>): (r: seq<ServerMessage>)
    ensures forall i :: 0 <= i < |r| ==> Matches(topic, r[i])
  {
    if ms == [] then [] else (if Matches(topic, ms[0]) then [ms[0]] else []) + Filter(topic, ms[1..])
  }

  lemma {:induction false} FilterAppend(topic: Topic, a: seq<ServerMessage>, b: seq<ServerMessage>)
    ensures Filter(topic, a + b) == Filter(topic, a) + Filter(topic, b)
  {
    if a == [] {
      assert a + b == b;
    } else {
      var rest := a[1..];
      var head := if Matches(topic, a[0]) then [a[0]] else [];
      FilterAppend(topic, rest, b);
      assert (a + b)[1..] == rest + b && (a + b)[0] == a[0];
      assert Filter(topic, a + b) == head + Filter(topic, rest + b);
      Associative(head, Filter(topic, rest), Filter(topic, b));
    }
  }

  lemma FilterOne(topic: Topic, m: ServerMessage)
    ensures Filter(topic, [m]) == if Matches(topic, m) then [m] else []
  {
    assert [m][1..] == [];
  }

  /** The part of the pending sends that goes to one client. */
  function ToPeer(pending: seq<Send>, p: Uuid): seq<ServerMessage> {
    if pending == [] then [] else (if pending[0].to == p then [pending[0].message] else []) + ToPeer(pending[1..], p)
  }

  lemma {:induction false} ToPeerAppend(a: seq<Send>, b: seq<Send>, p: Uuid)
    ensures ToPeer(a + b, p) == ToPeer(a, p) + ToPeer(b, p)
  {
    if a == [] {
      assert a + b == b;
    } else {
      var rest := a[1..];
      var head := if a[0].to == p then [a[0].message] else [];
      ToPeerAppend(rest, b, p);
      assert (a + b)[1..] == rest + b && (a + b)[0] == a[0];
      assert ToPeer(a + b, p) == head + ToPeer(rest + b, p);
      Associative(head, ToPeer(rest, p), ToPeer(b, p));
    }
  }

  lemma {:induction false} ToPeerFanOut(order: seq<Uuid>, m: ServerMessage, p: Uuid)
    requires forall i, j :: 0 <= i < j < |order| ==> order[i] != order[j]
    ensures ToPeer(FanOut(order, m), p) == if p in order then [m] else []
  {
    if order != [] {
      assert FanOut(order, m)[1..] == FanOut(order[1..], m);
      ToPeerFanOut(order[1..], m, p);
      assert order == [order[0]] + order[1..];
    }
  }

  lemma {:induction false} ToPeerNone(pending: seq<Send>, p: Uuid)
    requires forall i :: 0 <= i < |pending| ==> pending[i].to != p
    ensures ToPeer(pending, p) == []
  {
    if pending != [] {
      ToPeerNone(pending[1..], p);
    }
  }

  /** Messages of a topic to `p` come from one task only. */
  function Owner(topic: Topic, p: Uuid): Uuid {
    match topic
    case Greeting => p
    case News(q) => q
    case Sdp(o) => o
  }

  function PendingOf(s: State, id: Uuid): seq<Send> {
    if id in s.tasks then s.tasks[id].pending else []
  }

  function QueueOf(s: State, id: Uuid): seq<ServerMessage> {
    if id in s.queues then s.queues[id] else []
  }

  /** What `p` has got or will get on a topic, in order. */
  function Stream(s: State, p: Uuid, topic: Topic): seq<ServerMessage> {
    Filter(topic, QueueOf(s, p)) + Filter(topic, ToPeer(PendingOf(s, Owner(topic, p)), p))
  }

  // ----- Rooms and tasks

  predicate Live(t: Task) {
    !t.phase.Gone?
  }

  ghost predicate Belongs(id: Uuid, send: Send) {
    match send.message
    case Hello(_, _) => send.to == id
    case Join(peer) => peer.id == id != send.to
    case Update(peer) => peer.id == id != send.to
    case Left(peerId) => peerId == id != send.to
    case Offer(message) => message.peer.id == id
    case Answer(message) => message.peer.id == id
    case Error(_) => true
  }

  /** Sends stay inside the room's group and speak for their own task. */
  ghost predicate SendOk(s: State, id: Uuid, send: Send)
    requires id in s.tasks
  {
    send.to in s.tasks && s.tasks[send.to].group == s.tasks[id].group && Belongs(id, send)
  }

  ghost predicate TaskOk(s: State, id: Uuid)
    requires id in s.tasks
  {
    var t := s.tasks[id];
    && t.peer.id == id
    && (Live(t) ==> id in RoomOf(s, t.group))
    && (t.phase.Joining? ==> t.pending != [])
    && (!t.phase.Joining? ==> forall i :: 0 <= i < |t.pending| ==> !t.pending[i].message.Hello?)
    && forall i :: 0 <= i < |t.pending| ==> SendOk(s, id, t.pending[i])
  }

  /** Each room holds exactly the sockets registered and not yet cleaned up. */
  ghost predicate Shape(s: State) {
    && s.queues.Keys == s.tasks.Keys
    && (forall id :: id in s.tasks ==> TaskOk(s, id))
    && (forall g, id :: g in s.rooms && id in s.rooms[g] ==>
          id in s.tasks && Live(s.tasks[id]) && s.tasks[id].group == g)
  }

  /** A task not touched by a step that keeps groups and its room entry stays in order. */
  lemma TaskOkKept(s: State, next: State, id: Uuid)
    requires id in s.tasks && TaskOk(s, id) && id in next.tasks && next.tasks[id] == s.tasks[id]
    requires forall x :: x in s.tasks ==> x in next.tasks && next.tasks[x].group == s.tasks[x].group
    requires Live(s.tasks[id]) ==> id in RoomOf(next, s.tasks[id].group)
    ensures TaskOk(next, id)
  {
    var t := s.tasks[id];
    forall i | 0 <= i < |t.pending| ensures SendOk(next, id, t.pending[i]) {
      assert SendOk(s, id, t.pending[i]);
    }
  }

  /** The task of an admitted socket. */
  function NewTask(s: State, peer: ClientInfo, group: string, order: seq<Uuid>): Task
    requires forall id :: id in order ==> id in RoomOf(s, group)
  {
    var room := RoomOf(s, group);
    Task(group, peer, Joining, room, FanOut(order, Join(peer)) + [Send(peer.id, Hello(peer, Listing(room, order)))], [])
  }

  function Admitted(s: State, t: Task, counts: map<string, nat>): State {
    State(s.rooms[t.group := RoomOf(s, t.group)[t.peer.id := t.peer.WithoutId()]], counts,
          s.tasks[t.peer.id := t], s.queues[t.peer.id := []])
  }

  function TurnedAway(s: State, group: string, counts: map<string, nat>): State {
    s.(rooms := s.rooms[group := RoomOf(s, group)], counts := counts)
  }

  lemma ConnectOutcome(limits: Limits, s: State, peer: ClientInfo, group: string, order: seq<Uuid>)
    requires Enabled(s, Connect(peer, group, order))
    ensures var next := ApplyConnect(limits, s, peer, group, order);
            || next == TurnedAway(s, group, next.counts)
            || next == Admitted(s, NewTask(s, peer, group, order), next.counts)
  {}

  lemma NewTaskOk(s: State, peer: ClientInfo, group: string, order: seq<Uuid>, counts: map<string, nat>)
    requires Shape(s) && Enabled(s, Connect(peer, group, order))
    ensures TaskOk(Admitted(s, NewTask(s, peer, group, order), counts), peer.id)
  {
    var t := NewTask(s, peer, group, order);
    var next := Admitted(s, t, counts);
    forall i | 0 <= i < |t.pending| ensures SendOk(next, peer.id, t.pending[i]) {
      if i < |order| {
        assert order[i] in order;
        assert order[i] in s.tasks && s.tasks[order[i]].group == group;
      }
    }
  }

  lemma AdmittedOther(s: State, t: Task, counts: map<string, nat>, id: Uuid)
    requires Shape(s) && t.peer.id !in s.tasks && id in s.tasks
    ensures TaskOk(Admitted(s, t, counts), id)
  {
    assert TaskOk(s, id);
    TaskOkKept(s, Admitted(s, t, counts), id);
  }

  lemma AdmittedShape(s: State, t: Task, counts: map<string, nat>)
    requires Shape(s) && t.peer.id !in s.tasks && Live(t)
    requires TaskOk(Admitted(s, t, counts), t.peer.id)
    ensures Shape(Admitted(s, t, counts))
  {
    hide TaskOk;
    forall id | id in s.tasks ensures TaskOk(Admitted(s, t, counts), id) {
      AdmittedOther(s, t, counts, id);
    }
  }

  lemma TurnedAwayShape(s: State, group: string, counts: map<string, nat>)
    requires Shape(s)
    ensures Shape(TurnedAway(s, group, counts))
  {
    var next := TurnedAway(s, group, counts);
    forall id | id in next.tasks ensures TaskOk(next, id) {
      assert TaskOk(s, id);
      TaskOkKept(s, next, id);
    }
  }

  lemma ConnectShape(limits: Limits, s: State, peer: ClientInfo, group: string, order: seq<Uuid>)
    requires Shape(s) && Enabled(s, Connect(peer, group, order))
    ensures Shape(ApplyConnect(limits, s, peer, group, order))
  {
    var counts := ApplyConnect(limits, s, peer, group, order).counts;
    ConnectOutcome(limits, s, peer, group, order);
    TurnedAwayShape(s, group, counts);
    NewTaskOk(s, peer, group, order, counts);
    AdmittedShape(s, NewTask(s, peer, group, order), counts);
  }

  lemma DelivererOk(s: State, id: Uuid)
    requires Shape(s) && Enabled(s, Deliver(id))
    ensures TaskOk(ApplyDeliver(s, id), id)
  {
    var next := ApplyDeliver(s, id);
    assert TaskOk(s, id);
    var t := next.tasks[id];
    forall i | 0 <= i < |t.pending| ensures SendOk(next, id, t.pending[i]) {
      assert SendOk(s, id, s.tasks[id].pending[i + 1]);
    }
  }

  lemma DeliverShape(s: State, id: Uuid)
    requires Shape(s) && Enabled(s, Deliver(id))
    ensures Shape(ApplyDeliver(s, id))
  {
    hide SendOk;
    var next := ApplyDeliver(s, id);
    DelivererOk(s, id);
    forall x | x in next.tasks && x != id ensures TaskOk(next, x) {
      assert TaskOk(s, x);
      TaskOkKept(s, next, x);
    }
  }

  function Repended(s: State, id: Uuid, t: Task, rooms: map<string, Room>, counts: map<string, nat>): State {
    s.(rooms := rooms, counts := counts, tasks := s.tasks[id := t])
  }

  ghost predicate OnlyOk(s: State, id: Uuid, sends: seq<Send>)
    requires id in s.tasks
  {
    forall i :: 0 <= i < |sends| ==> SendOk(s, id, sends[i]) && !sends[i].message.Hello?
  }

  /** A step that replaces the pending sends of one task. */
  ghost predicate Repends(s: State, id: Uuid, t: Task, rooms: map<string, Room>) {
    && id in s.tasks && t.group == s.tasks[id].group && t.peer == s.tasks[id].peer && !t.phase.Joining?
    && OnlyOk(s, id, t.pending)
    && (forall g :: g != t.group ==> (g in rooms <==> g in s.rooms) && (g in rooms ==> rooms[g] == s.rooms[g]))
    && (var room := if t.group in rooms then rooms[t.group] else map[];
        room.Keys == if Live(t) then RoomOf(s, t.group).Keys else RoomOf(s, t.group).Keys - {id})
    && (Live(t) ==> Live(s.tasks[id]))
  }

  lemma RependedTask(s: State, id: Uuid, t: Task, rooms: map<string, Room>, counts: map<string, nat>)
    requires Shape(s) && Repends(s, id, t, rooms)
    ensures TaskOk(Repended(s, id, t, rooms, counts), id)
  {
    var next := Repended(s, id, t, rooms, counts);
    assert TaskOk(s, id);
    forall i | 0 <= i < |t.pending| ensures SendOk(next, id, t.pending[i]) {
      assert SendOk(s, id, t.pending[i]);
    }
  }

  lemma RependedOther(s: State, id: Uuid, t: Task, rooms: map<string, Room>, counts: map<string, nat>, x: Uuid)
    requires Shape(s) && Repends(s, id, t, rooms) && x in s.tasks && x != id
    ensures TaskOk(Repended(s, id, t, rooms, counts), x)
  {
    var next := Repended(s, id, t, rooms, counts);
    assert TaskOk(s, x);
    TaskOkKept(s, next, x);
  }

  lemma RependedResident(s: State, id: Uuid, t: Task, rooms: map<string, Room>, g: string, x: Uuid)
    requires Shape(s) && Repends(s, id, t, rooms) && g in rooms && x in rooms[g]
    ensures x in s.tasks && if x == id then Live(t) && t.group == g else Live(s.tasks[x]) && s.tasks[x].group == g
  {
    assert x in RoomOf(s, g);
  }

  lemma RependShape(s: State, id: Uuid, t: Task, rooms: map<string, Room>, counts: map<string, nat>)
    requires Shape(s) && Repends(s, id, t, rooms)
    ensures Shape(Repended(s, id, t, rooms, counts))
  {
    var next := Repended(s, id, t, rooms, counts);
    forall x | x in next.tasks ensures TaskOk(next, x) {
      if x == id {
        RependedTask(s, id, t, rooms, counts);
      } else {
        RependedOther(s, id, t, rooms, counts, x);
      }
    }
    forall g, x | g in next.rooms && x in next.rooms[g]
      ensures x in next.tasks && Live(next.tasks[x]) && next.tasks[x].group == g
    {
      RependedResident(s, id, t, rooms, g, x);
    }
  }

  lemma RoomMates(s: State, id: Uuid, other: Uuid)
    requires Shape(s) && id in s.tasks && other in RoomOf(s, s.tasks[id].group)
    ensures other in s.tasks && s.tasks[other].group == s.tasks[id].group
  {}

  lemma AskShape(limits: Limits, s: State, id: Uuid, request: Request)
    requires Shape(s) && Idle(s, id)
    ensures Shape(ApplyAsk(limits, s, id, request))
  {
    var next := ApplyAsk(limits, s, id, request);
    assert TaskOk(s, id);
    RependShape(s, id, next.tasks[id], next.rooms, next.counts);
    assert next == Repended(s, id, next.tasks[id], next.rooms, next.counts);
  }

  lemma UpdateShape(s: State, id: Uuid, info: ClientInfoWithoutId, order: seq<Uuid>)
    requires Shape(s) && Busy(s, id) && IsOrder(order, RoomOf(s, s.tasks[id].group).Keys - {id})
    ensures Shape(ApplyUpdate(s, id, info, order))
  {
    var next := ApplyUpdate(s, id, info, order);
    assert TaskOk(s, id);
    forall i | 0 <= i < |next.tasks[id].pending| ensures SendOk(s, id, next.tasks[id].pending[i]) {
      assert order[i] in order;
      RoomMates(s, id, order[i]);
    }
    RependShape(s, id, next.tasks[id], next.rooms, next.counts);
    assert next == Repended(s, id, next.tasks[id], next.rooms, next.counts);
  }

  lemma SdpSends(s: State, id: Uuid, target: Uuid, sessionId: string, sdp: string, isOffer: bool)
    requires Shape(s) && Busy(s, id)
    ensures OnlyOk(s, id, ApplySdp(s, id, target, sessionId, sdp, isOffer).tasks[id].pending)
  {
    assert TaskOk(s, id);
    if target in RoomOf(s, s.tasks[id].group) {
      RoomMates(s, id, target);
    }
  }

  /** The frame of a step of one task: with sends in order it keeps the shape. */
  lemma SdpRepends(s: State, id: Uuid, target: Uuid, sessionId: string, sdp: string, isOffer: bool)
    requires Busy(s, id)
    ensures var next := ApplySdp(s, id, target, sessionId, sdp, isOffer);
            && next == Repended(s, id, next.tasks[id], next.rooms, next.counts)
            && (OnlyOk(s, id, next.tasks[id].pending) ==> Repends(s, id, next.tasks[id], next.rooms))
  {}

  lemma SdpShape(s: State, id: Uuid, target: Uuid, sessionId: string, sdp: string, isOffer: bool)
    requires Shape(s) && Busy(s, id)
    ensures Shape(ApplySdp(s, id, target, sessionId, sdp, isOffer))
  {
    var next := ApplySdp(s, id, target, sessionId, sdp, isOffer);
    SdpSends(s, id, target, sessionId, sdp, isOffer);
    SdpRepends(s, id, target, sessionId, sdp, isOffer);
    RependShape(s, id, next.tasks[id], next.rooms, next.counts);
  }

  lemma ServeShape(limits: Limits, s: State, id: Uuid, order: seq<Uuid>)
    requires Shape(s) && Enabled(s, Action.Serve(id, order))
    ensures Shape(Apply(limits, s, Action.Serve(id, order)))
  {
    match s.tasks[id].phase.request
    case NewInfo(info) => UpdateShape(s, id, info, order);
    case Relaying(target, sessionId, sdp, isOffer) => SdpShape(s, id, target, sessionId, sdp, isOffer);
  }

  lemma LeavingSends(s: State, id: Uuid, order: seq<Uuid>)
    requires Shape(s) && Enabled(s, Disconnect(id, order))
    ensures var pending := ApplyDisconnect(s, id, order).tasks[id].pending;
            OnlyOk(s, id, pending)
  {
    var pending := ApplyDisconnect(s, id, order).tasks[id].pending;
    forall i | 0 <= i < |pending| ensures SendOk(s, id, pending[i]) && !pending[i].message.Hello? {
      assert order[i] in order;
      RoomMates(s, id, order[i]);
    }
  }

  lemma DisconnectRepends(s: State, id: Uuid, order: seq<Uuid>)
    requires id in s.tasks && !s.tasks[id].phase.Joining? && !s.tasks[id].phase.Gone?
    ensures var next := ApplyDisconnect(s, id, order);
            && next == Repended(s, id, next.tasks[id], next.rooms, next.counts)
            && (OnlyOk(s, id, next.tasks[id].pending) ==> Repends(s, id, next.tasks[id], next.rooms))
  {}

  lemma DisconnectShape(s: State, id: Uuid, order: seq<Uuid>)
    requires Shape(s) && Enabled(s, Disconnect(id, order))
    ensures Shape(ApplyDisconnect(s, id, order))
  {
    var next := ApplyDisconnect(s, id, order);
    LeavingSends(s, id, order);
    DisconnectRepends(s, id, order);
    RependShape(s, id, next.tasks[id], next.rooms, next.counts);
  }

  lemma StepShape(limits: Limits, s: State, a: Action)
    requires Shape(s) && Enabled(s, a)
    ensures Shape(Apply(limits, s, a))
  {
    match a
    case Connect(peer, group, order) => ConnectShape(limits, s, peer, group, order);
    case Deliver(id) => DeliverShape(s, id);
    case Ask(id, request) => AskShape(limits, s, id, request);
    case Serve(id, order) => ServeShape(limits, s, id, order);
    case Disconnect(id, order) => DisconnectShape(s, id, order);
    case ClearCounts =>
      forall id | id in s.tasks ensures TaskOk(Apply(limits, s, a), id) {
        TaskOkKept(s, Apply(limits, s, a), id);
      }
  }
}
