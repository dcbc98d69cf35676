/** `handle_socket`: one task per socket over the two locked maps. A lock section is one step; the
    sends it prepared are later steps of their own. */
module SignalingServer {
  import opened Prelude
  import opened Model

  type Room = map<Uuid, ClientInfoWithoutId>

  datatype Limits = Limits(maxConnections: nat, maxRequests: nat)

  const TOO_MANY_REQUESTS: u16 := 429

  /** A message a task is about to put into a queue. */
  datatype Send = Send(to: Uuid, message: ServerMessage)

  datatype Request =
    | NewInfo(info: ClientInfoWithoutId)
    | Relaying(target: Uuid, sessionId: string, sdp: string, isOffer: bool)

  /** Sending joins and hello; serving client messages; a request counted but not yet carried out;
      over quota; cleaned up. */
  datatype Phase = Joining | Serving | Counted(request: Request) | OverQuota | Gone

  /** `peer` is the information given at connect time, `snapshot` the room found then and
      `relayed` the SDP messages accepted from this client. */
  datatype Task = Task(
    group: string, peer: ClientInfo, phase: Phase, snapshot: Room, pending: seq<Send>, relayed: seq<Send>)

  /** `queues` holds everything ever put into a client's queue, oldest first. */
  datatype State = State(
    rooms: map<string, Room>, counts: map<string, nat>,
    tasks: map<Uuid, Task>, queues: map<Uuid, seq<ServerMessage>>)

  function RoomOf(s: State, group: string): Room {
    if group in s.rooms then s.rooms[group] else map[]
  }

  /** The order in which a hash map happens to list its keys. */
  ghost predicate IsOrder(order: seq<Uuid>, keys: set<Uuid>) {
    && (forall id :: id in order <==> id in keys)
    && (forall i, j :: 0 <= i < j < |order| ==> order[i] != order[j])
  }

  function FanOut(order: seq<Uuid>, message: ServerMessage): (sends: seq<Send>)
    ensures |sends| == |order|
    ensures forall i :: 0 <= i < |sends| ==> sends[i] == Send(order[i], message)
  {
    seq(|order|, i requires 0 <= i < |order| => Send(order[i], message))
  }

  function Listing(room: Room, order: seq<Uuid>): (peers: seq<ClientInfo>)
    requires forall id :: id in order ==> id in room
    ensures |peers| == |order|
    ensures forall i :: 0 <= i < |peers| ==> peers[i] == WithId(room[order[i]], order[i])
  {
    seq(|order|, i requires 0 <= i < |order| => WithId(room[order[i]], order[i]))
  }

  // ----- The lock sections and sends as steps

  function CountOf(counts: map<string, nat>, group: string): nat {
    if group in counts then counts[group] else 0
  }

  /** `protect_ddos_request_count`: whether the request is served, and the counts after it. */
  function CountRequest(limits: Limits, counts: map<string, nat>, group: string): (r: (bool, map<string, nat>)) {
    var count := CountOf(counts, group);
    if count >= limits.maxRequests then (false, counts[group := count]) else (true, counts[group := count + 1])
  }

  datatype Action =
    | Connect(peer: ClientInfo, group: string, order: seq<Uuid>)
    | Deliver(id: Uuid)
    | Ask(id: Uuid, request: Request)
    | Serve(id: Uuid, order: seq<Uuid>)
    | Disconnect(id: Uuid, order: seq<Uuid>)
    | ClearCounts

  ghost predicate Enabled(s: State, a: Action) {
    match a
    case Connect(peer, group, order) => peer.id !in s.tasks && IsOrder(order, RoomOf(s, group).Keys)
    case Deliver(id) => id in s.tasks && s.tasks[id].pending != [] && s.tasks[id].pending[0].to in s.queues
    case Ask(id, _) => Idle(s, id)
    case Serve(id, order) => Busy(s, id) && IsOrder(order, RoomOf(s, s.tasks[id].group).Keys - {id})
    case Disconnect(id, order) =>
      && id in s.tasks && !s.tasks[id].phase.Joining? && !s.tasks[id].phase.Gone?
      && IsOrder(order, RoomOf(s, s.tasks[id].group).Keys - {id})
    case ClearCounts => true
  }

  /** The receive task waits for the client's next message. */
  predicate Idle(s: State, id: Uuid) {
    id in s.tasks && s.tasks[id].phase.Serving? && s.tasks[id].pending == []
  }

  /** The receive task is between the two lock sections of a request. */
  predicate Busy(s: State, id: Uuid) {
    id in s.tasks && s.tasks[id].phase.Counted? && s.tasks[id].pending == []
  }

  function Apply(limits: Limits, s: State, a: Action): State
    requires Enabled(s, a)
  {
    match a
    case Connect(peer, group, order) => ApplyConnect(limits, s, peer, group, order)
    case Deliver(id) => ApplyDeliver(s, id)
    case Ask(id, request) => ApplyAsk(limits, s, id, request)
    case Serve(id, order) =>
      (match s.tasks[id].phase.request
       case NewInfo(info) => ApplyUpdate(s, id, info, order)
       case Relaying(target, sessionId, sdp, isOffer) => ApplySdp(s, id, target, sessionId, sdp, isOffer))
    case Disconnect(id, order) => ApplyDisconnect(s, id, order)
    case ClearCounts => s.(counts := map[])
  }

  function ApplyConnect(limits: Limits, s: State, peer: ClientInfo, group: string, order: seq<Uuid>): State
    requires forall id :: id in order ==> id in RoomOf(s, group)
  {
    var room := RoomOf(s, group);
    if |room| >= limits.maxConnections then s.(rooms := s.rooms[group := room])
    else
      var (served, counts) := CountRequest(limits, s.counts, group);
      if !served then s.(rooms := s.rooms[group := room], counts := counts)
      else
        var hello := Send(peer.id, Hello(peer, Listing(room, order)));
        var task := Task(group, peer, Joining, room, FanOut(order, Join(peer)) + [hello], []);
        State(s.rooms[group := room[peer.id := peer.WithoutId()]], counts,
              s.tasks[peer.id := task], s.queues[peer.id := []])
  }

  function ApplyDeliver(s: State, id: Uuid): State
    requires id in s.tasks && s.tasks[id].pending != [] && s.tasks[id].pending[0].to in s.queues
  {
    var task := s.tasks[id];
    var send := task.pending[0];
    var rest := task.pending[1..];
    var phase := if task.phase.Joining? && rest == [] then Serving else task.phase;
    s.(tasks := s.tasks[id := task.(pending := rest, phase := phase)],
       queues := s.queues[send.to := s.queues[send.to] + [send.message]])
  }

  function Refuse(s: State, id: Uuid, counts: map<string, nat>): State
    requires id in s.tasks
  {
    s.(counts := counts,
       tasks := s.tasks[id := s.tasks[id].(phase := OverQuota, pending := [Send(id, Error(TOO_MANY_REQUESTS))])])
  }

  /** The first lock section of a request. */
  function ApplyAsk(limits: Limits, s: State, id: Uuid, request: Request): State
    requires id in s.tasks
  {
    var (served, counts) := CountRequest(limits, s.counts, s.tasks[id].group);
    if !served then Refuse(s, id, counts)
    else s.(counts := counts, tasks := s.tasks[id := s.tasks[id].(phase := Counted(request))])
  }

  function ApplyUpdate(s: State, id: Uuid, info: ClientInfoWithoutId, order: seq<Uuid>): State
    requires id in s.tasks
  {
    var task := s.tasks[id].(phase := Serving);
    var room := RoomOf(s, task.group);
    if id !in room then s.(tasks := s.tasks[id := task])
    else
      s.(rooms := s.rooms[task.group := room[id := info]],
         tasks := s.tasks[id := task.(pending := FanOut(order, Update(WithId(info, id))))])
  }

  /** The relayed message carries the connect-time information of its origin. */
  function Relay(origin: ClientInfo, sessionId: string, sdp: string, isOffer: bool): ServerMessage {
    var message := SdpMessage(origin, sessionId, sdp);
    if isOffer then Offer(message) else Answer(message)
  }

  function ApplySdp(s: State, id: Uuid, target: Uuid, sessionId: string, sdp: string, isOffer: bool): State
    requires id in s.tasks
  {
    var task := s.tasks[id].(phase := Serving);
    if target !in RoomOf(s, task.group) then s.(tasks := s.tasks[id := task])
    else
      var send := Send(target, Relay(task.peer, sessionId, sdp, isOffer));
      s.(tasks := s.tasks[id := task.(pending := [send], relayed := task.relayed + [send])])
  }

  /** What the receive task had not done yet, a counted request or a send, is dropped when it is
      aborted. */
  function ApplyDisconnect(s: State, id: Uuid, order: seq<Uuid>): State
    requires id in s.tasks
  {
    var task := s.tasks[id];
    var room := RoomOf(s, task.group) - {id};
    if room == map[] then
      s.(rooms := s.rooms - {task.group}, tasks := s.tasks[id := task.(phase := Gone, pending := [])])
    else
      s.(rooms := s.rooms[task.group := room],
         tasks := s.tasks[id := task.(phase := Gone, pending := FanOut(order, Left(id)))])
  }

  const EMPTY: State := State(map[], map[], map[], map[])

  ghost predicate Possible(limits: Limits, s: State, actions: seq<Action>)
    decreases |actions|
  {
    actions != [] ==> Enabled(s, actions[0]) && Possible(limits, Apply(limits, s, actions[0]), actions[1..])
  }

  function Run(limits: Limits, s: State, actions: seq<Action>): State
    requires Possible(limits, s, actions)
    decreases |actions|
  {
    if actions == [] then s else Run(limits, Apply(limits, s, actions[0]), actions[1..])
  }

  // ----- The shared maps, mutated in place

  class Server {
    var txMap: map<string, Room>
    var requestCountMap: map<string, nat>
    var tasks: map<Uuid, Task>
    var queues: map<Uuid, seq<ServerMessage>>
    const limits: Limits

    function Now(): State
      reads this
    {
      State(txMap, requestCountMap, tasks, queues)
    }

    constructor (limits: Limits)
      ensures Now() == EMPTY && this.limits == limits
    {
      this.limits := limits;
      txMap, requestCountMap, tasks, queues := map[], map[], map[], map[];
    }

    /** `protect_ddos_request_count`. */
    method ProtectRequestCount(group: string) returns (served: bool)
      modifies this`requestCountMap
      ensures (served, requestCountMap) == CountRequest(limits, old(requestCountMap), group)
    {
      if group !in requestCountMap {
        requestCountMap := requestCountMap[group := 0];
      }
      var count := requestCountMap[group];
      assert requestCountMap == old(requestCountMap)[group := count];
      if count >= limits.maxRequests {
        return false;
      }
      requestCountMap := requestCountMap[group := count + 1];
      assert requestCountMap == old(requestCountMap)[group := count + 1];
      return true;
    }

    /** The first lock section of `handle_socket`. */
    method Register(peer: ClientInfo, group: string, order: seq<Uuid>) returns (limitReached: bool)
      requires Enabled(Now(), Action.Connect(peer, group, order))
      modifies this
      ensures Now() == Apply(limits, old(Now()), Action.Connect(peer, group, order))
      ensures limitReached <==> peer.id !in tasks
    {
      if group !in txMap {
        txMap := txMap[group := map[]];
      }
      var room := txMap[group];
      if |room| >= limits.maxConnections {
        return true;
      }
      var served := ProtectRequestCount(group);
      if !served {
        return true;
      }
      Insert(peer, group, room, order);
      ghost var joined: Room := room[peer.id := peer.WithoutId()];
      assert txMap == old(txMap)[group := joined];
      return false;
    }

    method Insert(peer: ClientInfo, group: string, room: Room, order: seq<Uuid>)
      requires forall id :: id in order ==> id in room
      modifies this`txMap, this`tasks, this`queues
      ensures txMap == old(txMap)[group := room[peer.id := peer.WithoutId()]]
      ensures tasks == old(tasks)[peer.id := Task(group, peer, Joining, room,
                         FanOut(order, Join(peer)) + [Send(peer.id, Hello(peer, Listing(room, order)))], [])]
      ensures queues == old(queues)[peer.id := []]
    {
      var hello := Send(peer.id, Hello(peer, Listing(room, order)));
      var joined: Room := room[peer.id := peer.WithoutId()];
      txMap := txMap[group := joined];
      tasks := tasks[peer.id := Task(group, peer, Joining, room, FanOut(order, Join(peer)) + [hello], [])];
      queues := queues[peer.id := []];
    }

    /** One send of a task, outside the lock. */
    method SendNext(id: Uuid)
      requires Enabled(Now(), Deliver(id))
      modifies this
      ensures Now() == Apply(limits, old(Now()), Deliver(id))
    {
      var task := tasks[id];
      var send := task.pending[0];
      queues := queues[send.to := queues[send.to] + [send.message]];
      task := task.(pending := task.pending[1..]);
      if task.phase.Joining? && task.pending == [] {
        task := task.(phase := Serving);
      }
      tasks := tasks[id := task];
    }

    /** The rate check of the receive task. */
    method HandleRequest(id: Uuid, request: Request)
      requires Enabled(Now(), Ask(id, request))
      modifies this
      ensures Now() == Apply(limits, old(Now()), Ask(id, request))
    {
      var task := tasks[id];
      var served := ProtectRequestCount(task.group);
      if served {
        tasks := tasks[id := task.(phase := Counted(request))];
      } else {
        tasks := tasks[id := task.(phase := OverQuota, pending := [Send(id, Error(TOO_MANY_REQUESTS))])];
      }
    }

    /** `send_update_to_other_peers_with_lock`. */
    method HandleUpdate(id: Uuid, order: seq<Uuid>)
      requires Enabled(Now(), Action.Serve(id, order)) && tasks[id].phase.request.NewInfo?
      modifies this
      ensures Now() == Apply(limits, old(Now()), Action.Serve(id, order))
    {
      var info := tasks[id].phase.request.info;
      var task := tasks[id].(phase := Serving);
      if task.group in txMap && id in txMap[task.group] {
        var updated: Room := txMap[task.group][id := info];
        txMap := txMap[task.group := updated];
        task := task.(pending := FanOut(order, Update(WithId(info, id))));
      }
      tasks := tasks[id := task];
    }

    /** `send_to_peer_with_lock`. */
    method HandleSdp(id: Uuid, order: seq<Uuid>)
      requires Enabled(Now(), Action.Serve(id, order)) && tasks[id].phase.request.Relaying?
      modifies this
      ensures Now() == Apply(limits, old(Now()), Action.Serve(id, order))
    {
      var request := tasks[id].phase.request;
      var task := tasks[id].(phase := Serving);
      if task.group in txMap && request.target in txMap[task.group] {
        var send := Send(request.target, Relay(task.peer, request.sessionId, request.sdp, request.isOffer));
        task := task.(pending := [send], relayed := task.relayed + [send]);
      }
      tasks := tasks[id := task];
    }

    /** The last lock section of `handle_socket`. */
    method Cleanup(id: Uuid, order: seq<Uuid>)
      requires Enabled(Now(), Action.Disconnect(id, order))
      modifies this
      ensures Now() == Apply(limits, old(Now()), Action.Disconnect(id, order))
    {
      var task := tasks[id];
      var remaining: seq<Send> := [];
      if task.group in txMap {
        var room: Room := txMap[task.group] - {id};
        if room == map[] {
          txMap := txMap - {task.group};
        } else {
          txMap := txMap[task.group := room];
          remaining := FanOut(order, Left(id));
        }
      }
      tasks := tasks[id := task.(phase := Gone, pending := remaining)];
    }

    /** The hourly job. */
    method ClearRequestCounts()
      modifies this`requestCountMap
      ensures Now() == Apply(limits, old(Now()), ClearCounts)
    {
      requestCountMap := map[];
    }
  }
}
