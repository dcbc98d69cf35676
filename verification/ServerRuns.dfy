/** Quotas and relayed requests read off the actions of a run, and a run with a stale view. */
module ServerRuns {
  import opened Prelude
  import opened Model
  import opened SignalingServer
  import opened RoomViews
  import opened RoomConvergence
  import opened DeviceIndex

  // ----- Quotas

  ghost predicate WithinLimits(limits: Limits, s: State) {
    && (forall g :: g in s.rooms ==> |s.rooms[g]| <= limits.maxConnections)
    && (forall g :: g in s.counts ==> s.counts[g] <= limits.maxRequests)
  }

  lemma SizeAfterInsert(room: Room, id: Uuid, info: ClientInfoWithoutId)
    ensures |room[id := info]| == if id in room then |room| else |room| + 1
  {
    var more: Room := room[id := info];
    assert more.Keys == room.Keys + {id};
  }

  lemma SizeAfterRemove(room: Room, id: Uuid)
    ensures |room - {id}| <= |room|
  {
    assert (room - {id}).Keys == room.Keys - {id};
    assert |room.Keys - {id}| <= |room.Keys|;
  }

  /** A step that gives one group a room and counts within the limits. */
  lemma OneRoomWithinLimits(limits: Limits, s: State, next: State, group: string)
    requires WithinLimits(limits, s)
    requires |RoomOf(next, group)| <= limits.maxConnections || RoomOf(next, group) == RoomOf(s, group)
    requires forall g :: g != group ==>
               RoomOf(next, g) == RoomOf(s, g) && CountOf(next.counts, g) == CountOf(s.counts, g)
    requires CountOf(next.counts, group) <= limits.maxRequests
    ensures WithinLimits(limits, next)
  {
    forall g | g in next.rooms ensures |next.rooms[g]| <= limits.maxConnections {
      assert RoomOf(next, g) == next.rooms[g];
      if g in s.rooms {
        assert RoomOf(s, g) == s.rooms[g];
      }
    }
    forall g | g in next.counts ensures next.counts[g] <= limits.maxRequests {
      assert CountOf(next.counts, g) == next.counts[g];
      if g in s.counts {
        assert CountOf(s.counts, g) == s.counts[g];
      }
    }
  }

  lemma CountWithinLimits(limits: Limits, s: State, group: string)
    requires WithinLimits(limits, s)
    ensures CountOf(s.counts, group) <= limits.maxRequests
    ensures var (_, counts) := CountRequest(limits, s.counts, group);
            CountOf(counts, group) <= limits.maxRequests
              && forall g :: g != group ==> CountOf(counts, g) == CountOf(s.counts, g)
  {}

  /** What a connect step leaves in the shared maps. */
  lemma ConnectEffect(limits: Limits, s: State, peer: ClientInfo, group: string, order: seq<Uuid>)
    requires Enabled(s, Connect(peer, group, order))
    ensures var next, room := ApplyConnect(limits, s, peer, group, order), RoomOf(s, group);
            var joined: Room := room[peer.id := peer.WithoutId()];
            && next.rooms == s.rooms[group := if peer.id in next.tasks then joined else room]
            && (peer.id in next.tasks ==> |room| < limits.maxConnections)
            && (next.counts == s.counts || next.counts == CountRequest(limits, s.counts, group).1)
  {
    hide FanOut, Listing, CountRequest;
  }

  lemma ConnectWithinLimits(limits: Limits, s: State, peer: ClientInfo, group: string, order: seq<Uuid>)
    requires WithinLimits(limits, s) && Enabled(s, Connect(peer, group, order))
    ensures WithinLimits(limits, ApplyConnect(limits, s, peer, group, order))
  {
    ConnectEffect(limits, s, peer, group, order);
    hide ApplyConnect, CountRequest;
    SizeAfterInsert(RoomOf(s, group), peer.id, peer.WithoutId());
    CountWithinLimits(limits, s, group);
    OneRoomWithinLimits(limits, s, ApplyConnect(limits, s, peer, group, order), group);
  }

  lemma UpdateWithinLimits(limits: Limits, s: State, id: Uuid, info: ClientInfoWithoutId, order: seq<Uuid>)
    requires WithinLimits(limits, s) && id in s.tasks
    ensures WithinLimits(limits, ApplyUpdate(s, id, info, order))
  {
    var group := s.tasks[id].group;
    SizeAfterInsert(RoomOf(s, group), id, info);
    CountWithinLimits(limits, s, group);
    OneRoomWithinLimits(limits, s, ApplyUpdate(s, id, info, order), group);
  }

  lemma DisconnectElsewhere(s: State, id: Uuid, order: seq<Uuid>, g: string)
    requires id in s.tasks
    ensures var next := ApplyDisconnect(s, id, order);
            && next.counts == s.counts
            && RoomOf(next, g) == if g == s.tasks[id].group then RoomOf(s, g) - {id} else RoomOf(s, g)
  {}

  lemma DisconnectWithinLimits(limits: Limits, s: State, id: Uuid, order: seq<Uuid>)
    requires WithinLimits(limits, s) && id in s.tasks
    ensures WithinLimits(limits, ApplyDisconnect(s, id, order))
  {
    hide ApplyDisconnect;
    var group, next := s.tasks[id].group, ApplyDisconnect(s, id, order);
    CountWithinLimits(limits, s, group);
    SizeAfterRemove(RoomOf(s, group), id);
    DisconnectElsewhere(s, id, order, group);
    assert |RoomOf(s, group)| <= limits.maxConnections;
    forall g | g != group
      ensures RoomOf(next, g) == RoomOf(s, g) && CountOf(next.counts, g) == CountOf(s.counts, g)
    {
      DisconnectElsewhere(s, id, order, g);
    }
    OneRoomWithinLimits(limits, s, next, group);
  }

  lemma StepWithinLimits(limits: Limits, s: State, a: Action)
    requires WithinLimits(limits, s) && Enabled(s, a)
    ensures WithinLimits(limits, Apply(limits, s, a))
  {
    match a
    case Connect(peer, group, order) => ConnectWithinLimits(limits, s, peer, group, order);
    case Ask(id, _) => CountWithinLimits(limits, s, s.tasks[id].group);
    case Serve(id, order) =>
      if s.tasks[id].phase.request.NewInfo? {
        UpdateWithinLimits(limits, s, id, s.tasks[id].phase.request.info, order);
      }
    case Disconnect(id, order) => DisconnectWithinLimits(limits, s, id, order);
    case _ =>
  }

  lemma {:induction false} AlwaysWithinLimits(limits: Limits, s: State, actions: seq<Action>)
    requires WithinLimits(limits, s) && Possible(limits, s, actions)
    ensures WithinLimits(limits, Run(limits, s, actions))
    decreases |actions|
  {
    if actions != [] {
      StepWithinLimits(limits, s, actions[0]);
      AlwaysWithinLimits(limits, Apply(limits, s, actions[0]), actions[1..]);
    }
  }

  /** The group whose request a step served, seen by its effect: a socket was admitted, or a client
      message was not refused. */
  function Served(limits: Limits, s: State, a: Action): Option<string>
    requires Enabled(s, a)
  {
    var next := Apply(limits, s, a);
    match a
    case Connect(peer, group, _) => if peer.id in next.tasks then Some(group) else None
    case Ask(id, _) => if next.tasks[id].phase.Counted? then Some(s.tasks[id].group) else None
    case _ => None
  }

  /** Requests of a group served since the last hourly clear, `before` of them before these actions. */
  function ServedSince(limits: Limits, s: State, actions: seq<Action>, group: string, before: nat): nat
    requires Possible(limits, s, actions)
    decreases |actions|
  {
    if actions == [] then before
    else
      var count := if actions[0].ClearCounts? then 0
                   else before + if Served(limits, s, actions[0]) == Some(group) then 1 else 0;
      ServedSince(limits, Apply(limits, s, actions[0]), actions[1..], group, count)
  }

  /** What a step does to the count of a group. */
  ghost predicate CountsStep(limits: Limits, s: State, a: Action, group: string)
    requires Enabled(s, a)
  {
    CountOf(Apply(limits, s, a).counts, group)
      == if a.ClearCounts? then 0
         else CountOf(s.counts, group) + if Served(limits, s, a) == Some(group) then 1 else 0
  }

  lemma ConnectCounts(limits: Limits, s: State, a: Action, group: string)
    requires a.Connect? && Enabled(s, a)
    ensures CountsStep(limits, s, a, group)
  {
    hide FanOut, Listing;
  }

  lemma AskCounts(limits: Limits, s: State, a: Action, group: string)
    requires a.Ask? && Enabled(s, a)
    ensures CountsStep(limits, s, a, group)
  {
    hide FanOut, Relay;
  }

  lemma StepCounts(limits: Limits, s: State, a: Action, group: string)
    requires Enabled(s, a)
    ensures CountsStep(limits, s, a, group)
  {
    match a
    case Connect(_, _, _) => ConnectCounts(limits, s, a, group);
    case Ask(_, _) => AskCounts(limits, s, a, group);
    case _ =>
  }

  /** Each group's count is the number of its requests served since the last clear. */
  lemma {:induction false} CountsExact(limits: Limits, s: State, actions: seq<Action>, group: string)
    requires Possible(limits, s, actions)
    ensures CountOf(Run(limits, s, actions).counts, group)
            == ServedSince(limits, s, actions, group, CountOf(s.counts, group))
    decreases |actions|
  {
    if actions != [] {
      StepCounts(limits, s, actions[0], group);
      CountsExact(limits, Apply(limits, s, actions[0]), actions[1..], group);
    }
  }

  // ----- Admission

  /** After any run a client message is refused exactly if the requests of its group served since the last
      clear have reached the limit; its sender is then told so, with code 429, and nothing else. */
  lemma RequestAdmission(limits: Limits, actions: seq<Action>, id: Uuid, request: Request)
    requires Possible(limits, EMPTY, actions) && Enabled(Run(limits, EMPTY, actions), Ask(id, request))
    ensures var s := Run(limits, EMPTY, actions);
            var task := Apply(limits, s, Ask(id, request)).tasks[id];
            if ServedSince(limits, EMPTY, actions, s.tasks[id].group, 0) >= limits.maxRequests then
              task.phase == OverQuota && task.pending == [Send(id, Error(429))]
            else task.phase == Counted(request) && task.pending == []
  {
    CountsExact(limits, EMPTY, actions, Run(limits, EMPTY, actions).tasks[id].group);
  }

  /** A connection is admitted exactly if neither that limit is reached nor the room full. */
  lemma ConnectionAdmission(limits: Limits, actions: seq<Action>, peer: ClientInfo, group: string, order: seq<Uuid>)
    requires Possible(limits, EMPTY, actions)
    requires Enabled(Run(limits, EMPTY, actions), Connect(peer, group, order))
    ensures var s := Run(limits, EMPTY, actions);
            peer.id in Apply(limits, s, Connect(peer, group, order)).tasks
            <==> |RoomOf(s, group)| < limits.maxConnections
                 && ServedSince(limits, EMPTY, actions, group, 0) < limits.maxRequests
  {
    hide FanOut, Listing;
    CountsExact(limits, EMPTY, actions, group);
  }

  // ----- Entries for empty rooms

  /** The map has an entry for a group nobody is in. */
  predicate EmptyEntry(s: State, group: string) {
    group in s.rooms && s.rooms[group] == map[]
  }

  /** A connection to the group is refused, seen by its effect. */
  predicate RefusesConnection(a: Action, next: State, group: string) {
    a.Connect? && a.group == group && a.peer.id !in next.tasks
  }

  /** Since a disconnect last emptied the room of the group, a connection to it was refused; `before`
      says so of the time before these actions. */
  function RefusedSince(limits: Limits, s: State, actions: seq<Action>, group: string, before: bool): bool
    requires Possible(limits, s, actions)
    decreases |actions|
  {
    if actions == [] then before
    else
      var a, next := actions[0], Apply(limits, s, actions[0]);
      var now :=
        if a.Disconnect? && s.tasks[a.id].group == group && RoomOf(next, group) == map[] then false
        else before || RefusesConnection(a, next, group);
      RefusedSince(limits, next, actions[1..], group, now)
  }

  /** What a step does to the entry of a group. */
  ghost predicate EntryStep(limits: Limits, s: State, a: Action, group: string)
    requires Enabled(s, a)
  {
    var next := Apply(limits, s, a);
    if a.Disconnect? && s.tasks[a.id].group == group then
      !EmptyEntry(next, group) && (RoomOf(next, group) != map[] ==> RoomOf(s, group) != map[])
    else
      && (RoomOf(next, group) == map[] ==> RoomOf(s, group) == map[])
      && (EmptyEntry(next, group) <==>
            RoomOf(next, group) == map[] && (EmptyEntry(s, group) || RefusesConnection(a, next, group)))
  }

  lemma RoomEntry(s: State, group: string)
    ensures RoomOf(s, group) == if group in s.rooms then s.rooms[group] else map[]
  {}

  lemma ConnectEntry(limits: Limits, s: State, a: Action, group: string)
    requires a.Connect? && Enabled(s, a)
    ensures EntryStep(limits, s, a, group)
  {
    ConnectEffect(limits, s, a.peer, a.group, a.order);
    hide ApplyConnect, RoomOf;
    RoomEntry(s, group);
    RoomEntry(s, a.group);
    RoomEntry(Apply(limits, s, a), group);
    var joined: Room := RoomOf(s, a.group)[a.peer.id := a.peer.WithoutId()];
    assert a.peer.id in joined;
  }

  lemma DisconnectEntry(limits: Limits, s: State, a: Action, group: string)
    requires a.Disconnect? && Enabled(s, a)
    ensures EntryStep(limits, s, a, group)
  {
    hide FanOut, Listing, Relay;
  }

  lemma StepEntry(limits: Limits, s: State, a: Action, group: string)
    requires Enabled(s, a)
    ensures EntryStep(limits, s, a, group)
  {
    match a
    case Connect(_, _, _) => ConnectEntry(limits, s, a, group);
    case Disconnect(_, _) => DisconnectEntry(limits, s, a, group);
    case _ =>
      hide FanOut, Listing, Relay;
  }

  /** After any run the map keeps an entry for an empty room exactly if the room is empty and a
      connection to it was refused since it was last emptied, or since the start. */
  lemma {:induction false} EmptyEntriesExact(limits: Limits, s: State, actions: seq<Action>, group: string,
                                             before: bool)
    requires Possible(limits, s, actions)
    requires EmptyEntry(s, group) <==> RoomOf(s, group) == map[] && before
    ensures EmptyEntry(Run(limits, s, actions), group)
            <==> RoomOf(Run(limits, s, actions), group) == map[] && RefusedSince(limits, s, actions, group, before)
    decreases |actions|
  {
    if actions != [] {
      var a, next := actions[0], Apply(limits, s, actions[0]);
      StepEntry(limits, s, a, group);
      var now :=
        if a.Disconnect? && s.tasks[a.id].group == group && RoomOf(next, group) == map[] then false
        else before || RefusesConnection(a, next, group);
      EmptyEntriesExact(limits, next, actions[1..], group, now);
    }
  }

  /** A refused first connection leaves an entry behind. */
  lemma EmptyEntryLeft(limits: Limits, peer: ClientInfo, group: string)
    requires limits.maxConnections == 0 || limits.maxRequests == 0
    ensures var actions := [Connect(peer, group, [])];
            && Possible(limits, EMPTY, actions)
            && Run(limits, EMPTY, actions).rooms == map[group := map[]]
            && Run(limits, EMPTY, actions).tasks == map[]
  {
    var first := Connect(peer, group, []);
    assert Possible(limits, Apply(limits, EMPTY, first), []);
    RunStep(limits, EMPTY, [first]);
  }

  // ----- Relayed requests

  /** The request a client was granted and has not had carried out, going by the steps alone. */
  function Granted(limits: Limits, s: State, a: Action, origin: Uuid, hand: Option<Request>): Option<Request>
    requires Enabled(s, a)
  {
    match a
    case Ask(id, request) => if id == origin then (if Served(limits, s, a).Some? then Some(request) else None) else hand
    case Serve(id, _) => if id == origin then None else hand
    case Disconnect(id, _) => if id == origin then None else hand
    case _ => hand
  }

  /** The send a granted request leads to: its session id and SDP to its target, under the
      requester's own connect-time information, if the target is in the requester's room. */
  function RequestedSend(s: State, a: Action, origin: Uuid, hand: Option<Request>): seq<Send>
    requires Enabled(s, a)
  {
    if a.Serve? && a.id == origin && hand.Some? && hand.value.Relaying?
      && hand.value.target in RoomOf(s, s.tasks[origin].group)
    then [Send(hand.value.target, Relay(s.tasks[origin].peer, hand.value.sessionId, hand.value.sdp,
                                        hand.value.isOffer))]
    else []
  }

  function RequestedSends(limits: Limits, s: State, actions: seq<Action>, origin: Uuid,
                          hand: Option<Request>): seq<Send>
    requires Possible(limits, s, actions)
    decreases |actions|
  {
    if actions == [] then []
    else
      RequestedSend(s, actions[0], origin, hand)
      + RequestedSends(limits, Apply(limits, s, actions[0]), actions[1..], origin,
                       Granted(limits, s, actions[0], origin, hand))
  }

  function RelayedBy(s: State, origin: Uuid): seq<Send> {
    if origin in s.tasks then s.tasks[origin].relayed else []
  }

  function InHand(s: State, origin: Uuid): Option<Request> {
    if origin in s.tasks && s.tasks[origin].phase.Counted? then Some(s.tasks[origin].phase.request) else None
  }

  lemma ServeRelays(limits: Limits, s: State, a: Action, origin: Uuid)
    requires a.Serve? && Enabled(s, a)
    ensures RelayedBy(Apply(limits, s, a), origin) == RelayedBy(s, origin)
            + RequestedSend(s, a, origin, InHand(s, origin))
    ensures InHand(Apply(limits, s, a), origin) == if a.id == origin then None else InHand(s, origin)
  {
    hide FanOut, Relay;
    assert RelayedBy(s, origin) + [] == RelayedBy(s, origin);
  }

  lemma ConnectRelays(limits: Limits, s: State, a: Action, origin: Uuid)
    requires a.Connect? && Enabled(s, a)
    ensures RelayedBy(Apply(limits, s, a), origin) == RelayedBy(s, origin)
    ensures InHand(Apply(limits, s, a), origin) == InHand(s, origin)
  {
    hide FanOut, Listing, CountRequest;
  }

  lemma DisconnectRelays(limits: Limits, s: State, a: Action, origin: Uuid)
    requires a.Disconnect? && Enabled(s, a)
    ensures RelayedBy(Apply(limits, s, a), origin) == RelayedBy(s, origin)
    ensures InHand(Apply(limits, s, a), origin) == if a.id == origin then None else InHand(s, origin)
  {
    hide FanOut;
  }

  lemma StepRelays(limits: Limits, s: State, a: Action, origin: Uuid)
    requires Enabled(s, a)
    ensures RelayedBy(Apply(limits, s, a), origin) == RelayedBy(s, origin)
            + RequestedSend(s, a, origin, InHand(s, origin))
    ensures InHand(Apply(limits, s, a), origin) == Granted(limits, s, a, origin, InHand(s, origin))
  {
    assert RelayedBy(s, origin) + [] == RelayedBy(s, origin);
    match a
    case Serve(_, _) => ServeRelays(limits, s, a, origin);
    case Connect(_, _, _) => ConnectRelays(limits, s, a, origin);
    case Disconnect(_, _) => DisconnectRelays(limits, s, a, origin);
    case _ =>
      hide FanOut, Listing, Relay;
  }

  lemma {:induction false} RunRelays(limits: Limits, s: State, actions: seq<Action>, origin: Uuid)
    requires Possible(limits, s, actions)
    ensures RelayedBy(Run(limits, s, actions), origin)
            == RelayedBy(s, origin) + RequestedSends(limits, s, actions, origin, InHand(s, origin))
    decreases |actions|
  {
    if actions == [] {
      assert RelayedBy(s, origin) + [] == RelayedBy(s, origin);
    } else {
      var next, hand := Apply(limits, s, actions[0]), InHand(s, origin);
      StepRelays(limits, s, actions[0], origin);
      RunRelays(limits, next, actions[1..], origin);
      Associative(RelayedBy(s, origin), RequestedSend(s, actions[0], origin, hand),
                  RequestedSends(limits, next, actions[1..], origin, InHand(next, origin)));
    }
  }

  /** The granted requests of `origin` for `target` that were carried out, in order. */
  function CarriedOut(limits: Limits, s: State, actions: seq<Action>, origin: Uuid, target: Uuid,
                      hand: Option<Request>): seq<Request>
    requires Possible(limits, s, actions)
    decreases |actions|
  {
    if actions == [] then []
    else
      var a := actions[0];
      (if a.Serve? && a.id == origin && hand.Some? && hand.value.Relaying? && hand.value.target == target
          && target in RoomOf(s, s.tasks[origin].group) then [hand.value] else [])
      + CarriedOut(limits, Apply(limits, s, a), actions[1..], origin, target, Granted(limits, s, a, origin, hand))
  }

  /** A message is an offer exactly if the request was one, with the request's session id and SDP, under
      this information about its origin. */
  ghost predicate Carries(m: ServerMessage, request: Request, peer: ClientInfo) {
    && request.Relaying? && (m.Offer? || m.Answer?) && (m.Offer? <==> request.isOffer)
    && m.message.peer == peer && m.message.sessionId == request.sessionId && m.message.sdp == request.sdp
  }

  ghost predicate AllCarry(ms: seq<ServerMessage>, requests: seq<Request>, peer: ClientInfo) {
    |ms| == |requests| && forall i :: 0 <= i < |ms| ==> Carries(ms[i], requests[i], peer)
  }

  lemma StepPeer(limits: Limits, s: State, a: Action, origin: Uuid)
    requires Enabled(s, a)
    ensures origin in s.tasks ==>
              origin in Apply(limits, s, a).tasks && Apply(limits, s, a).tasks[origin].peer == s.tasks[origin].peer
  {
    hide FanOut, Listing, Relay;
  }

  lemma {:induction false} PeerKept(limits: Limits, s: State, actions: seq<Action>, origin: Uuid)
    requires Possible(limits, s, actions) && origin in s.tasks
    ensures origin in Run(limits, s, actions).tasks
    ensures Run(limits, s, actions).tasks[origin].peer == s.tasks[origin].peer
    decreases |actions|
  {
    if actions != [] {
      StepPeer(limits, s, actions[0], origin);
      PeerKept(limits, Apply(limits, s, actions[0]), actions[1..], origin);
    }
  }

  /** The information kept of a socket is what it connected with. */
  lemma {:induction false} ConnectedAs(limits: Limits, s: State, actions: seq<Action>, origin: Uuid) returns (i: nat)
    requires Possible(limits, s, actions) && origin !in s.tasks && origin in Run(limits, s, actions).tasks
    ensures i < |actions| && actions[i].Connect? && actions[i].peer.id == origin
    ensures Run(limits, s, actions).tasks[origin].peer == actions[i].peer
    decreases |actions|
  {
    var next := Apply(limits, s, actions[0]);
    if origin in next.tasks {
      i := 0;
      ConnectedNow(limits, s, actions[0], origin);
      PeerKept(limits, next, actions[1..], origin);
    } else {
      i := ConnectedAs(limits, next, actions[1..], origin);
      i := i + 1;
    }
  }

  lemma ConnectedNow(limits: Limits, s: State, a: Action, origin: Uuid)
    requires Enabled(s, a) && origin !in s.tasks && origin in Apply(limits, s, a).tasks
    ensures a.Connect? && a.peer.id == origin && Apply(limits, s, a).tasks[origin].peer == a.peer
  {
    hide FanOut, Listing, Relay;
  }

  lemma {:induction false} CarriedAsSent(limits: Limits, s: State, actions: seq<Action>, origin: Uuid, target: Uuid,
                                         hand: Option<Request>, peer: ClientInfo)
    requires Possible(limits, s, actions)
    requires origin in Run(limits, s, actions).tasks && Run(limits, s, actions).tasks[origin].peer == peer
    ensures AllCarry(ToPeer(RequestedSends(limits, s, actions, origin, hand), target),
                     CarriedOut(limits, s, actions, origin, target, hand), peer)
    decreases |actions|
  {
    if actions != [] {
      var a, next := actions[0], Apply(limits, s, actions[0]);
      var later := RequestedSends(limits, next, actions[1..], origin, Granted(limits, s, a, origin, hand));
      CarriedAsSent(limits, next, actions[1..], origin, target, Granted(limits, s, a, origin, hand), peer);
      if origin in s.tasks {
        PeerKept(limits, s, actions, origin);
      }
      ToPeerAppend(RequestedSend(s, a, origin, hand), later, target);
      OneSend(s, a, origin, target, hand, peer);
    }
  }

  lemma OneSend(s: State, a: Action, origin: Uuid, target: Uuid, hand: Option<Request>, peer: ClientInfo)
    requires Enabled(s, a) && (origin in s.tasks ==> s.tasks[origin].peer == peer)
    ensures var one := ToPeer(RequestedSend(s, a, origin, hand), target);
            if a.Serve? && a.id == origin && hand.Some? && hand.value.Relaying? && hand.value.target == target
               && target in RoomOf(s, s.tasks[origin].group)
            then |one| == 1 && Carries(one[0], hand.value, peer) else one == []
  {
    var sends := RequestedSend(s, a, origin, hand);
    if sends != [] {
      assert sends[1..] == [];
    }
  }

  /** What arrives at a target from an origin is, message by message, what the origin requested for it
      and was granted, offers as offers and answers as answers, in order, without a gap: all of it while
      the origin is connected and has nothing left to send. */
  lemma RelayExact(limits: Limits, actions: seq<Action>, origin: Uuid, target: Uuid)
    requires Possible(limits, EMPTY, actions) && origin in Run(limits, EMPTY, actions).tasks
    ensures var s := Run(limits, EMPTY, actions);
            var requests := CarriedOut(limits, EMPTY, actions, origin, target, None);
            var arrived := Filter(Sdp(origin), QueueOf(s, target));
            && |arrived| <= |requests| && AllCarry(arrived, requests[..|arrived|], s.tasks[origin].peer)
            && (Live(s.tasks[origin]) && ToPeer(s.tasks[origin].pending, target) == [] ==> |arrived| == |requests|)
  {
    RunRelays(limits, EMPTY, actions, origin);
    var requested := RequestedSends(limits, EMPTY, actions, origin, None);
    assert [] + requested == requested;
    RelayInOrder(limits, actions, origin, target);
    CarriedAsSent(limits, EMPTY, actions, origin, target, None, Run(limits, EMPTY, actions).tasks[origin].peer);
  }

  // ----- A stale view

  /** One socket is idle in its room. */
  function Alone(a: ClientInfo, group: string): State {
    State(map[group := map[a.id := a.WithoutId()]], map[group := 1],
          map[a.id := Task(group, a, Serving, map[], [], [])], map[a.id := [Hello(a, [])]])
  }

  lemma AloneReached(limits: Limits, a: ClientInfo, group: string)
    requires limits.maxConnections >= 2 && limits.maxRequests >= 3
    ensures var actions := [Connect(a, group, []), Deliver(a.id)];
            Possible(limits, EMPTY, actions) && Run(limits, EMPTY, actions) == Alone(a, group)
  {
    var first := Connect(a, group, []);
    var one := Apply(limits, EMPTY, first);
    var hello := Hello(a, []);
    assert Listing(map[], []) == [];
    assert FanOut([], Join(a)) + [Send(a.id, hello)] == [Send(a.id, hello)];
    assert one.tasks[a.id].pending == [Send(a.id, hello)] && one.queues == map[a.id := []];
    var two := Apply(limits, one, Deliver(a.id));
    assert [] + [hello] == [hello];
    assert two.queues[a.id] == [hello];
    assert two == Alone(a, group);
    RunStep(limits, one, [Deliver(a.id)]);
    RunStep(limits, EMPTY, [first, Deliver(a.id)]);
  }

  ghost predicate Moves(limits: Limits, s: State, a: Action, next: State) {
    Enabled(s, a) && next == Apply(limits, s, a)
  }

  lemma RunStep(limits: Limits, s: State, actions: seq<Action>)
    requires actions != [] && Enabled(s, actions[0]) && Possible(limits, Apply(limits, s, actions[0]), actions[1..])
    ensures Possible(limits, s, actions)
    ensures Run(limits, s, actions) == Run(limits, Apply(limits, s, actions[0]), actions[1..])
  {}

  /** `a` updates between the registration of `b` and the hello of `b`. */
  function Overtaking(a: ClientInfo, b: ClientInfo, info: ClientInfoWithoutId, group: string): seq<Action> {
    [Connect(b, group, [a.id]), Ask(a.id, NewInfo(info)), Action.Serve(a.id, [b.id]),
     Deliver(a.id), Deliver(b.id), Deliver(b.id)]
  }

  /** What `b` was told at its registration. */
  function Greeted(a: ClientInfo, b: ClientInfo): seq<Send> {
    [Send(a.id, Join(b)), Send(b.id, Hello(b, [a]))]
  }

  /** The room holds the update of `a`, and `b` has still to receive it and the hello. */
  ghost predicate UpdateAhead(s: State, a: ClientInfo, b: ClientInfo, info: ClientInfoWithoutId, group: string) {
    && s.tasks.Keys == {a.id, b.id} == s.queues.Keys && s.queues[b.id] == []
    && s.tasks[a.id].pending == [Send(b.id, Update(WithId(info, a.id)))] && s.tasks[b.id].pending == Greeted(a, b)
    && Get(RoomOf(s, group), a.id) == Some(info)
  }

  /** `b` is registered and nothing of what its task prepared has been sent. */
  ghost predicate JustConnected(s: State, a: ClientInfo, b: ClientInfo, group: string) {
    && s.tasks.Keys == {a.id, b.id} == s.queues.Keys && s.queues[b.id] == []
    && s.tasks[b.id].pending == Greeted(a, b) && s.tasks[b.id].phase.Joining?
    && Idle(s, a.id) && s.tasks[a.id].group == group
    && RoomOf(s, group).Keys == {a.id, b.id} && CountOf(s.counts, group) == 2
  }

  lemma NewcomerConnects(limits: Limits, a: ClientInfo, b: ClientInfo, group: string) returns (s: State)
    requires limits.maxConnections >= 2 && limits.maxRequests >= 3 && a.id != b.id
    ensures Moves(limits, Alone(a, group), Connect(b, group, [a.id]), s) && JustConnected(s, a, b, group)
  {
    var room: Room := map[a.id := a.WithoutId()];
    InfoRoundTrip(a.WithoutId(), a.id, a);
    assert Listing(room, [a.id]) == [a];
    assert FanOut([a.id], Join(b)) + [Send(b.id, Hello(b, [a]))] == Greeted(a, b);
    s := Apply(limits, Alone(a, group), Connect(b, group, [a.id]));
    assert RoomOf(s, group) == room[b.id := b.WithoutId()];
  }

  lemma UpdateGetsAhead(limits: Limits, s1: State, a: ClientInfo, b: ClientInfo, info: ClientInfoWithoutId,
                        group: string)
    returns (s2: State, s3: State)
    requires limits.maxRequests >= 3 && a.id != b.id && JustConnected(s1, a, b, group)
    ensures Moves(limits, s1, Ask(a.id, NewInfo(info)), s2) && Moves(limits, s2, Action.Serve(a.id, [b.id]), s3)
    ensures UpdateAhead(s3, a, b, info, group)
  {
    s2 := Apply(limits, s1, Ask(a.id, NewInfo(info)));
    s3 := Apply(limits, s2, Action.Serve(a.id, [b.id]));
    assert FanOut([b.id], Update(WithId(info, a.id))) == [Send(b.id, Update(WithId(info, a.id)))];
  }

  lemma HelloComesLate(limits: Limits, s2: State, a: ClientInfo, b: ClientInfo, info: ClientInfoWithoutId,
                       group: string)
    returns (s3: State, s4: State, s5: State)
    requires a.id != b.id && UpdateAhead(s2, a, b, info, group)
    ensures Moves(limits, s2, Deliver(a.id), s3)
    ensures Moves(limits, s3, Deliver(b.id), s4) && Moves(limits, s4, Deliver(b.id), s5)
    ensures s5.tasks.Keys == {a.id, b.id} == s5.queues.Keys
    ensures s5.tasks[a.id].pending == [] && s5.tasks[b.id].pending == []
    ensures s5.queues[b.id] == [Update(WithId(info, a.id)), Hello(b, [a])]
    ensures Get(RoomOf(s5, group), a.id) == Some(info)
  {
    s3 := Apply(limits, s2, Deliver(a.id));
    assert s3.queues[b.id] == [Update(WithId(info, a.id))];
    s4 := Apply(limits, s3, Deliver(b.id));
    assert s4.tasks[b.id].pending == [Send(b.id, Hello(b, [a]))];
    s5 := Apply(limits, s4, Deliver(b.id));
  }

  /** Then the hello overwrites the update at `b`, and nothing under way will correct it. */
  lemma StaleView(limits: Limits, a: ClientInfo, b: ClientInfo, info: ClientInfoWithoutId, group: string)
    requires limits.maxConnections >= 2 && limits.maxRequests >= 3
    requires a.id != b.id && info != a.WithoutId()
    ensures Possible(limits, Alone(a, group), Overtaking(a, b, info, group))
    ensures var s := Run(limits, Alone(a, group), Overtaking(a, b, info, group));
            && s.tasks.Keys == {a.id, b.id} && s.tasks[a.id].pending == [] && s.tasks[b.id].pending == []
            && ViewById(QueueOf(s, b.id), a.id) == Some(a.WithoutId()) != Get(RoomOf(s, group), a.id)
  {
    hide Moves, Apply, Enabled, Run, Possible, ViewById, RoomOf, Alone;
    var s1 := NewcomerConnects(limits, a, b, group);
    var s2, s3 := UpdateGetsAhead(limits, s1, a, b, info, group);
    var s4, s5, s6 := HelloComesLate(limits, s3, a, b, info, group);
    RunOfSix(limits, Alone(a, group), Overtaking(a, b, info, group), s1, s2, s3, s4, s5, s6);
    LateHelloView(a, b, info);
  }

  lemma LateHelloView(a: ClientInfo, b: ClientInfo, info: ClientInfoWithoutId)
    ensures ViewById([Update(WithId(info, a.id)), Hello(b, [a])], a.id) == Some(a.WithoutId())
  {
    assert PeerIn([a], a.id) == Some(a.WithoutId());
  }

  lemma RunOfSix(limits: Limits, s0: State, actions: seq<Action>,
                 s1: State, s2: State, s3: State, s4: State, s5: State, s6: State)
    requires |actions| == 6
    requires Moves(limits, s0, actions[0], s1) && Moves(limits, s1, actions[1], s2) && Moves(limits, s2, actions[2], s3)
    requires Moves(limits, s3, actions[3], s4) && Moves(limits, s4, actions[4], s5) && Moves(limits, s5, actions[5], s6)
    ensures Possible(limits, s0, actions) && Run(limits, s0, actions) == s6
  {
    hide Apply, Enabled;
    assert actions[5..][1..] == [] && actions[4..][1..] == actions[5..] && actions[3..][1..] == actions[4..];
    assert actions[2..][1..] == actions[3..] && actions[1..][1..] == actions[2..];
    RunStep(limits, s5, actions[5..]);
    RunStep(limits, s4, actions[4..]);
    RunStep(limits, s3, actions[3..]);
    RunStep(limits, s2, actions[2..]);
    RunStep(limits, s1, actions[1..]);
    RunStep(limits, s0, actions);
  }

  // ----- A changed token

  /** `b` has its hello when `a` updates. */
  function InOrder(a: ClientInfo, b: ClientInfo, info: ClientInfoWithoutId, group: string): seq<Action> {
    [Connect(b, group, [a.id]), Deliver(b.id), Deliver(b.id),
     Ask(a.id, NewInfo(info)), Action.Serve(a.id, [b.id]), Deliver(a.id)]
  }

  /** `b` is connected and greeted. */
  ghost predicate BothServed(s: State, a: ClientInfo, b: ClientInfo, group: string) {
    && s.tasks.Keys == {a.id, b.id} == s.queues.Keys && s.queues[b.id] == [Hello(b, [a])]
    && Idle(s, a.id) && Idle(s, b.id) && s.tasks[a.id].group == group
    && RoomOf(s, group).Keys == {a.id, b.id} && CountOf(s.counts, group) == 2
  }

  lemma JoinDelivered(limits: Limits, s1: State, a: ClientInfo, b: ClientInfo, group: string) returns (s2: State)
    requires a.id != b.id && JustConnected(s1, a, b, group)
    ensures Moves(limits, s1, Deliver(b.id), s2)
    ensures s2 == s1.(tasks := s2.tasks, queues := s2.queues) && s2.tasks.Keys == {a.id, b.id} == s2.queues.Keys
    ensures s2.tasks[a.id] == s1.tasks[a.id] && s2.queues[b.id] == []
    ensures s2.tasks[b.id] == s1.tasks[b.id].(pending := [Send(b.id, Hello(b, [a]))])
  {
    s2 := Apply(limits, s1, Deliver(b.id));
    assert Greeted(a, b)[1..] == [Send(b.id, Hello(b, [a]))];
  }

  lemma GreetingDelivered(limits: Limits, s1: State, s2: State, a: ClientInfo, b: ClientInfo, group: string)
    returns (s3: State)
    requires a.id != b.id && JustConnected(s1, a, b, group)
    requires s2 == s1.(tasks := s2.tasks, queues := s2.queues) && s2.tasks.Keys == {a.id, b.id} == s2.queues.Keys
    requires s2.tasks[a.id] == s1.tasks[a.id] && s2.queues[b.id] == []
    requires s2.tasks[b.id] == s1.tasks[b.id].(pending := [Send(b.id, Hello(b, [a]))])
    ensures Moves(limits, s2, Deliver(b.id), s3) && BothServed(s3, a, b, group)
  {
    s3 := Apply(limits, s2, Deliver(b.id));
    assert [] + [Hello(b, [a])] == [Hello(b, [a])];
  }

  lemma GreetedInOrder(limits: Limits, a: ClientInfo, b: ClientInfo, info: ClientInfoWithoutId, group: string)
    returns (s1: State, s2: State, s3: State)
    requires limits.maxConnections >= 2 && limits.maxRequests >= 3 && a.id != b.id
    ensures var actions := InOrder(a, b, info, group);
            && Moves(limits, Alone(a, group), actions[0], s1)
            && Moves(limits, s1, actions[1], s2) && Moves(limits, s2, actions[2], s3)
    ensures BothServed(s3, a, b, group)
  {
    hide Moves, Alone, BothServed, Greeted, RoomOf;
    s1 := NewcomerConnects(limits, a, b, group);
    s2 := JoinDelivered(limits, s1, a, b, group);
    s3 := GreetingDelivered(limits, s1, s2, a, b, group);
  }

  lemma UpdateArrives(limits: Limits, s3: State, a: ClientInfo, b: ClientInfo, info: ClientInfoWithoutId, group: string)
    returns (s4: State, s5: State, s6: State)
    requires limits.maxRequests >= 3 && a.id != b.id && BothServed(s3, a, b, group)
    ensures Moves(limits, s3, Ask(a.id, NewInfo(info)), s4)
    ensures Moves(limits, s4, Action.Serve(a.id, [b.id]), s5) && Moves(limits, s5, Deliver(a.id), s6)
    ensures s6.tasks.Keys == {a.id, b.id} == s6.queues.Keys
    ensures s6.tasks[a.id].pending == [] && s6.tasks[b.id].pending == []
    ensures s6.queues[b.id] == [Hello(b, [a]), Update(WithId(info, a.id))]
    ensures Get(RoomOf(s6, group), a.id) == Some(info)
  {
    s4 := Apply(limits, s3, Ask(a.id, NewInfo(info)));
    s5 := Apply(limits, s4, Action.Serve(a.id, [b.id]));
    assert FanOut([b.id], Update(WithId(info, a.id))) == [Send(b.id, Update(WithId(info, a.id)))];
    s6 := Apply(limits, s5, Deliver(a.id));
    assert [Hello(b, [a])] + [Update(WithId(info, a.id))] == [Hello(b, [a]), Update(WithId(info, a.id))];
  }

  /** Nothing overtook anything, but the update carries another token: `b` holds `a` twice, and
      nothing under way will correct it. */
  lemma HeldTwice(limits: Limits, a: ClientInfo, b: ClientInfo, info: ClientInfoWithoutId, group: string)
    requires limits.maxConnections >= 2 && limits.maxRequests >= 3
    requires a.id != b.id && info.token != a.token
    ensures Possible(limits, Alone(a, group), InOrder(a, b, info, group))
    ensures var s := Run(limits, Alone(a, group), InOrder(a, b, info, group));
            && s.tasks.Keys == {a.id, b.id} && s.tasks[a.id].pending == [] && s.tasks[b.id].pending == []
            && Get(RoomOf(s, group), a.id) == Some(info)
            && |Held(After(QueueOf(s, b.id)), a.id)| == 2
  {
    hide Moves, Apply, Enabled, Run, Possible, ViewById, RoomOf, Alone, After, Held;
    var s1, s2, s3 := GreetedInOrder(limits, a, b, info, group);
    var s4, s5, s6 := UpdateArrives(limits, s3, a, b, info, group);
    RunOfSix(limits, Alone(a, group), InOrder(a, b, info, group), s1, s2, s3, s4, s5, s6);
    TokenChangeDuplicates(a, b, info);
  }
}
