/** The devices an app holds after the messages of its signaling connection. They are kept under the
    fingerprint, which is the token a client chose, and within one fingerprint by peer id. */
module DeviceIndex {
  import opened Prelude
  import opened Model
  import opened SignalingServer
  import opened RoomViews
  import opened RoomConvergence

  /** The fields of a device found via signaling that depend on the peer. */
  datatype Device = Device(
    signalingId: Uuid, version: string, fingerprint: string, alias: string,
    deviceModel: Option<string>, deviceType: DeviceType)

  function ToDevice(c: ClientInfo): Device {
    Device(c.id, c.version, c.token, c.alias, c.deviceModel, if c.deviceType.Some? then c.deviceType.value else Desktop)
  }

  type Index = map<string, set<Device>>

  /** `RegisterSignalingDeviceAction`: a device replaces the one with its peer id only under its own
      fingerprint. */
  function Register(index: Index, d: Device): Index {
    var existing := if d.fingerprint in index then index[d.fingerprint] else {};
    index[d.fingerprint := (set e | e in existing && e.signalingId != d.signalingId) + {d}]
  }

  /** `UnregisterSignalingDeviceAction`: the peer id goes from under every fingerprint. */
  function Unregister(index: Index, id: Uuid): Index {
    map f | f in index :: set e | e in index[f] && e.signalingId != id
  }

  function RegisterAll(index: Index, peers: seq<ClientInfo>): Index {
    if peers == [] then index
    else Register(RegisterAll(index, peers[..|peers| - 1]), ToDevice(peers[|peers| - 1]))
  }

  function OnMessage(index: Index, m: ServerMessage): Index {
    match m
    case Hello(_, peers) => RegisterAll(index, peers)
    case Join(peer) => Register(index, ToDevice(peer))
    case Update(peer) => Register(index, ToDevice(peer))
    case Left(id) => Unregister(index, id)
    case _ => index
  }

  function After(queue: seq<ServerMessage>): Index {
    if queue == [] then map[] else OnMessage(After(queue[..|queue| - 1]), queue[|queue| - 1])
  }

  /** The devices held for a peer id, under whatever fingerprint. */
  function Held(index: Index, q: Uuid): set<Device> {
    set f, d | f in index && d in index[f] && d.signalingId == q :: d
  }

  // ----- The index read off the messages

  function Named(peers: seq<ClientInfo>, q: Uuid): seq<ClientInfo> {
    if peers == [] then []
    else
      var last := peers[|peers| - 1];
      Named(peers[..|peers| - 1], q) + if last.id == q then [last] else []
  }

  /** Everything received about `q` since its last left. */
  function Heard(queue: seq<ServerMessage>, q: Uuid): seq<ClientInfo> {
    if queue == [] then []
    else
      var m, before := queue[|queue| - 1], Heard(queue[..|queue| - 1], q);
      match m
      case Hello(_, peers) => before + Named(peers, q)
      case Join(peer) => if peer.id == q then before + [peer] else before
      case Update(peer) => if peer.id == q then before + [peer] else before
      case Left(id) => if id == q then [] else before
      case _ => before
  }

  /** The last device heard under each token. */
  function LastPerToken(heard: seq<ClientInfo>): set<Device> {
    if heard == [] then {}
    else
      var d := ToDevice(heard[|heard| - 1]);
      (set e | e in LastPerToken(heard[..|heard| - 1]) && e.fingerprint != d.fingerprint) + {d}
  }

  ghost predicate Filed(index: Index) {
    forall f, d :: f in index && d in index[f] ==> d.fingerprint == f
  }

  lemma RegisterHeld(index: Index, d: Device, q: Uuid)
    requires Filed(index)
    ensures Filed(Register(index, d))
    ensures Held(Register(index, d), q)
            == if d.signalingId == q then (set e | e in Held(index, q) && e.fingerprint != d.fingerprint) + {d}
               else Held(index, q)
  {
    var next := Register(index, d);
    assert d in next[d.fingerprint];
    forall e ensures e in Held(next, q) <==>
        e.signalingId == q && (e == d || (e in Held(index, q)
                                          && (d.signalingId == q ==> e.fingerprint != d.fingerprint)))
    {
      if e in Held(index, q) && e.fingerprint in next {
        assert e in index[e.fingerprint];
      }
    }
  }

  lemma UnregisterHeld(index: Index, id: Uuid, q: Uuid)
    requires Filed(index)
    ensures Filed(Unregister(index, id))
    ensures Held(Unregister(index, id), q) == if id == q then {} else Held(index, q)
  {
    var next := Unregister(index, id);
    forall e | e in Held(index, q) && id != q ensures e in Held(next, q) {
      assert e.fingerprint in next && e in next[e.fingerprint];
    }
  }

  lemma {:induction false} RegisterAllHeld(index: Index, peers: seq<ClientInfo>, q: Uuid, heard: seq<ClientInfo>)
    requires Filed(index) && Held(index, q) == LastPerToken(heard)
    ensures Filed(RegisterAll(index, peers)) && Held(RegisterAll(index, peers), q)
            == LastPerToken(heard + Named(peers, q))
  {
    if peers == [] {
      assert heard + [] == heard;
    } else {
      var before, last := peers[..|peers| - 1], peers[|peers| - 1];
      RegisterAllHeld(index, before, q, heard);
      RegisterHeld(RegisterAll(index, before), ToDevice(last), q);
      HeardMore(heard + Named(before, q), last);
      Associative(heard, Named(before, q), if last.id == q then [last] else []);
      assert heard + Named(before, q) + [] == heard + Named(before, q);
    }
  }

  lemma HeardMore(heard: seq<ClientInfo>, c: ClientInfo)
    ensures LastPerToken(heard + [c])
            == (set e | e in LastPerToken(heard) && e.fingerprint != c.token) + {ToDevice(c)}
  {
    assert (heard + [c])[..|heard|] == heard;
  }

  /** The index holds for each peer id the last device heard under each token since the last left. */
  lemma {:induction false} HeldIsLastPerToken(queue: seq<ServerMessage>, q: Uuid)
    ensures Filed(After(queue)) && Held(After(queue), q) == LastPerToken(Heard(queue, q))
  {
    if queue != [] {
      var before, m := queue[..|queue| - 1], queue[|queue| - 1];
      HeldIsLastPerToken(before, q);
      match m {
        case Hello(_, peers) => RegisterAllHeld(After(before), peers, q, Heard(before, q));
        case Join(peer) => RegisterHeld(After(before), ToDevice(peer), q); HeardMore(Heard(before, q), peer);
        case Update(peer) => RegisterHeld(After(before), ToDevice(peer), q); HeardMore(Heard(before, q), peer);
        case Left(id) => UnregisterHeld(After(before), id, q);
        case _ =>
      }
    }
  }

  /** Under one fingerprint there is at most one device with a peer id, so the one that is replaced
      is the only one to be found. */
  lemma {:induction false} OnePerFingerprint(heard: seq<ClientInfo>, d: Device, e: Device)
    requires d in LastPerToken(heard) && e in LastPerToken(heard) && d.fingerprint == e.fingerprint
    ensures d == e
  {
    var last := ToDevice(heard[|heard| - 1]);
    if d != last && e != last {
      OnePerFingerprint(heard[..|heard| - 1], d, e);
    }
  }

  lemma {:induction false} NamedLast(peers: seq<ClientInfo>, q: Uuid)
    ensures var named := Named(peers, q);
            PeerIn(peers, q) == if named == [] then None else Some(named[|named| - 1].WithoutId())
    ensures forall i :: 0 <= i < |Named(peers, q)| ==> Named(peers, q)[i].id == q
  {
    if peers != [] {
      NamedLast(peers[..|peers| - 1], q);
    }
  }

  /** A client with one entry per peer id would hold what was heard last. */
  lemma {:induction false} ViewIsLastHeard(queue: seq<ServerMessage>, q: Uuid)
    ensures var heard := Heard(queue, q);
            ViewById(queue, q) == if heard == [] then None else Some(heard[|heard| - 1].WithoutId())
    ensures forall i :: 0 <= i < |Heard(queue, q)| ==> Heard(queue, q)[i].id == q
  {
    if queue != [] {
      ViewIsLastHeard(queue[..|queue| - 1], q);
      if queue[|queue| - 1].Hello? {
        NamedLast(queue[|queue| - 1].peers, q);
      }
    }
  }

  lemma {:induction false} OnlyHeard(heard: seq<ClientInfo>, d: Device)
    requires d in LastPerToken(heard)
    ensures exists i :: 0 <= i < |heard| && ToDevice(heard[i]) == d
  {
    if d != ToDevice(heard[|heard| - 1]) {
      OnlyHeard(heard[..|heard| - 1], d);
    }
  }

  lemma {:induction false} EachTokenHeld(heard: seq<ClientInfo>, i: nat)
    requires i < |heard|
    ensures exists d :: d in LastPerToken(heard) && d.fingerprint == heard[i].token
  {
    var last := |heard| - 1;
    if heard[i].token == heard[last].token {
      assert ToDevice(heard[last]) in LastPerToken(heard);
    } else {
      EachTokenHeld(heard[..last], i);
      var d :| d in LastPerToken(heard[..last]) && d.fingerprint == heard[i].token;
      assert d in LastPerToken(heard);
    }
  }

  /** A device shows what was heard last under its token: id, version, alias and model as they were sent,
      the token as its fingerprint, and the device type, or desktop where none was sent. */
  ghost predicate Shows(d: Device, c: ClientInfo) {
    && d.signalingId == c.id && d.version == c.version && d.fingerprint == c.token && d.alias == c.alias
    && d.deviceModel == c.deviceModel
    && (c.deviceType.Some? ==> d.deviceType == c.deviceType.value) && (c.deviceType.None? ==> d.deviceType.Desktop?)
  }

  lemma {:induction false} HeldShows(queue: seq<ServerMessage>, q: Uuid, d: Device)
    requires d in Held(After(queue), q)
    ensures exists i :: 0 <= i < |Heard(queue, q)| && Shows(d, Heard(queue, q)[i])
  {
    HeldIsLastPerToken(queue, q);
    OnlyHeard(Heard(queue, q), d);
    var i :| 0 <= i < |Heard(queue, q)| && ToDevice(Heard(queue, q)[i]) == d;
    assert Shows(d, Heard(queue, q)[i]);
  }

  lemma OneDeviceExactly(heard: seq<ClientInfo>, d: Device)
    ensures LastPerToken(heard) == {d} <==>
            heard != [] && ToDevice(heard[|heard| - 1]) == d
              && forall i :: 0 <= i < |heard| ==> heard[i].token == d.fingerprint
  {
    if heard != [] {
      var last := ToDevice(heard[|heard| - 1]);
      assert last in LastPerToken(heard);
      if LastPerToken(heard) == {d} {
        forall i | 0 <= i < |heard| ensures heard[i].token == d.fingerprint {
          EachTokenHeld(heard, i);
        }
      }
      if forall i :: 0 <= i < |heard| ==> heard[i].token == d.fingerprint {
        forall e | e in LastPerToken(heard) ensures e == last {
          if e != last {
            assert e in LastPerToken(heard[..|heard| - 1]);
            OnlyHeard(heard[..|heard| - 1], e);
          }
        }
      }
    }
  }

  // ----- The index against the room

  function DeviceOf(q: Uuid, info: Option<ClientInfoWithoutId>): Option<Device> {
    match info
    case None => None
    case Some(i) => Some(ToDevice(WithId(i, q)))
  }

  /** What the app should hold for `q`: the one device of its room entry. */
  function RoomDevices(q: Uuid, entry: Option<ClientInfoWithoutId>): set<Device> {
    match DeviceOf(q, entry)
    case None => {}
    case Some(d) => {d}
  }

  /** Everything received for `q` since its last left carries the token of its room entry. */
  predicate TokenKept(heard: seq<ClientInfo>, entry: Option<ClientInfoWithoutId>) {
    entry.Some? ==> forall i :: 0 <= i < |heard| ==> heard[i].token == entry.value.token
  }

  /** The last news about `q` came before the hello, which lists `q` as another device. */
  ghost predicate DeviceOverwritten(q: Uuid, early: seq<ServerMessage>, hello: ServerMessage, late: seq<ServerMessage>)
    requires hello.Hello?
  {
    var news := Filter(News(q), early);
    ListedLate(q, early, hello, late) && DeviceOf(q, PeerIn(hello.peers, q)) != DeviceOf(q, Said(news[|news| - 1]))
  }

  lemma HeldMatches(queue: seq<ServerMessage>, q: Uuid, entry: Option<ClientInfoWithoutId>)
    ensures Held(After(queue), q) == RoomDevices(q, entry)
            <==> DeviceOf(q, ViewById(queue, q)) == DeviceOf(q, entry) && TokenKept(Heard(queue, q), entry)
  {
    var heard := Heard(queue, q);
    HeldIsLastPerToken(queue, q);
    ViewIsLastHeard(queue, q);
    if heard != [] {
      var last := heard[|heard| - 1];
      assert ToDevice(last) in LastPerToken(heard);
      InfoRoundTrip(last.WithoutId(), q, last);
      assert DeviceOf(q, ViewById(queue, q)) == Some(ToDevice(last));
    }
    if entry.Some? {
      OneDeviceExactly(heard, ToDevice(WithId(entry.value, q)));
    }
  }

  /** After any run, once nothing from `q` is under way to `p`, the app `p` holds for `q` exactly the
      one device of the room, or none if the room does not hold it, if and only if no news of `q`
      overtook the hello that lists another device and `q` did not change its token. */
  lemma DevicesConverge(limits: Limits, actions: seq<Action>, p: Uuid, q: Uuid)
    returns (early: seq<ServerMessage>, hello: ServerMessage, late: seq<ServerMessage>)
    requires Possible(limits, EMPTY, actions)
    requires Settled(Run(limits, EMPTY, actions), p, q) && p != q
    ensures var s := Run(limits, EMPTY, actions);
            var entry := Get(RoomOf(s, s.tasks[p].group), q);
            && Split(QueueOf(s, p), early, hello, late)
            && (Held(After(QueueOf(s, p)), q) == RoomDevices(q, entry)
                <==> !DeviceOverwritten(q, early, hello, late) && TokenKept(Heard(QueueOf(s, p), q), entry))
  {
    EmptyInv();
    RunInv(limits, EMPTY, actions);
    early, hello, late := InvDevices(Run(limits, EMPTY, actions), p, q);
  }

  lemma InvDevices(s: State, p: Uuid, q: Uuid)
    returns (early: seq<ServerMessage>, hello: ServerMessage, late: seq<ServerMessage>)
    requires Inv(s) && Settled(s, p, q) && p != q
    ensures var entry := Get(RoomOf(s, s.tasks[p].group), q);
            && Split(QueueOf(s, p), early, hello, late)
            && (Held(After(QueueOf(s, p)), q) == RoomDevices(q, entry)
                <==> !DeviceOverwritten(q, early, hello, late) && TokenKept(Heard(QueueOf(s, p), q), entry))
  {
    hide Inv, Held, After, Heard, TokenKept, RoomDevices, ViewById, PeerIn, Filter, ToPeer;
    early, hello, late := InvViews(s, p, q);
    HeldMatches(QueueOf(s, p), q, Get(RoomOf(s, s.tasks[p].group), q));
  }

  /** If the hello came first, the app holds the room without itself exactly when no token changed. */
  lemma HelloFirstDevices(limits: Limits, actions: seq<Action>, p: Uuid, q: Uuid)
    requires Possible(limits, EMPTY, actions)
    requires var s := Run(limits, EMPTY, actions);
             Settled(s, p, q) && QueueOf(s, p) != [] && QueueOf(s, p)[0].Hello?
    ensures var s := Run(limits, EMPTY, actions);
            var entry := if p == q then None else Get(RoomOf(s, s.tasks[p].group), q);
            Held(After(QueueOf(s, p)), q) == RoomDevices(q, entry) <==> TokenKept(Heard(QueueOf(s, p), q), entry)
  {
    var s := Run(limits, EMPTY, actions);
    HelloFirstConverges(limits, actions, p, q);
    HeldMatches(QueueOf(s, p), q, if p == q then None else Get(RoomOf(s, s.tasks[p].group), q));
  }

  /** A peer that updates to another token is held twice, once as it was. */
  lemma TokenChangeDuplicates(a: ClientInfo, b: ClientInfo, info: ClientInfoWithoutId)
    requires info.token != a.token
    ensures var queue := [Hello(b, [a]), Update(WithId(info, a.id))];
            && Held(After(queue), a.id) == {ToDevice(a), ToDevice(WithId(info, a.id))}
            && ToDevice(a) != ToDevice(WithId(info, a.id)) && ViewById(queue, a.id) == Some(info)
  {
    var queue := [Hello(b, [a]), Update(WithId(info, a.id))];
    HeldIsLastPerToken(queue, a.id);
    InfoRoundTrip(info, a.id, a);
    assert queue[..1] == [Hello(b, [a])] && queue[..1][..0] == [];
    assert [a][..0] == [] && Named([a], a.id) == [a];
    assert Heard(queue[..1], a.id) == [a];
    assert Heard(queue, a.id) == [a] + [WithId(info, a.id)];
    HeardMore([], a);
    assert [] + [a] == [a];
    HeardMore([a], WithId(info, a.id));
  }
}
