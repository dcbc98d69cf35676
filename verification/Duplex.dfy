/** Two processes joined by two FIFO queues, under every interleaving and with every send to a
    process that is gone either going through or failing. */
module Duplex {
  import opened Prelude
  import opened Packets
  import opened Peers

  /** What a waiting process does on its next message, or when none will come. */
  type Reaction = (Peer, Option<Message>) -> Peer

  datatype System = System(left: Peer, right: Peer, toLeft: seq<Message>, toRight: seq<Message>)

  datatype Side = Left | Right

  /** The channel end of a process is closed once it stopped and sent everything. */
  predicate Gone(p: Peer) {
    p.phase.Stopped? && p.outbox == []
  }

  datatype Move = Move(peer: Peer, inbox: seq<Message>, sent: seq<Message>)

  /** The one thing a process can do next: send, read, or notice that its peer is gone. */
  function Next(react: Reaction, p: Peer, inbox: seq<Message>, peerGone: bool): Option<Move> {
    if p.outbox != [] then Some(Move(Said(p), inbox, [p.outbox[0]]))
    else if p.phase.Stopped? then None
    else if inbox != [] then Some(Move(react(p, Some(inbox[0])), inbox[1..], []))
    else if peerGone then Some(Move(react(p, None), [], []))
    else None
  }

  function Step(react: Reaction, sys: System, side: Side): Option<System> {
    match side
    case Left =>
      (match Next(react, sys.left, sys.toLeft, Gone(sys.right))
       case None => None
       case Some(Move(p, inbox, sent)) => Some(System(p, sys.right, inbox, sys.toRight + sent)))
    case Right =>
      (match Next(react, sys.right, sys.toRight, Gone(sys.left))
       case None => None
       case Some(Move(p, inbox, sent)) => Some(System(sys.left, p, sys.toLeft + sent, inbox)))
  }

  /** A run under a schedule; `None` when a scheduled side could not move. */
  function Run(react: Reaction, sys: System, schedule: seq<Side>): Option<System>
    decreases |schedule|
  {
    if schedule == [] then Some(sys)
    else
      match Step(react, sys, schedule[0])
      case None => None
      case Some(next) => Run(react, next, schedule[1..])
  }

  predicate Final(react: Reaction, sys: System) {
    Step(react, sys, Left).None? && Step(react, sys, Right).None?
  }

  lemma FinalStays(react: Reaction, sys: System, schedule: seq<Side>)
    requires Final(react, sys) && Run(react, sys, schedule).Some?
    ensures Run(react, sys, schedule) == Some(sys)
  {
    forall side: Side ensures Step(react, sys, side).None? {
      match side
      case Left =>
      case Right =>
    }
  }

  // ----- Sends that fail

  /** A send of one side fails because the other process is gone. */
  function Refuse(sys: System, side: Side): Option<System> {
    match side
    case Left => if sys.left.outbox != [] && Gone(sys.right) then Some(sys.(left := Failed(sys.left))) else None
    case Right => if sys.right.outbox != [] && Gone(sys.left) then Some(sys.(right := Failed(sys.right))) else None
  }

  /** A move of one side, or a send of it that fails. */
  datatype Event = Turn(side: Side) | Refused(side: Side)

  function Occur(react: Reaction, sys: System, event: Event): Option<System> {
    match event
    case Turn(side) => Step(react, sys, side)
    case Refused(side) => Refuse(sys, side)
  }

  /** A run in which sends may fail. */
  function Follow(react: Reaction, sys: System, events: seq<Event>): Option<System>
    decreases |events|
  {
    if events == [] then Some(sys)
    else
      match Occur(react, sys, events[0])
      case None => None
      case Some(next) => Follow(react, next, events[1..])
  }

  /** A failed send ends the run: both processes are then gone. */
  lemma RefusalIsLast(react: Reaction, sys: System, side: Side)
    requires Refuse(sys, side).Some?
    ensures Final(react, Refuse(sys, side).value)
    ensures forall e :: Occur(react, Refuse(sys, side).value, e).None?
  {}

  /** So a run has at most one failed send, the last event. */
  lemma {:induction false} OneRefusal(react: Reaction, sys: System, events: seq<Event>)
    returns (schedule: seq<Side>, refusal: Option<Side>)
    requires Follow(react, sys, events).Some?
    ensures Run(react, sys, schedule).Some?
    ensures refusal.None? ==> |schedule| == |events| && Follow(react, sys, events) == Run(react, sys, schedule)
    ensures refusal.Some? ==>
              && |schedule| + 1 == |events| && Final(react, Follow(react, sys, events).value)
              && Follow(react, sys, events) == Refuse(Run(react, sys, schedule).value, refusal.value)
    decreases |events|
  {
    if events == [] {
      schedule, refusal := [], None;
    } else {
      var next := Occur(react, sys, events[0]).value;
      match events[0] {
        case Refused(side) =>
          RefusalIsLast(react, sys, side);
          assert events[1..] == [];
          schedule, refusal := [], Some(side);
        case Turn(side) =>
          var tail, last := OneRefusal(react, next, events[1..]);
          schedule, refusal := [side] + tail, last;
          assert schedule[1..] == tail;
      }
    }
  }

  /** A run without failed sends, and one with a last send that fails, as events. */
  lemma {:induction false} Replay(react: Reaction, sys: System, schedule: seq<Side>, refusal: Option<Side>)
    returns (events: seq<Event>)
    requires Run(react, sys, schedule).Some?
    requires refusal.Some? ==> Refuse(Run(react, sys, schedule).value, refusal.value).Some?
    ensures Follow(react, sys, events)
            == if refusal.None? then Run(react, sys, schedule)
               else Refuse(Run(react, sys, schedule).value, refusal.value)
    decreases |schedule|
  {
    if schedule == [] {
      events := if refusal.None? then [] else [Refused(refusal.value)];
      assert refusal.Some? ==> events[1..] == [];
    } else {
      var tail := Replay(react, Step(react, sys, schedule[0]).value, schedule[1..], refusal);
      events := [Turn(schedule[0])] + tail;
      assert events[1..] == tail;
    }
  }

  // ----- Every interleaving ends in the same state

  /** Moves of the two sides commute. */
  lemma Diamond(react: Reaction, sys: System)
    requires Step(react, sys, Left).Some? && Step(react, sys, Right).Some?
    ensures Step(react, Step(react, sys, Left).value, Right).Some?
    ensures Step(react, Step(react, sys, Left).value, Right) == Step(react, Step(react, sys, Right).value, Left)
  {
    var l := Next(react, sys.left, sys.toLeft, Gone(sys.right)).value;
    var r := Next(react, sys.right, sys.toRight, Gone(sys.left)).value;
    NextUndisturbed(react, sys.left, sys.toLeft, Gone(sys.right), r.sent, Gone(r.peer));
    NextUndisturbed(react, sys.right, sys.toRight, Gone(sys.left), l.sent, Gone(l.peer));
  }

  /** What the other side does only adds to the end of the inbox. */
  lemma NextUndisturbed(react: Reaction, p: Peer, inbox: seq<Message>, peerGone: bool, more: seq<Message>,
                        goneLater: bool)
    requires Next(react, p, inbox, peerGone).Some?
    requires peerGone ==> more == [] && goneLater
    ensures var move := Next(react, p, inbox, peerGone).value;
            Next(react, p, inbox + more, goneLater) == Some(move.(inbox := move.inbox + more))
  {
    if inbox != [] {
      assert (inbox + more)[1..] == inbox[1..] + more;
    } else {
      assert inbox + more == more;
    }
  }

  /** A run to a final state can start with any enabled move. */
  lemma {:induction false} StartWith(react: Reaction, sys: System, schedule: seq<Side>, side: Side)
    returns (rest: seq<Side>)
    requires Run(react, sys, schedule).Some? && Final(react, Run(react, sys, schedule).value)
    requires Step(react, sys, side).Some?
    ensures |rest| + 1 == |schedule|
    ensures Run(react, Step(react, sys, side).value, rest) == Run(react, sys, schedule)
    decreases |schedule|
  {
    if schedule[0] == side {
      rest := schedule[1..];
    } else {
      Diamond(react, sys);
      var next := Step(react, sys, schedule[0]).value;
      var tail := StartWith(react, next, schedule[1..], side);
      rest := [schedule[0]] + tail;
      assert rest[1..] == tail;
    }
  }

  /** If one run ends, every run is at most as long and extends to that same end. */
  lemma {:induction false} Determinacy(react: Reaction, sys: System, ending: seq<Side>, schedule: seq<Side>)
    returns (rest: seq<Side>)
    requires Run(react, sys, ending).Some? && Final(react, Run(react, sys, ending).value)
    requires Run(react, sys, schedule).Some?
    ensures |schedule| + |rest| == |ending|
    ensures Run(react, Run(react, sys, schedule).value, rest) == Run(react, sys, ending)
    decreases |schedule|
  {
    if schedule == [] {
      rest := ending;
    } else {
      var tail := StartWith(react, sys, ending, schedule[0]);
      rest := Determinacy(react, Step(react, sys, schedule[0]).value, tail, schedule[1..]);
    }
  }

  /** A process that stopped stays stopped for the same reason. */
  lemma {:induction false} StopsPersist(react: Reaction, sys: System, schedule: seq<Side>)
    requires Run(react, sys, schedule).Some?
    ensures sys.left.phase.Stopped? ==> Run(react, sys, schedule).value.left.phase == sys.left.phase
    ensures sys.right.phase.Stopped? ==> Run(react, sys, schedule).value.right.phase == sys.right.phase
    decreases |schedule|
  {
    if schedule != [] {
      StopsPersist(react, Step(react, sys, schedule[0]).value, schedule[1..]);
    }
  }

  // ----- Building one run

  ghost predicate Reaches(react: Reaction, a: System, b: System) {
    exists schedule :: Run(react, a, schedule) == Some(b)
  }

  lemma {:induction false} RunAppend(react: Reaction, sys: System, a: seq<Side>, b: seq<Side>)
    requires Run(react, sys, a).Some?
    ensures Run(react, sys, a + b) == Run(react, Run(react, sys, a).value, b)
    decreases |a|
  {
    if a == [] {
      assert a + b == b;
    } else {
      RunAppend(react, Step(react, sys, a[0]).value, a[1..], b);
      assert (a + b)[1..] == a[1..] + b;
    }
  }

  lemma ReachesTransitive(react: Reaction, a: System, b: System, c: System)
    requires Reaches(react, a, b) && Reaches(react, b, c)
    ensures Reaches(react, a, c)
  {
    var x :| Run(react, a, x) == Some(b);
    var y :| Run(react, b, y) == Some(c);
    RunAppend(react, a, x, y);
  }

  lemma ReachesItself(react: Reaction, a: System)
    ensures Reaches(react, a, a)
  {
    assert Run(react, a, []) == Some(a);
  }

  lemma ReachesByStep(react: Reaction, a: System, side: Side, b: System)
    requires Step(react, a, side) == Some(b)
    ensures Reaches(react, a, b)
  {
    assert Run(react, b, []) == Some(b);
    assert Run(react, a, [side]) == Some(b);
  }

  /** The same system seen from the other end. */
  function Flip(sys: System): System {
    System(sys.right, sys.left, sys.toRight, sys.toLeft)
  }

  lemma {:induction false} RunFlipped(react: Reaction, sys: System, schedule: seq<Side>) returns (mirrored: seq<Side>)
    requires Run(react, sys, schedule).Some?
    ensures Run(react, Flip(sys), mirrored) == Some(Flip(Run(react, sys, schedule).value))
    decreases |schedule|
  {
    if schedule == [] {
      mirrored := [];
    } else {
      var next := Step(react, sys, schedule[0]).value;
      var side := if schedule[0].Left? then Right else Left;
      assert Step(react, Flip(sys), side) == Some(Flip(next));
      var tail := RunFlipped(react, next, schedule[1..]);
      mirrored := [side] + tail;
      assert mirrored[1..] == tail;
    }
  }

  lemma ReachesFlipped(react: Reaction, a: System, b: System)
    requires Reaches(react, Flip(a), Flip(b))
    ensures Reaches(react, a, b)
  {
    var schedule :| Run(react, Flip(a), schedule) == Some(Flip(b));
    var mirrored := RunFlipped(react, Flip(a), schedule);
    assert Flip(Flip(a)) == a && Flip(Flip(b)) == b;
  }

  /** The left process hands over its next message and the waiting right one reacts to it. */
  lemma DeliverOne(react: Reaction, a: System)
    requires a.left.outbox != [] && a.toRight == [] && !a.left.phase.Answering?
    requires a.right.outbox == [] && !a.right.phase.Stopped?
    ensures Reaches(react, a, a.(left := a.left.(outbox := a.left.outbox[1..]),
                                 right := react(a.right, Some(a.left.outbox[0]))))
  {
    var m := a.left.outbox[0];
    var sent := a.(left := a.left.(outbox := a.left.outbox[1..]), toRight := [m]);
    assert a.toRight + [m] == [m];
    ReachesByStep(react, a, Left, sent);
    var read := sent.(right := react(a.right, Some(m)), toRight := []);
    assert sent.toLeft + [] == sent.toLeft;
    assert [m][1..] == [];
    ReachesByStep(react, sent, Right, read);
    ReachesTransitive(react, a, sent, read);
  }

  /** Everything the left process has to say goes into the queue. */
  lemma {:induction false} Flush(react: Reaction, a: System)
    requires !a.left.phase.Answering?
    ensures Reaches(react, a, a.(left := a.left.(outbox := []), toRight := a.toRight + a.left.outbox))
    decreases |a.left.outbox|
  {
    if a.left.outbox == [] {
      assert a.toRight + [] == a.toRight;
      ReachesItself(react, a);
    } else {
      var m := a.left.outbox[0];
      var next := a.(left := a.left.(outbox := a.left.outbox[1..]), toRight := a.toRight + [m]);
      ReachesByStep(react, a, Left, next);
      Flush(react, next);
      assert a.toRight + [m] + a.left.outbox[1..] == a.toRight + a.left.outbox;
      ReachesTransitive(react, a, next, a.(left := a.left.(outbox := []), toRight := a.toRight + a.left.outbox));
    }
  }
}
