/** The server's two mutexes: any number of tasks running through their lock sections never wait
    for each other in a cycle, so every run completes. */
module Locks {
  datatype Lock = Rooms | Counts

  datatype Op = Acquire(lock: Lock) | Release(lock: Lock)

  /** What a task does with the locks, one section after the other. */
  datatype Section =
    | Register        // counts the request while it holds the rooms
    | RegisterFull    // finds the room full before counting
    | Serve           // counts the request first, then enters the rooms
    | Refuse          // counts and finds the quota used up
    | Cleanup
    | Clear           // the hourly job

  function Ops(section: Section): seq<Op> {
    match section
    case Register => [Acquire(Rooms), Acquire(Counts), Release(Counts), Release(Rooms)]
    case RegisterFull => [Acquire(Rooms), Release(Rooms)]
    case Serve => [Acquire(Counts), Release(Counts), Acquire(Rooms), Release(Rooms)]
    case Refuse => [Acquire(Counts), Release(Counts)]
    case Cleanup => [Acquire(Rooms), Release(Rooms)]
    case Clear => [Acquire(Counts), Release(Counts)]
  }

  /** Which locks a section takes: only the registration takes one inside the other, namely the counts
      inside the rooms, and serving lets go of the counts before it enters the rooms. */
  lemma SectionLocks(section: Section)
    ensures Acquire(Rooms) in Ops(section) <==> section in {Register, RegisterFull, Serve, Cleanup}
    ensures Acquire(Counts) in Ops(section) <==> section in {Register, Serve, Refuse, Clear}
    ensures section == Register <==>
              exists i :: 0 <= i < |Ops(section)| - 1 && Ops(section)[i].Acquire? && Ops(section)[i + 1].Acquire?
    ensures section == Register ==> Ops(section)[0] == Acquire(Rooms)
    ensures section == Serve ==> Ops(section)[..3] == [Acquire(Counts), Release(Counts), Acquire(Rooms)]
  {
    if section == Register {
      assert Ops(section)[0].Acquire? && Ops(section)[0 + 1].Acquire?;
    }
  }

  function Program(sections: seq<Section>): seq<Op> {
    if sections == [] then [] else Ops(sections[0]) + Program(sections[1..])
  }

  /** The locks a task holds and what it still has to do. */
  datatype Task = Task(held: set<Lock>, rest: seq<Op>)

  type State = seq<Task>

  function Start(programs: seq<seq<Section>>): (s: State)
    ensures |s| == |programs|
    ensures forall i :: 0 <= i < |s| ==> s[i] == Task({}, Program(programs[i]))
  {
    seq(|programs|, i requires 0 <= i < |programs| => Task({}, Program(programs[i])))
  }

  /** A mutex is acquired only when no task holds it. */
  ghost predicate CanStep(s: State, i: nat) {
    && i < |s| && s[i].rest != []
    && match s[i].rest[0]
       case Acquire(lock) => forall j :: 0 <= j < |s| ==> lock !in s[j].held
       case Release(lock) => lock in s[i].held
  }

  function Step(s: State, i: nat): State
    requires CanStep(s, i)
  {
    var op, rest := s[i].rest[0], s[i].rest[1..];
    s[i := Task(if op.Acquire? then s[i].held + {op.lock} else s[i].held - {op.lock}, rest)]
  }

  ghost predicate CanRun(s: State, schedule: seq<nat>)
    decreases |schedule|
  {
    schedule != [] ==> CanStep(s, schedule[0]) && CanRun(Step(s, schedule[0]), schedule[1..])
  }

  function Run(s: State, schedule: seq<nat>): State
    requires CanRun(s, schedule)
    decreases |schedule|
  {
    if schedule == [] then s else Run(Step(s, schedule[0]), schedule[1..])
  }

  ghost predicate Done(s: State) {
    forall i :: 0 <= i < |s| ==> s[i].rest == []
  }

  // ----- The order of the locks

  /** Nothing is waited for while the counts are held, and only the counts while the rooms are. */
  predicate InOrder(held: set<Lock>, rest: seq<Op>)
    decreases |rest|
  {
    if rest == [] then held == {}
    else
      match rest[0]
      case Acquire(lock) => (held == {} || (held == {Rooms} && lock == Counts)) && InOrder(held + {lock}, rest[1..])
      case Release(lock) => lock in held && InOrder(held - {lock}, rest[1..])
  }

  lemma SectionInOrder(section: Section, after: seq<Op>)
    requires InOrder({}, after)
    ensures InOrder({}, Ops(section) + after)
  {
    var ops := Ops(section) + after;
    assert ops[|Ops(section)|..] == after;
    var none: set<Lock> := {};
    assert none + {Rooms} == {Rooms} && none + {Counts} == {Counts} && {Rooms} + {Counts} == {Rooms, Counts};
    assert {Rooms} - {Rooms} == {} && {Counts} - {Counts} == {} && {Rooms, Counts} - {Counts} == {Rooms};
    if |Ops(section)| == 2 {
      assert ops[1..][1..] == after;
      assert InOrder({ops[0].lock}, ops[1..]);
    } else {
      assert ops[3..][1..] == after && ops[2..][1..] == ops[3..] && ops[1..][1..] == ops[2..];
      assert InOrder({Rooms}, ops[3..]);
      if section.Register? {
        assert InOrder({Rooms, Counts}, ops[2..]);
        assert InOrder({Rooms}, ops[1..]);
      } else {
        assert InOrder({}, ops[2..]);
        assert InOrder({Counts}, ops[1..]);
      }
    }
  }

  lemma {:induction false} ProgramInOrder(sections: seq<Section>)
    ensures InOrder({}, Program(sections))
  {
    if sections != [] {
      ProgramInOrder(sections[1..]);
      SectionInOrder(sections[0], Program(sections[1..]));
    }
  }

  // ----- No cycle

  /** Each task keeps the order, and no two tasks hold one lock. */
  ghost predicate Inv(s: State) {
    && (forall i :: 0 <= i < |s| ==> InOrder(s[i].held, s[i].rest))
    && forall i, j, lock :: 0 <= i < |s| && 0 <= j < |s| && lock in s[i].held && lock in s[j].held ==> i == j
  }

  lemma StepInv(s: State, i: nat)
    requires Inv(s) && CanStep(s, i)
    ensures Inv(Step(s, i))
  {
    assert InOrder(s[i].held, s[i].rest);
    var next := Step(s, i);
    forall j | 0 <= j < |next| ensures InOrder(next[j].held, next[j].rest) {
      if j != i {
        assert next[j] == s[j];
        assert InOrder(s[j].held, s[j].rest);
      }
    }
  }

  /** A task that waits for a lock waits for a task that can go on. */
  lemma SomeoneCanStep(s: State, i: nat) returns (j: nat)
    requires Inv(s) && i < |s| && s[i].rest != []
    ensures CanStep(s, j)
  {
    j := i;
    if k :| 0 <= k < |s| && Counts in s[k].held {
      j := k;
    } else if k :| 0 <= k < |s| && Rooms in s[k].held {
      j := k;
    }
    assert InOrder(s[j].held, s[j].rest);
    var op := s[j].rest[0];
    if op.Acquire? {
      forall m | 0 <= m < |s| ensures op.lock !in s[m].held {
        if op.lock == Rooms {
          assert s[j].held == {};
          assert Rooms !in s[m].held;
        } else {
          assert Counts !in s[j].held;
          assert Counts !in s[m].held;
        }
      }
    }
  }

  lemma {:induction false} RunInv(s: State, schedule: seq<nat>)
    requires Inv(s) && CanRun(s, schedule)
    ensures Inv(Run(s, schedule))
    decreases |schedule|
  {
    if schedule != [] {
      StepInv(s, schedule[0]);
      RunInv(Step(s, schedule[0]), schedule[1..]);
    }
  }

  lemma StartInv(programs: seq<seq<Section>>)
    ensures Inv(Start(programs))
  {
    forall i | 0 <= i < |programs| ensures InOrder({}, Program(programs[i])) {
      ProgramInOrder(programs[i]);
    }
  }

  function Remaining(s: State): nat {
    if s == [] then 0 else Remaining(s[..|s| - 1]) + |s[|s| - 1].rest|
  }

  lemma {:induction false} StepRemaining(s: State, i: nat, t: Task)
    requires i < |s| && |t.rest| + 1 == |s[i].rest|
    ensures Remaining(s[i := t]) + 1 == Remaining(s)
  {
    var n := |s| - 1;
    if i == n {
      assert s[i := t][..n] == s[..n];
    } else {
      assert s[i := t][..n] == s[..n][i := t];
      StepRemaining(s[..n], i, t);
    }
  }

  lemma {:induction false} RunRemaining(s: State, schedule: seq<nat>)
    requires CanRun(s, schedule)
    ensures Remaining(Run(s, schedule)) + |schedule| == Remaining(s)
    decreases |schedule|
  {
    if schedule != [] {
      var i := schedule[0];
      StepRemaining(s, i, Step(s, i)[i]);
      RunRemaining(Step(s, i), schedule[1..]);
    }
  }

  /** However many tasks go through whatever sections, in every reachable state all are done or
      one can go on, at most one task is inside each lock, and no run is longer than the programs. */
  lemma NeverStuck(programs: seq<seq<Section>>, schedule: seq<nat>)
    requires CanRun(Start(programs), schedule)
    ensures var s := Run(Start(programs), schedule);
            && (Done(s) || exists i: nat :: CanStep(s, i))
            && (forall i, j, lock :: 0 <= i < |s| && 0 <= j < |s| && lock in s[i].held && lock in s[j].held ==> i == j)
            && |schedule| <= Remaining(Start(programs))
  {
    var s := Run(Start(programs), schedule);
    StartInv(programs);
    RunInv(Start(programs), schedule);
    RunRemaining(Start(programs), schedule);
    if i :| 0 <= i < |s| && s[i].rest != [] {
      var j := SomeoneCanStep(s, i);
    }
  }
}
