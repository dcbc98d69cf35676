/** Every run of a session, also those in which a send to a process that is gone fails. */
module Refusals {
  import opened Prelude
  import opened Packets
  import opened Peers
  import opened Duplex
  import opened Handshake
  import opened Streaming
  import FileStream
  import Chunks
  import FileTransfer

  // ----- The receive loop, message by message

  /** The receive loop after `n` messages of the stream. */
  function Reading(cfg: Config, n: nat): FileStream.Transfer
    requires cfg.selection.Some? && n <= |TheStream(cfg)|
  {
    FileStream.Receive(cfg.Receiver(), FileStream.Begin(cfg.results), TheStream(cfg)[..n])
  }

  /** The loop reads every message of an honest stream. */
  lemma ReadingNext(cfg: Config, n: nat)
    requires cfg.Valid() && cfg.selection.Some? && n < |TheStream(cfg)|
    ensures Reading(cfg, n).ending.Running?
    ensures Reading(cfg, n + 1) == FileStream.OnMessage(cfg.Receiver(), Reading(cfg, n), TheStream(cfg)[n])
  {
    hide FileStream.OnMessage, FileStream.Stream;
    var c, begin, ms := cfg.Receiver(), FileStream.Begin(cfg.results), TheStream(cfg);
    var stream := FileStream.Stream(cfg.json, cfg.FileTokens(), cfg.outgoing);
    FileTransfer.ReceiveStream(c, begin, cfg.outgoing);
    assert stream == ms[..n] + stream[n..];
    FileTransfer.ReceiveAppend(c, begin, ms[..n], stream[n..]);
    assert ms[..n + 1] == ms[..n] + [ms[n]] && [ms[n]][1..] == [];
    FileTransfer.ReceiveAppend(c, begin, ms[..n], [ms[n]]);
  }

  lemma ReadingEnds(cfg: Config)
    requires cfg.Valid() && cfg.selection.Some?
    ensures Reading(cfg, |TheStream(cfg)|) == StreamResult(cfg) && !StreamResult(cfg).ending.Running?
  {
    StreamUsedUp(cfg);
    assert TheStream(cfg)[..|TheStream(cfg)|] == TheStream(cfg);
  }

  function Due(cfg: Config, n: nat): seq<Message>
    requires cfg.selection.Some? && n <= |TheStream(cfg)|
  {
    FileStream.Texts(cfg.json, Reading(cfg, n).statuses)
  }

  lemma DueNext(cfg: Config, n: nat)
    requires cfg.Valid() && cfg.selection.Some? && n < |TheStream(cfg)|
    ensures var t, m := Reading(cfg, n), TheStream(cfg)[n];
            Due(cfg, n + 1) == Due(cfg, n) + if FileStream.Closes(t, m) then [cfg.json.Text(FileStream.NextStatus(t))]
              else []
  {
    ReadingNext(cfg, n);
    FileStream.StatusesGrow(cfg.Receiver(), Reading(cfg, n), TheStream(cfg)[n]);
  }

  // ----- What every run does from the offer on

  /** The offer is on its way to the receiver. */
  ghost predicate OfferCrossing(cfg: Config, x: System, pieces: seq<seq<byte>>) {
    && x.left.phase.SenderList? && x.left.buffer == [] && x.toLeft == []
    && (x.right.phase.ReceiverFiles? || x.right.phase.ReceiverGuessing?) && x.right.outbox == []
    && x.toRight + x.left.outbox == Binaries(pieces) + [DELIMITER]
    && x.right.buffer + Flatten(pieces) == cfg.json.encode(SendingOk(cfg.files))
  }

  function Answer(cfg: Config): Packet {
    if cfg.selection.None? then ListDeclined else ListOk(cfg.FileTokens())
  }

  /** The receiver's answer is on its way to the sender. */
  ghost predicate AnswerCrossing(cfg: Config, x: System, pieces: seq<seq<byte>>) {
    && x.left.phase.SenderList? && x.left.outbox == [] && x.toRight == []
    && x.right.files == cfg.files
    && x.right.phase == (if cfg.selection.None? then Stopped(Declined)
                         else Receiving(cfg.FileTokens(), FileStream.Begin(cfg.results)))
    && x.toLeft + x.right.outbox == Binaries(pieces) + [DELIMITER]
    && x.left.buffer + Flatten(pieces) == cfg.json.encode(Answer(cfg))
  }

  ghost predicate BothDeclined(cfg: Config, x: System) {
    && x.left.phase == x.right.phase == Stopped(Declined)
    && x.left.outbox == x.right.outbox == x.toLeft == x.toRight == []
  }

  /** The receive loop has read `n` messages, and the last status is sent or about to be. */
  ghost predicate HasRead(cfg: Config, p: Peer, n: nat)
    requires cfg.selection.Some? && n <= |TheStream(cfg)|
  {
    || (p.outbox == [] && p.phase == Resting(cfg.FileTokens(), Reading(cfg, n)))
    || (n > 0 && |p.outbox| == 1 && FileStream.Closes(Reading(cfg, n - 1), TheStream(cfg)[n - 1])
        && p.phase == Answering(cfg.FileTokens(), Reading(cfg, n - 1).(open := None), Reading(cfg, n)))
  }

  function Heard(p: Peer): seq<Message> {
    if p.phase.Stopped? && p.phase.stop.Sent? && p.phase.stop.heard.Some? then [p.phase.stop.heard.value] else []
  }

  /** The sender has still to hear a message, or has heard one, or the close without any. */
  ghost predicate Awaits(cfg: Config, x: System)
    requires cfg.selection.Some?
  {
    || x.left.phase == SenderLast(cfg.FileTokens())
    || (x.left.outbox == [] && x.left.phase.Stopped? && x.left.phase.stop.Sent?
        && x.left.phase.stop.tokens == cfg.FileTokens()
        && (x.left.phase.stop.heard.None? ==> Gone(x.right) && x.toLeft == []))
  }

  ghost predicate InStream(cfg: Config, x: System, n: nat) {
    && cfg.selection.Some? && n <= |TheStream(cfg)| && x.right.files == cfg.files
    && x.toRight + x.left.outbox == TheStream(cfg)[n..]
    && Heard(x.left) + x.toLeft + x.right.outbox == Due(cfg, n)
    && Awaits(cfg, x) && HasRead(cfg, x.right, n)
  }

  ghost predicate Stage(cfg: Config, x: System) {
    || (exists pieces :: OfferCrossing(cfg, x, pieces))
    || (exists pieces :: AnswerCrossing(cfg, x, pieces))
    || BothDeclined(cfg, x)
    || (exists n :: InStream(cfg, x, n))
  }

  lemma TakePiece(q: seq<Message>, behind: seq<Message>, pieces: seq<seq<byte>>, buffer: seq<byte>)
    requires q != [] && q + behind == Binaries(pieces) + [DELIMITER]
    ensures pieces == [] ==> q == [DELIMITER] && behind == []
    ensures pieces != [] ==>
              && q[0] == Binary(pieces[0]) && q[1..] + behind == Binaries(pieces[1..]) + [DELIMITER]
              && buffer + pieces[0] + Flatten(pieces[1..]) == buffer + Flatten(pieces)
  {
    var all := q + behind;
    assert all[0] == q[0] && all[1..] == q[1..] + behind;
    if pieces == [] {
      assert |all| == 1;
    } else {
      assert Binaries(pieces)[1..] == Binaries(pieces[1..]);
      Associative(buffer, pieces[0], Flatten(pieces[1..]));
    }
  }

  lemma OfferStep(cfg: Config, x: System, side: Side, pieces: seq<seq<byte>>)
    requires cfg.Valid() && OfferCrossing(cfg, x, pieces) && Step(Behaviour(cfg), x, side).Some?
    ensures Stage(cfg, Step(Behaviour(cfg), x, side).value)
  {
    var next := Step(Behaviour(cfg), x, side).value;
    if side.Left? {
      assert next.toRight + next.left.outbox == x.toRight + x.left.outbox;
      assert OfferCrossing(cfg, next, pieces);
    } else {
      TakePiece(x.toRight, x.left.outbox, pieces, x.right.buffer);
      assert x.toLeft + [] == [];
      if pieces == [] {
        OfferTaken(cfg, x, next);
      } else {
        assert OfferCrossing(cfg, next, pieces[1..]);
      }
    }
  }

  lemma OfferTaken(cfg: Config, x: System, next: System)
    requires cfg.Valid() && OfferCrossing(cfg, x, []) && x.toRight == [DELIMITER] && x.left.outbox == []
    requires Step(Behaviour(cfg), x, Right) == Some(next)
    ensures Stage(cfg, next)
  {
    var data, answer := cfg.json.encode(SendingOk(cfg.files)), cfg.json.encode(Answer(cfg));
    assert x.right.buffer == data by { assert x.right.buffer + [] == x.right.buffer; }
    OfferRead(cfg, x.right.(buffer := []));
    assert x.right.(buffer := []).(buffer := data) == x.right;
    assert next.right == Choose(cfg, x.right.(buffer := [], files := cfg.files));
    var pieces := Chunks.Split(answer, Chunks.CHUNK_SIZE);
    Chunks.SplitIsSplit(answer, Chunks.CHUNK_SIZE);
    NothingBefore(Frame(answer));
    assert [] + answer == answer;
    assert AnswerCrossing(cfg, next, pieces);
  }

  lemma AnswerStep(cfg: Config, x: System, side: Side, pieces: seq<seq<byte>>)
    requires cfg.Valid() && AnswerCrossing(cfg, x, pieces) && Step(Behaviour(cfg), x, side).Some?
    ensures Stage(cfg, Step(Behaviour(cfg), x, side).value)
  {
    var next := Step(Behaviour(cfg), x, side).value;
    if side.Right? {
      assert next.toLeft + next.right.outbox == x.toLeft + x.right.outbox;
      assert AnswerCrossing(cfg, next, pieces);
    } else {
      assert x.toLeft != [];
      TakePiece(x.toLeft, x.right.outbox, pieces, x.left.buffer);
      assert x.toRight + [] == [];
      if pieces == [] {
        AnswerTaken(cfg, x, next);
      } else {
        assert AnswerCrossing(cfg, next, pieces[1..]);
      }
    }
  }

  lemma AnswerTaken(cfg: Config, x: System, next: System)
    requires cfg.Valid() && AnswerCrossing(cfg, x, []) && x.toLeft == [DELIMITER] && x.right.outbox == []
    requires Step(Behaviour(cfg), x, Left) == Some(next)
    ensures Stage(cfg, next)
  {
    hide FileStream.Stream, FileStream.Receive;
    var data := cfg.json.encode(Answer(cfg));
    assert x.left.buffer == data by { assert x.left.buffer + [] == x.left.buffer; }
    AnswerRead(cfg, x.left.(buffer := []), Answer(cfg));
    assert x.left.(buffer := []).(buffer := data) == x.left;
    if cfg.selection.None? {
      assert BothDeclined(cfg, next);
    } else {
      assert next.left == SendStream(cfg, x.left.(buffer := []), cfg.FileTokens());
      StreamBegins(cfg, next);
    }
  }

  lemma StreamBegins(cfg: Config, x: System)
    requires cfg.Valid() && cfg.selection.Some? && x.toLeft == [] && x.toRight == [] && x.right.files == cfg.files
    requires x.left.phase == SenderLast(cfg.FileTokens())
    requires x.left.outbox == [] + TheStream(cfg)
    requires x.right.phase == Receiving(cfg.FileTokens(), FileStream.Begin(cfg.results)) && x.right.outbox == []
    ensures Stage(cfg, x)
  {
    hide TheStream;
    assert TheStream(cfg)[0..] == TheStream(cfg) && TheStream(cfg)[..0] == [];
    assert Due(cfg, 0) == [];
    assert InStream(cfg, x, 0);
  }

  lemma MoveHead(heard: seq<Message>, q: seq<Message>, behind: seq<Message>)
    requires q != []
    ensures heard + q + behind == heard + [q[0]] + q[1..] + behind
  {
    assert q == [q[0]] + q[1..];
    Associative(heard, [q[0]], q[1..]);
  }

  /** The sender sends a message of the stream, or hears one of the receiver's, or its close. */
  lemma StreamLeft(cfg: Config, x: System, n: nat)
    requires cfg.Valid() && InStream(cfg, x, n) && Step(Behaviour(cfg), x, Left).Some?
    ensures InStream(cfg, Step(Behaviour(cfg), x, Left).value, n)
  {
    hide HasRead, TheStream, Due;
    var next := Step(Behaviour(cfg), x, Left).value;
    assert x.left.phase.SenderLast?;
    if x.left.outbox != [] {
      assert next.toRight + next.left.outbox == x.toRight + x.left.outbox;
    } else {
      assert x.toRight + [] == x.toRight;
      if x.toLeft != [] {
        MoveHead([], x.toLeft, x.right.outbox);
        NothingBefore(x.toLeft);
        NothingBefore([x.toLeft[0]]);
      }
    }
  }

  /** The receiver reads a message, or sends its status. */
  lemma StreamRight(cfg: Config, x: System, n: nat)
    requires cfg.Valid() && InStream(cfg, x, n) && Step(Behaviour(cfg), x, Right).Some?
    ensures Stage(cfg, Step(Behaviour(cfg), x, Right).value)
  {
    hide TheStream, Due, Reading;
    var next := Step(Behaviour(cfg), x, Right).value;
    if x.right.outbox != [] {
      assert x.right.outbox[1..] == [];
      assert next.right.phase == Resting(cfg.FileTokens(), Reading(cfg, n));
      Associative(Heard(x.left), x.toLeft, x.right.outbox);
      assert Heard(x.left) + (x.toLeft + x.right.outbox) + [] == Due(cfg, n);
      assert InStream(cfg, next, n);
    } else {
      if n == |TheStream(cfg)| {
        ReadingEnds(cfg);
      }
      StreamRead(cfg, x, n);
    }
  }

  lemma StreamRead(cfg: Config, x: System, n: nat)
    requires cfg.Valid() && InStream(cfg, x, n) && Step(Behaviour(cfg), x, Right).Some?
    requires x.right.outbox == [] && n < |TheStream(cfg)| && x.toRight != []
    ensures InStream(cfg, Step(Behaviour(cfg), x, Right).value, n + 1)
  {
    hide TheStream, Due, Reading, FileStream.OnMessage;
    var next, ms, t := Step(Behaviour(cfg), x, Right).value, TheStream(cfg), Reading(cfg, n);
    assert ms[n..][0] == ms[n] && ms[n..][1..] == ms[n + 1..];
    assert (x.toRight + x.left.outbox)[1..] == x.toRight[1..] + x.left.outbox;
    ReadingNext(cfg, n);
    DueNext(cfg, n);
    assert next.right == OnStream(cfg, x.right, ms[n]);
    assert x.toLeft + [] == x.toLeft;
    if FileStream.Closes(t, ms[n]) {
      NothingBefore([cfg.json.Text(FileStream.NextStatus(t))]);
    }
  }

  lemma StageStep(cfg: Config, x: System, side: Side)
    requires cfg.Valid() && Stage(cfg, x) && Step(Behaviour(cfg), x, side).Some?
    ensures Stage(cfg, Step(Behaviour(cfg), x, side).value)
  {
    hide OfferCrossing, AnswerCrossing, InStream, Step;
    if pieces :| OfferCrossing(cfg, x, pieces) {
      OfferStep(cfg, x, side, pieces);
    } else if pieces :| AnswerCrossing(cfg, x, pieces) {
      AnswerStep(cfg, x, side, pieces);
    } else if n :| InStream(cfg, x, n) {
      match side
      case Left => StreamLeft(cfg, x, n);
      case Right => StreamRight(cfg, x, n);
    } else {
      DeclinedStays(cfg, x, side);
    }
  }

  lemma DeclinedStays(cfg: Config, x: System, side: Side)
    requires BothDeclined(cfg, x)
    ensures Step(Behaviour(cfg), x, side).None?
  {}

  /** What both ends know and have counted does not change any more. */
  ghost predicate Kept(o: System, x: System) {
    && x.left == o.left.(phase := x.left.phase, outbox := x.left.outbox, buffer := x.left.buffer)
    && x.right == o.right.(phase := x.right.phase, outbox := x.right.outbox, buffer := x.right.buffer,
                           files := x.right.files)
  }

  lemma StagePhases(cfg: Config, x: System)
    requires Stage(cfg, x)
    ensures x.left.phase.SenderList? || x.left.phase.SenderLast? || x.left.phase.Stopped?
    ensures || (exists pieces :: OfferCrossing(cfg, x, pieces))
            || x.right.phase.Receiving? || x.right.phase.Answering? || x.right.phase.Stopped?
  {}

  lemma OfferTakenKept(cfg: Config, x: System, pieces: seq<seq<byte>>)
    requires cfg.Valid() && OfferCrossing(cfg, x, pieces) && Step(Behaviour(cfg), x, Right).Some?
    ensures Kept(x, Step(Behaviour(cfg), x, Right).value)
  {
    TakePiece(x.toRight, x.left.outbox, pieces, x.right.buffer);
    if pieces == [] {
      var data := cfg.json.encode(SendingOk(cfg.files));
      assert x.right.buffer == data by { assert x.right.buffer + [] == x.right.buffer; }
      OfferRead(cfg, x.right.(buffer := []));
      assert x.right.(buffer := []).(buffer := data) == x.right;
    }
  }

  lemma LeftKept(cfg: Config, x: System)
    requires Step(Behaviour(cfg), x, Left).Some?
    requires x.left.phase.SenderList? || x.left.phase.SenderLast? || x.left.phase.Stopped?
    ensures Kept(x, Step(Behaviour(cfg), x, Left).value)
  {}

  lemma RightKept(cfg: Config, x: System)
    requires Step(Behaviour(cfg), x, Right).Some?
    requires x.right.phase.Receiving? || x.right.phase.Answering? || x.right.phase.Stopped?
    ensures Kept(x, Step(Behaviour(cfg), x, Right).value)
  {
    hide FileStream.OnMessage;
  }

  lemma KeptStep(cfg: Config, o: System, x: System, side: Side)
    requires cfg.Valid() && Stage(cfg, x) && Kept(o, x) && Step(Behaviour(cfg), x, side).Some?
    ensures Kept(o, Step(Behaviour(cfg), x, side).value)
  {
    StagePhases(cfg, x);
    if side.Left? {
      LeftKept(cfg, x);
    } else if pieces :| OfferCrossing(cfg, x, pieces) {
      OfferTakenKept(cfg, x, pieces);
    } else {
      RightKept(cfg, x);
    }
    hide Step, Stage;
  }

  lemma {:induction false} StageRun(cfg: Config, o: System, x: System, schedule: seq<Side>)
    requires cfg.Valid() && Stage(cfg, x) && Kept(o, x) && Run(Behaviour(cfg), x, schedule).Some?
    ensures var y := Run(Behaviour(cfg), x, schedule).value; Stage(cfg, y) && Kept(o, y)
    decreases |schedule|
  {
    hide Stage, Kept, Step;
    if schedule != [] {
      StageStep(cfg, x, schedule[0]);
      KeptStep(cfg, o, x, schedule[0]);
      StageRun(cfg, o, Step(Behaviour(cfg), x, schedule[0]).value, schedule[1..]);
    }
  }

  // ----- The offer

  /** Whenever the checks are passed, the offer is made in some run. */
  lemma OfferMade(cfg: Config) returns (o: System, way: seq<Side>)
    requires cfg.Valid() && Succeeds(cfg)
    ensures Offering(cfg, o) && Run(Behaviour(cfg), Initial(cfg), way) == Some(o)
  {
    hide Offering, Outcome, Succeeds, Run, Initial;
    SomeRunEnds(cfg);
    OutcomeMeaning(cfg);
    o :| Offering(cfg, o) && Reaches(Behaviour(cfg), Initial(cfg), o);
    way :| Run(Behaviour(cfg), Initial(cfg), way) == Some(o);
  }

  lemma OfferStage(cfg: Config, o: System)
    requires cfg.Valid() && Offering(cfg, o)
    ensures Stage(cfg, o) && Kept(o, o)
  {
    var data := cfg.json.encode(SendingOk(cfg.files));
    var pieces := Chunks.Split(data, Chunks.CHUNK_SIZE);
    Chunks.SplitIsSplit(data, Chunks.CHUNK_SIZE);
    NothingBefore(Frame(data));
    assert [] + data == data;
    assert OfferCrossing(cfg, o, pieces);
  }

  // ----- What a failed send leaves

  /** The receive loop cannot send a status: not the first one, which the sender waits for. */
  predicate Cuts(cfg: Config, n: nat)
    requires cfg.selection.Some?
  {
    && n < |TheStream(cfg)| && FileStream.Closes(Reading(cfg, n), TheStream(cfg)[n])
    && Reading(cfg, n).statuses != []
  }

  /** The report of a run in which the receive loop, having read the text at `n`, could not send the
      status it owed: the file is closed, and what is behind the text is left in the queue. */
  function CutReport(cfg: Config, n: nat): Report
    requires cfg.selection.Some? && Cuts(cfg, n)
  {
    Outcome(cfg).(receiver := Stopped(CutOff(cfg.FileTokens(), Reading(cfg, n).(open := None))),
                  unheard := Due(cfg, n)[1..], undelivered := TheStream(cfg)[n + 1..])
  }

  lemma RefusedInStream(cfg: Config, x: System, side: Side, n: nat)
    requires cfg.Valid() && InStream(cfg, x, n) && Refuse(x, side).Some?
    ensures side.Right? && n > 0 && Cuts(cfg, n - 1) && SenderThrough(x)
    ensures x.right.phase == Answering(cfg.FileTokens(), Reading(cfg, n - 1).(open := None), Reading(cfg, n))
    ensures x.toLeft == Due(cfg, n - 1)[1..] && x.toRight == TheStream(cfg)[n..]
  {
    hide TheStream, Due, Reading;
    if n == |TheStream(cfg)| {
      ReadingEnds(cfg);
    } else {
      ReadingNext(cfg, n);
    }
    assert side.Right? && x.right.phase.Answering?;
    assert Awaits(cfg, x) && x.left.phase.stop.heard.Some?;
    DueNext(cfg, n - 1);
    RefusedQueues(cfg, x, n);
  }

  lemma RefusedQueues(cfg: Config, x: System, n: nat)
    requires cfg.selection.Some? && 0 < n <= |TheStream(cfg)| && |Heard(x.left)| == |x.right.outbox| == 1
    requires FileStream.Closes(Reading(cfg, n - 1), TheStream(cfg)[n - 1]) && x.left.outbox == []
    requires Due(cfg, n) == Due(cfg, n - 1) + [cfg.json.Text(FileStream.NextStatus(Reading(cfg, n - 1)))]
    requires Heard(x.left) + x.toLeft + x.right.outbox == Due(cfg, n)
    requires x.toRight + x.left.outbox == TheStream(cfg)[n..]
    ensures Reading(cfg, n - 1).statuses != [] && x.toLeft == Due(cfg, n - 1)[1..] && x.toRight == TheStream(cfg)[n..]
  {
    hide TheStream, Reading;
    var due := Due(cfg, n);
    assert |due| == |Due(cfg, n - 1)| + 1;
    assert due[..|due| - 1] == Due(cfg, n - 1) && due[..|due| - 1] == Heard(x.left) + x.toLeft;
  }

  /** From the offer on, only a status can fail to be sent. */
  lemma RefusedStatus(cfg: Config, x: System, side: Side) returns (n: nat)
    requires cfg.Valid() && Stage(cfg, x) && Refuse(x, side).Some?
    ensures cfg.selection.Some? && InStream(cfg, x, n)
  {
    n :| InStream(cfg, x, n);
  }

  lemma RefusedReport(cfg: Config, x: System, f: System, side: Side, y: System, n: nat)
    requires cfg.Valid() && cfg.selection.Some? && Cuts(cfg, n)
    requires InStream(cfg, x, n + 1) && Refuse(x, side) == Some(y) && Kept(x, f)
    requires ReportOf(f) == Outcome(cfg) && Outcome(cfg).receiverFiles == cfg.files
    requires x.left.phase.Stopped? ==> x.left.phase == Outcome(cfg).sender
    ensures ReportOf(y) == CutReport(cfg, n)
  {
    RefusedInStream(cfg, x, side, n + 1);
    hide Outcome, Due, Reading, TheStream, Cuts;
  }

  lemma KeptFrom(cfg: Config, x: System)
    requires cfg.Valid() && Stage(cfg, x)
    ensures forall y :: Reaches(Behaviour(cfg), x, y) ==> Kept(x, y)
  {
    hide Stage, Step;
    forall y | Reaches(Behaviour(cfg), x, y) ensures Kept(x, y) {
      var schedule :| Run(Behaviour(cfg), x, schedule) == Some(y);
      StageRun(cfg, x, x, schedule);
    }
  }

  lemma EndKept(cfg: Config, x: System, schedule: seq<Side>) returns (f: System)
    requires cfg.Valid() && Succeeds(cfg) && Run(Behaviour(cfg), Initial(cfg), schedule) == Some(x) && Stage(cfg, x)
    ensures Kept(x, f) && ReportOf(f) == Outcome(cfg) && Outcome(cfg).receiverFiles == cfg.files
    ensures x.left.phase.Stopped? ==> x.left.phase == Outcome(cfg).sender
  {
    hide Outcome, ReportOf, Run, Initial, Succeeds, Kept, Stage;
    UnrefusedStops(cfg, schedule);
    OutcomeMeaning(cfg);
    KeptFrom(cfg, x);
    var _ := UnrefusedRunsEnd(cfg);
    f :| Reaches(Behaviour(cfg), x, f) && Final(Behaviour(cfg), f) && ReportOf(f) == Outcome(cfg);
  }

  /** In a session whose checks are passed, a status that cannot be sent leaves this report. */
  lemma StatusRefused(cfg: Config, x: System, side: Side, n: nat)
    requires cfg.Valid() && Succeeds(cfg) && Reaches(Behaviour(cfg), Initial(cfg), x)
    requires cfg.selection.Some? && InStream(cfg, x, n) && Refuse(x, side).Some?
    ensures n > 0 && Cuts(cfg, n - 1) && ReportOf(Refuse(x, side).value) == CutReport(cfg, n - 1)
  {
    hide Outcome, Run, Initial, Succeeds, Stage, Kept, InStream, Cuts, CutReport;
    var schedule :| Run(Behaviour(cfg), Initial(cfg), schedule) == Some(x);
    assert Stage(cfg, x) by { InStreamIsStage(cfg, x, n); }
    var f := EndKept(cfg, x, schedule);
    RefusedInStream(cfg, x, side, n);
    RefusedReport(cfg, x, f, side, Refuse(x, side).value, n - 1);
  }

  lemma InStreamIsStage(cfg: Config, x: System, n: nat)
    requires InStream(cfg, x, n)
    ensures Stage(cfg, x)
  {}
}
