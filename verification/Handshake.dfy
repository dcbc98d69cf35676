/** Every run of a sender against a receiver ends in one state, given by the configuration. */
module Handshake {
  import opened Prelude
  import opened Packets
  import opened PinChallenge
  import opened Tokens
  import opened Peers
  import opened Duplex
  import Base64
  import opened Streaming
  import Chunks
  import FileStream
  import FileTransfer
  import Strings

  function Initial(cfg: Config): System {
    System(StartSender(cfg), StartReceiver(cfg), [], [])
  }

  /** What is observed of a state: where both ends are, their nonces, guesses sent and read, the
      file list at the receiver and, once the sender is through, what nobody has read. */
  datatype Report = Report(
    sender: Phase, receiver: Phase, senderNonce: seq<byte>, receiverNonce: seq<byte>,
    senderUsed: nat, senderTries: nat, receiverUsed: nat, receiverTries: nat, receiverFiles: seq<FileDto>,
    unheard: seq<Message>, undelivered: seq<Message>)

  predicate SenderThrough(sys: System) {
    sys.left.phase.Stopped? && sys.left.phase.stop.Sent?
  }

  function ReportOf(sys: System): Report {
    Report(sys.left.phase, sys.right.phase, sys.left.nonce, sys.right.nonce,
           sys.left.used, sys.left.tries, sys.right.used, sys.right.tries, sys.right.files,
           if SenderThrough(sys) then sys.toLeft else [], if SenderThrough(sys) then sys.toRight else [])
  }

  // ----- The outcome, as a function of the configuration alone

  function Both(r: Report, sender: Stop, receiver: Stop): Report {
    r.(sender := Stopped(sender), receiver := Stopped(receiver))
  }

  function AgreedNonce(cfg: Config): seq<byte> {
    cfg.senderNonce + cfg.receiverNonce
  }

  predicate ReceiverTrusts(cfg: Config) {
    CheckToken(cfg, cfg.receiverExpects, Generate(cfg.crypto, cfg.senderKey, AgreedNonce(cfg)), AgreedNonce(cfg))
      == Accepted
  }

  predicate SenderTrusts(cfg: Config) {
    CheckToken(cfg, cfg.senderExpects, Generate(cfg.crypto, cfg.receiverKey, AgreedNonce(cfg)), AgreedNonce(cfg))
      == Accepted
  }

  /** The right guess comes in time. */
  predicate Solves(config: PinConfig, guesses: seq<string>) {
    FirstRight(config.pin, guesses) < |guesses| && FirstRight(config.pin, guesses) < config.maxTries
  }

  /** The sender refuses before the first guess. */
  predicate SenderAllowsNone(cfg: Config) {
    cfg.senderPin.Some? && cfg.senderPin.value.pin != "" && cfg.senderPin.value.maxTries == 0
  }

  function TheStream(cfg: Config): seq<Message>
    requires cfg.selection.Some?
  {
    FileStream.Stream(cfg.json, cfg.FileTokens(), cfg.outgoing) + [DELIMITER]
  }

  /** What the receive loop makes of the whole stream. */
  function StreamResult(cfg: Config): FileStream.Transfer
    requires cfg.selection.Some?
  {
    FileStream.Receive(cfg.Receiver(), FileStream.Begin(cfg.results), TheStream(cfg))
  }

  /** The sender hears the first status, or the close when there is none, and reads no more. */
  function StreamOutcome(cfg: Config, r: Report): Report
    requires cfg.selection.Some?
  {
    var t := StreamResult(cfg);
    var statuses := FileStream.Texts(cfg.json, t.statuses);
    Both(r, Sent(cfg.FileTokens(), if statuses == [] then None else Some(statuses[0])),
         Transferred(cfg.FileTokens(), t))
    .(receiverFiles := cfg.files, unheard := if statuses == [] then [] else statuses[1..], undelivered := [])
  }

  function SelectionOutcome(cfg: Config, r: Report): Report {
    if cfg.selection.None? then Both(r, Declined, Declined).(receiverFiles := cfg.files) else StreamOutcome(cfg, r)
  }

  function SenderPinOutcome(cfg: Config, r: Report): Report {
    if cfg.senderPin.None? || cfg.senderPin.value.pin == "" then SelectionOutcome(cfg, r)
    else
      var config, guesses := cfg.senderPin.value, cfg.receiverGuesses;
      var k := FirstRight(config.pin, guesses);
      if Solves(config, guesses) then SelectionOutcome(cfg, r.(receiverUsed := k + 1, senderTries := k + 1))
      else if |guesses| >= config.maxTries then
        Both(r, TooManyTries, TooManyTries).(receiverUsed := config.maxTries, senderTries := config.maxTries)
      else Both(r, Closed, NoGuess).(receiverUsed := |guesses|, senderTries := |guesses|)
  }

  function ReceiverPinOutcome(cfg: Config, r: Report): Report {
    if cfg.receiverPin.None? then SenderPinOutcome(cfg, r)
    else
      var config, guesses := cfg.receiverPin.value, cfg.senderGuesses;
      var k := FirstRight(config.pin, guesses);
      if config.pin == "" then
        if guesses == [] then Both(r, NoGuess, Closed)
        else
          // The receiver never asked, so the first guess ends the frame it waits for.
          Both(r, if SenderAllowsNone(cfg) then TooManyTries else Closed, Garbled).(senderUsed := 1)
      else if Solves(config, guesses) then SenderPinOutcome(cfg, r.(senderUsed := k + 1, receiverTries := k + 1))
      else if |guesses| < config.maxTries then
        Both(r, NoGuess, Closed).(senderUsed := |guesses|, receiverTries := |guesses|)
      else if config.maxTries > 0 then
        Both(r, TooManyTries, TooManyTries).(senderUsed := config.maxTries, receiverTries := config.maxTries)
      else if guesses == [] then Both(r, NoGuess, TooManyTries)
      else Both(r, TooManyTries, TooManyTries).(senderUsed := 1)
  }

  function Outcome(cfg: Config): Report {
    var r := Report(SenderNonce, ReceiverNonce, AgreedNonce(cfg), AgreedNonce(cfg), 0, 0, 0, 0, [], [], []);
    if !ReceiverTrusts(cfg) then Both(r, InvalidSignature, Mistrusted)
    else if !SenderTrusts(cfg) then
      var overLimit := cfg.receiverPin.Some? && cfg.receiverPin.value.pin != "" && cfg.receiverPin.value.maxTries == 0;
      Both(r, Mistrusted, if overLimit then TooManyTries else Closed)
    else ReceiverPinOutcome(cfg, r)
  }

  lemma PhasesForgotten(cfg: Config, r: Report, sender: Phase, receiver: Phase)
    ensures SelectionOutcome(cfg, r.(sender := sender, receiver := receiver)) == SelectionOutcome(cfg, r)
  {}

  lemma SenderPinPhasesForgotten(cfg: Config, r: Report, sender: Phase, receiver: Phase)
    ensures SenderPinOutcome(cfg, r.(sender := sender, receiver := receiver)) == SenderPinOutcome(cfg, r)
  {
    hide SelectionOutcome;
    PhasesForgotten(cfg, r, sender, receiver);
    var k := if cfg.senderPin.Some? then FirstRight(cfg.senderPin.value.pin, cfg.receiverGuesses) + 1 else 0;
    PhasesForgotten(cfg, r.(receiverUsed := k, senderTries := k), sender, receiver);
  }

  lemma ReceiverPinPhasesForgotten(cfg: Config, r: Report, sender: Phase, receiver: Phase)
    ensures ReceiverPinOutcome(cfg, r.(sender := sender, receiver := receiver)) == ReceiverPinOutcome(cfg, r)
  {
    hide SenderPinOutcome;
    SenderPinPhasesForgotten(cfg, r, sender, receiver);
    var k := if cfg.receiverPin.Some? then FirstRight(cfg.receiverPin.value.pin, cfg.senderGuesses) + 1 else 0;
    SenderPinPhasesForgotten(cfg, r.(senderUsed := k, receiverTries := k), sender, receiver);
  }

  // ----- One run to that outcome

  /** Both peers know the nonce, nothing is under way and the text read so far is used up. */
  ghost predicate Quiet(cfg: Config, a: System) {
    && a.toLeft == [] && a.toRight == [] && a.left.buffer == [] && a.right.buffer == []
    && a.left.files == cfg.files
  }

  /** The sender has said its file list to the waiting receiver: all checks are passed. */
  ghost predicate Offering(cfg: Config, a: System) {
    && Quiet(cfg, a)
    && a.left.phase.SenderList? && a.left.outbox == Frame(cfg.json.encode(SendingOk(cfg.files)))
    && (a.right.phase.ReceiverFiles? || a.right.phase.ReceiverGuessing?) && a.right.outbox == []
  }

  predicate Accomplished(sender: Phase) {
    sender.Stopped? && (sender.stop.Sent? || sender.stop.Declined?)
  }

  ghost predicate Arrives(cfg: Config, a: System, report: Report) {
    exists f :: Reaches(Behaviour(cfg), a, f) && Final(Behaviour(cfg), f) && ReportOf(f) == report
  }

  /** Some run from here ends with that report and, if that is a success, some run makes the offer. */
  ghost predicate Ends(cfg: Config, a: System, report: Report) {
    && Arrives(cfg, a, report)
    && (Accomplished(report.sender) ==> exists o :: Offering(cfg, o) && Reaches(Behaviour(cfg), a, o))
  }

  lemma ArrivesHere(cfg: Config, a: System)
    requires Final(Behaviour(cfg), a)
    ensures Arrives(cfg, a, ReportOf(a))
  {
    ReachesItself(Behaviour(cfg), a);
  }

  lemma ArrivesLater(cfg: Config, a: System, b: System, report: Report)
    requires Reaches(Behaviour(cfg), a, b) && Arrives(cfg, b, report)
    ensures Arrives(cfg, a, report)
  {
    var f :| Reaches(Behaviour(cfg), b, f) && Final(Behaviour(cfg), f) && ReportOf(f) == report;
    ReachesTransitive(Behaviour(cfg), a, b, f);
  }

  lemma EndsLater(cfg: Config, a: System, b: System, report: Report)
    requires Reaches(Behaviour(cfg), a, b) && Ends(cfg, b, report)
    ensures Ends(cfg, a, report)
  {
    ArrivesLater(cfg, a, b, report);
    if Accomplished(report.sender) {
      var o :| Offering(cfg, o) && Reaches(Behaviour(cfg), b, o);
      ReachesTransitive(Behaviour(cfg), a, b, o);
    }
  }

  /** The head of the left outbox crosses to the waiting right process. */
  lemma ToRight(cfg: Config, a: System, behind: seq<Message>, report: Report)
    requires !a.left.phase.Answering? && a.left.outbox != [] && a.left.outbox[1..] == behind && a.toRight == []
    requires a.right.outbox == [] && !a.right.phase.Stopped?
    requires Ends(cfg, a.(left := a.left.(outbox := behind), right := React(cfg, a.right, Some(a.left.outbox[0]))),
                  report)
    ensures Ends(cfg, a, report)
  {
    DeliverOne(Behaviour(cfg), a);
    EndsLater(cfg, a, a.(left := a.left.(outbox := behind), right := React(cfg, a.right, Some(a.left.outbox[0]))),
              report);
  }

  lemma ToLeft(cfg: Config, a: System, behind: seq<Message>, report: Report)
    requires !a.right.phase.Answering? && a.right.outbox != [] && a.right.outbox[1..] == behind && a.toLeft == []
    requires a.left.outbox == [] && !a.left.phase.Stopped?
    requires Ends(cfg, a.(right := a.right.(outbox := behind), left := React(cfg, a.left, Some(a.right.outbox[0]))),
                  report)
    ensures Ends(cfg, a, report)
  {
    var b := a.(right := a.right.(outbox := behind), left := React(cfg, a.left, Some(a.right.outbox[0])));
    DeliverOne(Behaviour(cfg), Flip(a));
    ReachesFlipped(Behaviour(cfg), a, b);
    EndsLater(cfg, a, b, report);
  }

  /** A whole frame crosses and the other process reacts to its text. */
  lemma {:induction false} PiecesCross(cfg: Config, a: System, pieces: seq<seq<byte>>)
    requires !a.left.phase.Answering? && a.left.outbox == Binaries(pieces) + [DELIMITER]
    requires a.toRight == [] && a.right.outbox == [] && a.right.phase.ReadsFrame()
    ensures Reaches(Behaviour(cfg), a, a.(left := a.left.(outbox := []),
                               right := OnFrame(cfg, a.right.(buffer := a.right.buffer + Flatten(pieces)), Garbled)))
    decreases |pieces|
  {
    DeliverOne(Behaviour(cfg), a);
    if pieces == [] {
      assert a.left.outbox[0] == DELIMITER && a.left.outbox[1..] == [];
      assert a.right.buffer + Flatten(pieces) == a.right.buffer;
    } else {
      var next := a.(left := a.left.(outbox := a.left.outbox[1..]),
                     right := React(cfg, a.right, Some(a.left.outbox[0])));
      assert a.left.outbox[1..] == Binaries(pieces[1..]) + [DELIMITER];
      PiecesCross(cfg, next, pieces[1..]);
      assert a.right.buffer + pieces[0] + Flatten(pieces[1..]) == a.right.buffer + Flatten(pieces);
      ReachesTransitive(Behaviour(cfg), a, next,
        a.(left := a.left.(outbox := []),
           right := OnFrame(cfg, a.right.(buffer := a.right.buffer + Flatten(pieces)), Garbled)));
    }
  }

  lemma FrameCrosses(cfg: Config, a: System, data: seq<byte>)
    requires !a.left.phase.Answering? && a.left.outbox == Frame(data) && a.toRight == []
    requires a.right.outbox == [] && a.right.buffer == [] && a.right.phase.ReadsFrame()
    ensures Reaches(Behaviour(cfg), a,
              a.(left := a.left.(outbox := []), right := OnFrame(cfg, a.right.(buffer := data), Garbled)))
  {
    var pieces := Chunks.Split(data, Chunks.CHUNK_SIZE);
    Chunks.SplitIsSplit(data, Chunks.CHUNK_SIZE);
    PiecesCross(cfg, a, pieces);
    assert [] + data == data;
  }

  lemma FrameToRight(cfg: Config, a: System, data: seq<byte>, report: Report)
    requires !a.left.phase.Answering? && a.left.outbox == Frame(data) && a.toRight == []
    requires a.right.outbox == [] && a.right.buffer == [] && a.right.phase.ReadsFrame()
    requires Ends(cfg, a.(left := a.left.(outbox := []), right := OnFrame(cfg, a.right.(buffer := data), Garbled)),
                  report)
    ensures Ends(cfg, a, report)
  {
    FrameCrosses(cfg, a, data);
    EndsLater(cfg, a, a.(left := a.left.(outbox := []), right := OnFrame(cfg, a.right.(buffer := data), Garbled)),
              report);
  }

  lemma FrameComesBack(cfg: Config, a: System, data: seq<byte>)
    requires !a.right.phase.Answering? && a.right.outbox == Frame(data) && a.toLeft == []
    requires a.left.outbox == [] && a.left.buffer == [] && a.left.phase.ReadsFrame()
    ensures Reaches(Behaviour(cfg), a,
              a.(right := a.right.(outbox := []), left := OnFrame(cfg, a.left.(buffer := data), Garbled)))
  {
    FrameCrosses(cfg, Flip(a), data);
    ReachesFlipped(Behaviour(cfg), a,
                   a.(right := a.right.(outbox := []), left := OnFrame(cfg, a.left.(buffer := data), Garbled)));
  }

  /** The left process stopped; the right one drains nothing more and sees the channel closed. */
  lemma RightSeesClose(cfg: Config, a: System, report: Report)
    requires Gone(a.left) && a.right.outbox == [] && a.toRight == [] && !a.right.phase.Stopped?
    requires Ends(cfg, a.(right := React(cfg, a.right, None)), report)
    ensures Ends(cfg, a, report)
  {
    var b := a.(right := React(cfg, a.right, None));
    assert a.toLeft + [] == a.toLeft;
    ReachesByStep(Behaviour(cfg), a, Right, b);
    EndsLater(cfg, a, b, report);
  }

  lemma LeftSeesClose(cfg: Config, a: System, report: Report)
    requires Gone(a.right) && a.left.outbox == [] && a.toLeft == [] && !a.left.phase.Stopped?
    requires Ends(cfg, a.(left := React(cfg, a.left, None)), report)
    ensures Ends(cfg, a, report)
  {
    var b := a.(left := React(cfg, a.left, None));
    assert a.toRight + [] == a.toRight;
    ReachesByStep(Behaviour(cfg), a, Left, b);
    EndsLater(cfg, a, b, report);
  }

  // ----- The stages of the run, last one first

  lemma BothStopped(cfg: Config, a: System)
    requires Gone(a.left) && Gone(a.right)
    ensures Arrives(cfg, a, ReportOf(a))
    ensures !Accomplished(a.left.phase) ==> Ends(cfg, a, ReportOf(a))
  {
    ArrivesHere(cfg, a);
  }

  /** The receiver reads the file list and its user answers. */
  lemma OfferRead(cfg: Config, p: Peer)
    requires cfg.Valid() && (p.phase.ReceiverFiles? || p.phase.ReceiverGuessing?)
    ensures OnFrame(cfg, p.(buffer := cfg.json.encode(SendingOk(cfg.files))), Garbled)
            == Choose(cfg, p.(buffer := [], files := cfg.files))
  {
    var offer := SendingOk(cfg.files);
    assert cfg.json.decode(offer.Kind(), cfg.json.encode(offer)) == Some(offer);
  }

  /** The sender reads the answer. */
  lemma AnswerRead(cfg: Config, p: Peer, answer: Packet)
    requires cfg.Valid() && p.phase.SenderList? && (answer.ListDeclined? || answer.ListOk?)
    ensures OnFrame(cfg, p.(buffer := cfg.json.encode(answer)), Garbled)
            == if answer.ListOk? then SendStream(cfg, p.(buffer := []), answer.tokens)
               else p.(buffer := []).End(Declined)
  {
    assert cfg.json.decode(answer.Kind(), cfg.json.encode(answer)) == Some(answer);
  }

  lemma DeclinedStage(cfg: Config, a: System)
    requires cfg.Valid() && Quiet(cfg, a)
    requires a.left.phase.SenderList? && a.left.outbox == []
    requires a.right.outbox == Frame(cfg.json.encode(ListDeclined)) && a.right.phase == Stopped(Declined)
    ensures Arrives(cfg, a, Both(ReportOf(a), Declined, Declined))
  {
    var b := a.(right := a.right.(outbox := []), left := a.left.End(Declined));
    AnswerRead(cfg, a.left, ListDeclined);
    BothStopped(cfg, b);
    FrameComesBack(cfg, a, cfg.json.encode(ListDeclined));
    ArrivesLater(cfg, a, b, Both(ReportOf(a), Declined, Declined));
  }

  /** The receiver's tokens reach the sender, which sends its files. */
  lemma TokensStage(cfg: Config, a: System)
    requires cfg.Valid() && Quiet(cfg, a) && cfg.selection.Some? && a.right.files == cfg.files
    requires a.left.phase.SenderList? && a.left.outbox == []
    requires a.right.outbox == Frame(cfg.json.encode(ListOk(cfg.FileTokens())))
    requires a.right.phase == Receiving(cfg.FileTokens(), FileStream.Begin(cfg.results))
    ensures Arrives(cfg, a, StreamOutcome(cfg, ReportOf(a)))
  {
    hide StreamOutcome, Arrives, Frame;
    var answer := ListOk(cfg.FileTokens());
    var stream := TheStream(cfg);
    NothingBefore(stream);
    AnswerRead(cfg, a.left, answer);
    var b := a.(right := a.right.(outbox := []),
                left := a.left.(outbox := stream, phase := SenderLast(cfg.FileTokens())));
    StreamStage(cfg, b);
    SameOutcome(cfg, ReportOf(a), ReportOf(b));
    FrameComesBack(cfg, a, cfg.json.encode(answer));
    ArrivesLater(cfg, a, b, StreamOutcome(cfg, ReportOf(a)));
  }

  lemma SameOutcome(cfg: Config, r: Report, s: Report)
    requires cfg.selection.Some? && s == r.(sender := s.sender, receiver := s.receiver)
    ensures StreamOutcome(cfg, s) == StreamOutcome(cfg, r)
  {}

  /** The stream crosses, the statuses come back, and the sender reads one message. */
  lemma StreamStage(cfg: Config, a: System)
    requires cfg.Valid() && cfg.selection.Some? && a.toLeft == [] && a.toRight == [] && a.right.files == cfg.files
    requires a.left.phase == SenderLast(cfg.FileTokens()) && a.left.outbox == TheStream(cfg)
    requires a.right.phase == Receiving(cfg.FileTokens(), FileStream.Begin(cfg.results)) && a.right.outbox == []
    ensures Arrives(cfg, a, StreamOutcome(cfg, ReportOf(a)))
  {
    hide TheStream, FileStream.Receive, FileStream.Consumed, StreamOutcome, Arrives;
    var ms, t := TheStream(cfg), StreamResult(cfg);
    StreamUsedUp(cfg);
    NothingBefore(ms);
    var b := a.(left := a.left.(outbox := []), toRight := ms);
    var d := b.(right := b.right.(phase := Stopped(Transferred(cfg.FileTokens(), t))), toRight := [],
                toLeft := FileStream.Texts(cfg.json, t.statuses));
    SameOutcome(cfg, ReportOf(a), ReportOf(d));
    assert ms + [] == ms;
    assert AfterStream(cfg, b, ms, []) == d by {
      assert t.statuses[0..] == t.statuses && ms[|ms|..] == [];
      NothingBefore(FileStream.Texts(cfg.json, t.statuses));
    }
    StreamCrosses(cfg, b, ms, []);
    LastWait(cfg, d);
    ArrivesLater(cfg, b, d, StreamOutcome(cfg, ReportOf(a)));
    Flush(Behaviour(cfg), a);
    ArrivesLater(cfg, a, b, StreamOutcome(cfg, ReportOf(a)));
  }

  /** The receive loop ends with the last message of the stream. */
  lemma StreamUsedUp(cfg: Config)
    requires cfg.Valid() && cfg.selection.Some?
    ensures !StreamResult(cfg).ending.Running?
    ensures FileStream.Consumed(cfg.Receiver(), FileStream.Begin(cfg.results), TheStream(cfg)) == |TheStream(cfg)|
  {
    var _, _ := FileTransfer.StreamEnd(cfg.Receiver(), cfg.outgoing, cfg.results, []);
    assert TheStream(cfg) + [] == TheStream(cfg);
  }

  /** The sender's last wait: a status, or the close of the receiver that has none to send. */
  lemma LastWait(cfg: Config, a: System)
    requires cfg.selection.Some? && a.left.phase == SenderLast(cfg.FileTokens()) && a.left.outbox == []
    requires a.right.phase == Stopped(Transferred(cfg.FileTokens(), StreamResult(cfg))) && a.right.outbox == []
    requires a.toRight == [] && a.toLeft == FileStream.Texts(cfg.json, StreamResult(cfg).statuses)
    requires a.right.files == cfg.files
    ensures Arrives(cfg, a, StreamOutcome(cfg, ReportOf(a)))
  {
    hide StreamResult;
    var heard := if a.toLeft == [] then None else Some(a.toLeft[0]);
    var b := a.(left := a.left.End(Sent(cfg.FileTokens(), heard)),
                toLeft := if a.toLeft == [] then [] else a.toLeft[1..]);
    assert a.toRight + [] == a.toRight;
    ReachesByStep(Behaviour(cfg), a, Left, b);
    BothStopped(cfg, b);
    ArrivesLater(cfg, a, b, StreamOutcome(cfg, ReportOf(a)));
  }

  lemma SelectionStage(cfg: Config, a: System)
    requires cfg.Valid() && Offering(cfg, a)
    ensures Ends(cfg, a, SelectionOutcome(cfg, ReportOf(a)))
  {
    hide StreamOutcome, Arrives, Frame;
    OfferRead(cfg, a.right);
    var b := a.(left := a.left.(outbox := []), right := Choose(cfg, a.right.(files := cfg.files)));
    if cfg.selection.None? {
      NothingBefore(Frame(cfg.json.encode(ListDeclined)));
      DeclinedStage(cfg, b);
    } else {
      NothingBefore(Frame(cfg.json.encode(ListOk(cfg.FileTokens()))));
      TokensStage(cfg, b);
      ChosenOutcome(cfg, ReportOf(a), ReportOf(b));
    }
    FrameCrosses(cfg, a, cfg.json.encode(SendingOk(cfg.files)));
    ArrivesLater(cfg, a, b, SelectionOutcome(cfg, ReportOf(a)));
    ReachesItself(Behaviour(cfg), a);
  }

  lemma ChosenOutcome(cfg: Config, r: Report, s: Report)
    requires cfg.selection.Some?
    requires s == r.(sender := s.sender, receiver := s.receiver, receiverFiles := s.receiverFiles)
    ensures StreamOutcome(cfg, s) == StreamOutcome(cfg, r)
  {}

  // ----- The sender's PIN

  /** A guess reaches the sender's loop. */
  lemma GuessToSender(cfg: Config, a: System, config: PinConfig, guess: string, report: Report)
    requires cfg.Valid() && a.toLeft == [] && cfg.senderPin == Some(config)
    requires a.left.phase.SenderVerifying? && a.left.outbox == []
    requires !a.right.phase.Answering? && a.right.outbox == [cfg.json.Text(Pin(guess))]
    requires Ends(cfg, a.(right := a.right.(outbox := []),
                          left := SenderCheck(cfg, a.left.(tries := a.left.tries + 1), config, guess, false)), report)
    ensures Ends(cfg, a, report)
  {
    assert cfg.json.decode(Pin(guess).Kind(), cfg.json.encode(Pin(guess))) == Some(Pin(guess));
    assert React(cfg, a.left, Some(cfg.json.Text(Pin(guess))))
        == SenderCheck(cfg, a.left.(tries := a.left.tries + 1), config, guess, false);
    ToLeft(cfg, a, [], report);
  }

  /** A request to try again reaches the receiver, which asks its user. */
  lemma RetryToReceiver(cfg: Config, a: System, report: Report)
    requires cfg.Valid() && Quiet(cfg, a) && (a.right.phase.ReceiverFiles? || a.right.phase.ReceiverGuessing?)
    requires !a.left.phase.Answering? && a.left.outbox == Frame(cfg.json.encode(SendingPinRequired))
             && a.right.outbox == []
    requires Ends(cfg, a.(left := a.left.(outbox := []),
                          right := AskUser(cfg, a.right, cfg.receiverGuesses, ReceiverGuessing)), report)
    ensures Ends(cfg, a, report)
  {
    var data := cfg.json.encode(SendingPinRequired);
    assert cfg.json.decode(SendingPinRequired.Kind(), data) == Some(SendingPinRequired);
    assert a.right.(buffer := data).(buffer := []) == a.right;
    assert OnFrame(cfg, a.right.(buffer := data), Garbled)
        == AskUser(cfg, a.right, cfg.receiverGuesses, ReceiverGuessing);
    FrameToRight(cfg, a, data, report);
  }

  /** The sender's last word after too many guesses. */
  lemma SenderRefuses(cfg: Config, a: System)
    requires cfg.Valid() && Quiet(cfg, a) && (a.right.phase.ReceiverFiles? || a.right.phase.ReceiverGuessing?)
    requires a.left.outbox == Frame(cfg.json.encode(SendingTooManyAttempts)) && a.right.outbox == []
    requires a.left.phase == Stopped(TooManyTries)
    ensures Ends(cfg, a, Both(ReportOf(a), TooManyTries, TooManyTries))
  {
    var data := cfg.json.encode(SendingTooManyAttempts);
    assert cfg.json.decode(SendingTooManyAttempts.Kind(), data) == Some(SendingTooManyAttempts);
    assert a.right.(buffer := data).(buffer := []) == a.right;
    assert OnFrame(cfg, a.right.(buffer := data), Garbled) == a.right.End(TooManyTries);
    BothStopped(cfg, a.(left := a.left.(outbox := []), right := a.right.End(TooManyTries)));
    FrameToRight(cfg, a, data, Both(ReportOf(a), TooManyTries, TooManyTries));
  }

  /** The receiver's user left while the sender waits for a guess. */
  lemma SenderAbandoned(cfg: Config, a: System, stop: Stop)
    requires a.toLeft == [] && a.left.phase.SenderVerifying? && a.left.outbox == [] && Gone(a.right)
    requires a.right.phase == Stopped(stop)
    ensures Ends(cfg, a, Both(ReportOf(a), Closed, stop))
  {
    BothStopped(cfg, a.(left := a.left.End(Closed)));
    LeftSeesClose(cfg, a, Both(ReportOf(a), Closed, stop));
  }

  lemma NothingBefore(ms: seq<Message>)
    ensures [] + ms == ms
  {}

  /** The receiver's user is asked with `t` guesses read; the sender waits for the next. */
  ghost predicate SenderWaits(cfg: Config, a: System, q: Peer, config: PinConfig, t: nat) {
    && cfg.Valid() && Quiet(cfg, a) && cfg.senderPin == Some(config) && config.pin != ""
    && t <= FirstRight(config.pin, cfg.receiverGuesses) && t < config.maxTries
    && a.left.phase.SenderVerifying? && a.left.outbox == [] && a.left.tries == t
    && q.outbox == [] && q.used == t && !q.phase.Stopped?
    && a.right == AskUser(cfg, q, cfg.receiverGuesses, ReceiverGuessing)
  }

  /** The state after the sender read the next guess. */
  function SenderReads(cfg: Config, a: System, config: PinConfig, guess: string): System {
    a.(right := a.right.(outbox := []),
       left := SenderCheck(cfg, a.left.(tries := a.left.tries + 1), config, guess, false))
  }

  lemma SenderReadsGuess(cfg: Config, a: System, q: Peer, config: PinConfig, t: nat)
    requires SenderWaits(cfg, a, q, config, t) && t < |cfg.receiverGuesses|
    ensures var guess, next := cfg.receiverGuesses[t], SenderReads(cfg, a, config, cfg.receiverGuesses[t]).left;
            var p := a.left.(tries := t + 1);
            next == if guess == config.pin then
                      p.(phase := SenderList, outbox := Frame(cfg.json.encode(SendingOk(cfg.files))))
                    else if t + 1 < config.maxTries then p.(outbox := Frame(cfg.json.encode(SendingPinRequired)))
                    else p.(phase := Stopped(TooManyTries), outbox := Frame(cfg.json.encode(SendingTooManyAttempts)))
    ensures a.right == q.(used := t + 1, phase := ReceiverGuessing,
                          outbox := [cfg.json.Text(Pin(cfg.receiverGuesses[t]))])
  {
    NothingBefore([cfg.json.Text(Pin(cfg.receiverGuesses[t]))]);
    NothingBefore(Frame(cfg.json.encode(SendingOk(cfg.files))));
    NothingBefore(Frame(cfg.json.encode(SendingPinRequired)));
    NothingBefore(Frame(cfg.json.encode(SendingTooManyAttempts)));
  }

  lemma SenderGuessRight(cfg: Config, a: System, q: Peer, config: PinConfig, t: nat)
    requires SenderWaits(cfg, a, q, config, t) && t < |cfg.receiverGuesses| && cfg.receiverGuesses[t] == config.pin
    ensures Ends(cfg, a, SenderPinOutcome(cfg, ReportOf(a)))
  {
    hide SenderCheck, AskUser, Frame, SelectionOutcome, Ends;
    SenderReadsGuess(cfg, a, q, config, t);
    var b := SenderReads(cfg, a, config, config.pin);
    SelectionStage(cfg, b);
    PhasesForgotten(cfg, ReportOf(b), a.left.phase, a.right.phase);
    GuessToSender(cfg, a, config, config.pin, SenderPinOutcome(cfg, ReportOf(a)));
  }

  lemma SenderLimit(cfg: Config, config: PinConfig, r: Report)
    requires cfg.senderPin == Some(config) && config.pin != "" && config.maxTries <= |cfg.receiverGuesses|
    requires config.maxTries <= FirstRight(config.pin, cfg.receiverGuesses)
    ensures SenderPinOutcome(cfg, r)
            == Both(r, TooManyTries, TooManyTries).(receiverUsed := config.maxTries, senderTries := config.maxTries)
  {}

  lemma SenderGuessLast(cfg: Config, a: System, q: Peer, config: PinConfig, t: nat)
    requires SenderWaits(cfg, a, q, config, t) && t < |cfg.receiverGuesses| && cfg.receiverGuesses[t] != config.pin
    requires t + 1 == config.maxTries
    ensures Ends(cfg, a, SenderPinOutcome(cfg, ReportOf(a)))
  {
    hide SenderCheck, AskUser, Frame, SenderPinOutcome, Ends;
    SenderReadsGuess(cfg, a, q, config, t);
    SenderLimit(cfg, config, ReportOf(a));
    SenderRefuses(cfg, SenderReads(cfg, a, config, cfg.receiverGuesses[t]));
    GuessToSender(cfg, a, config, cfg.receiverGuesses[t], SenderPinOutcome(cfg, ReportOf(a)));
  }

  /** The state after a wrong guess, with the receiver's user asked again. */
  function SenderRetries(cfg: Config, a: System, config: PinConfig, guess: string): System {
    var b := SenderReads(cfg, a, config, guess);
    b.(left := b.left.(outbox := []), right := AskUser(cfg, b.right, cfg.receiverGuesses, ReceiverGuessing))
  }

  lemma SenderGuessWrong(cfg: Config, a: System, q: Peer, config: PinConfig, t: nat)
    requires SenderWaits(cfg, a, q, config, t) && t < |cfg.receiverGuesses| && cfg.receiverGuesses[t] != config.pin
    requires t + 1 < config.maxTries
    ensures var next := SenderRetries(cfg, a, config, cfg.receiverGuesses[t]);
            && SenderWaits(cfg, next, a.right.(outbox := []), config, t + 1)
            && SenderPinOutcome(cfg, ReportOf(next)) == SenderPinOutcome(cfg, ReportOf(a))
  {
    hide SenderCheck, Frame;
    SenderReadsGuess(cfg, a, q, config, t);
  }

  lemma SenderRetriesReached(cfg: Config, a: System, q: Peer, config: PinConfig, t: nat, report: Report)
    requires SenderWaits(cfg, a, q, config, t) && t < |cfg.receiverGuesses| && cfg.receiverGuesses[t] != config.pin
    requires t + 1 < config.maxTries
    requires Ends(cfg, SenderRetries(cfg, a, config, cfg.receiverGuesses[t]), report)
    ensures Ends(cfg, a, report)
  {
    hide SenderCheck, Frame, AskUser, Ends;
    SenderReadsGuess(cfg, a, q, config, t);
    RetryToReceiver(cfg, SenderReads(cfg, a, config, cfg.receiverGuesses[t]), report);
    GuessToSender(cfg, a, config, cfg.receiverGuesses[t], report);
  }

  lemma {:induction false} SenderPinLoop(cfg: Config, a: System, q: Peer, config: PinConfig, t: nat)
    requires SenderWaits(cfg, a, q, config, t)
    ensures Ends(cfg, a, SenderPinOutcome(cfg, ReportOf(a)))
    decreases config.maxTries - t
  {
    if t == |cfg.receiverGuesses| {
      SenderAbandoned(cfg, a, NoGuess);
    } else if cfg.receiverGuesses[t] == config.pin {
      SenderGuessRight(cfg, a, q, config, t);
    } else if t + 1 == config.maxTries {
      SenderGuessLast(cfg, a, q, config, t);
    } else {
      SenderGuessWrong(cfg, a, q, config, t);
      SenderPinLoop(cfg, SenderRetries(cfg, a, config, cfg.receiverGuesses[t]), a.right.(outbox := []), config, t + 1);
      SenderRetriesReached(cfg, a, q, config, t, SenderPinOutcome(cfg, ReportOf(a)));
    }
  }

  /** The sender begins its own challenge, if it has a PIN, towards a receiver that waits for files. */
  lemma SenderPinStage(cfg: Config, a: System, p: Peer)
    requires cfg.Valid() && Quiet(cfg, a) && a.left == SenderChallenge(cfg, p)
    requires p.outbox == [] && p.buffer == [] && p.files == cfg.files && p.tries == 0
    requires a.right.phase.ReceiverFiles? && a.right.outbox == [] && a.right.used == 0
    ensures Ends(cfg, a, SenderPinOutcome(cfg, ReportOf(a)))
  {
    NothingBefore(Frame(cfg.json.encode(SendingOk(cfg.files))));
    NothingBefore(Frame(cfg.json.encode(SendingPinRequired)));
    NothingBefore(Frame(cfg.json.encode(SendingTooManyAttempts)));
    if cfg.senderPin.None? || cfg.senderPin.value.pin == "" {
      SelectionStage(cfg, a);
    } else if cfg.senderPin.value.maxTries == 0 {
      SenderRefuses(cfg, a);
    } else {
      var b := a.(left := a.left.(outbox := []), right := AskUser(cfg, a.right, cfg.receiverGuesses, ReceiverGuessing));
      SenderPinLoop(cfg, b, a.right, cfg.senderPin.value, 0);
      RetryToReceiver(cfg, a, SenderPinOutcome(cfg, ReportOf(a)));
    }
  }

  lemma FlushLeft(cfg: Config, a: System, report: Report)
    requires !a.left.phase.Answering?
    requires Ends(cfg, a.(left := a.left.(outbox := []), toRight := a.toRight + a.left.outbox), report)
    ensures Ends(cfg, a, report)
  {
    Flush(Behaviour(cfg), a);
    EndsLater(cfg, a, a.(left := a.left.(outbox := []), toRight := a.toRight + a.left.outbox), report);
  }

  lemma FlushRight(cfg: Config, a: System, report: Report)
    requires !a.right.phase.Answering?
    requires Ends(cfg, a.(right := a.right.(outbox := []), toLeft := a.toLeft + a.right.outbox), report)
    ensures Ends(cfg, a, report)
  {
    Flush(Behaviour(cfg), Flip(a));
    var b := a.(right := a.right.(outbox := []), toLeft := a.toLeft + a.right.outbox);
    ReachesFlipped(Behaviour(cfg), a, b);
    EndsLater(cfg, a, b, report);
  }

  // ----- The receiver's PIN

  /** A guess reaches the receiver's loop. */
  lemma GuessToReceiver(cfg: Config, a: System, config: PinConfig, guess: string, report: Report)
    requires cfg.Valid() && a.toRight == [] && cfg.receiverPin == Some(config)
    requires a.right.phase.ReceiverVerifying? && a.right.outbox == []
    requires !a.left.phase.Answering? && a.left.outbox == [cfg.json.Text(Pin(guess))]
    requires Ends(cfg, a.(left := a.left.(outbox := []),
                          right := ReceiverCheck(cfg, a.right.(tries := a.right.tries + 1), config, guess)), report)
    ensures Ends(cfg, a, report)
  {
    assert cfg.json.decode(Pin(guess).Kind(), cfg.json.encode(Pin(guess))) == Some(Pin(guess));
    assert React(cfg, a.right, Some(cfg.json.Text(Pin(guess))))
        == ReceiverCheck(cfg, a.right.(tries := a.right.tries + 1), config, guess);
    ToRight(cfg, a, [], report);
  }

  /** The receiver's reply reaches the guessing sender. */
  lemma ReplyToSender(cfg: Config, a: System, reply: Packet, report: Report)
    requires cfg.Valid() && a.toLeft == [] && a.left.phase.SenderGuessing? && a.left.outbox == []
    requires !a.right.phase.Answering? && a.right.outbox == [cfg.json.Text(reply)]
    requires reply.ReceivingOk? || reply.ReceivingPinRequired? || reply.ReceivingTooManyAttempts?
    requires Ends(cfg, a.(right := a.right.(outbox := []),
                          left := if reply.ReceivingOk? then SenderChallenge(cfg, a.left)
                                  else if reply.ReceivingPinRequired?
                                       then AskUser(cfg, a.left, cfg.senderGuesses, SenderGuessing)
                                  else a.left.End(TooManyTries)), report)
    ensures Ends(cfg, a, report)
  {
    hide Ends, SenderChallenge, AskUser;
    assert cfg.json.decode(reply.Kind(), cfg.json.encode(reply)) == Some(reply);
    assert React(cfg, a.left, Some(cfg.json.Text(reply))) == OnReceivingResponse(cfg, a.left, cfg.json.encode(reply));
    ToLeft(cfg, a, [], report);
  }

  /** The sender is gone while the receiver waits for a guess or for the file list. */
  lemma ReceiverAbandoned(cfg: Config, a: System, stop: Stop)
    requires cfg.Valid() && a.toRight == [] && a.right.buffer == [] && a.right.outbox == [] && Gone(a.left)
    requires a.right.phase.ReceiverVerifying? || a.right.phase.ReceiverFiles?
    requires a.left.phase == Stopped(stop) && !stop.Sent? && !stop.Declined?
    ensures Ends(cfg, a, Both(ReportOf(a), stop, Closed))
  {
    assert a.right.(buffer := []) == a.right;
    assert React(cfg, a.right, None) == a.right.End(Closed);
    BothStopped(cfg, a.(right := a.right.End(Closed)));
    RightSeesClose(cfg, a, Both(ReportOf(a), stop, Closed));
  }

  lemma ReceiverAccepts(cfg: Config, a: System)
    requires cfg.Valid() && Quiet(cfg, a) && a.left.phase.SenderGuessing? && a.left.outbox == [] && a.left.tries == 0
    requires a.right.phase.ReceiverFiles? && a.right.outbox == [cfg.json.Text(ReceivingOk)] && a.right.used == 0
    ensures Ends(cfg, a, SenderPinOutcome(cfg, ReportOf(a)))
  {
    hide SenderPinOutcome, Ends, Frame;
    var b := a.(right := a.right.(outbox := []), left := SenderChallenge(cfg, a.left));
    SenderPinStage(cfg, b, a.left);
    SenderPinPhasesForgotten(cfg, ReportOf(b), a.left.phase, a.right.phase);
    ReplyToSender(cfg, a, ReceivingOk, SenderPinOutcome(cfg, ReportOf(a)));
  }

  lemma ReceiverRefuses(cfg: Config, a: System)
    requires cfg.Valid() && a.toLeft == [] && a.left.phase.SenderGuessing? && a.left.outbox == []
    requires a.right.phase == Stopped(TooManyTries) && a.right.outbox == [cfg.json.Text(ReceivingTooManyAttempts)]
    ensures Ends(cfg, a, Both(ReportOf(a), TooManyTries, TooManyTries))
  {
    BothStopped(cfg, a.(right := a.right.(outbox := []), left := a.left.End(TooManyTries)));
    ReplyToSender(cfg, a, ReceivingTooManyAttempts, Both(ReportOf(a), TooManyTries, TooManyTries));
  }

  /** The sender's user is asked with `t` guesses read; the receiver waits for the next. */
  ghost predicate ReceiverWaits(cfg: Config, a: System, q: Peer, config: PinConfig, t: nat) {
    && cfg.Valid() && Quiet(cfg, a) && cfg.receiverPin == Some(config) && config.pin != ""
    && t <= FirstRight(config.pin, cfg.senderGuesses) && t < config.maxTries
    && a.right.phase.ReceiverVerifying? && a.right.outbox == [] && a.right.tries == t && a.right.used == 0
    && q.outbox == [] && q.used == t && q.tries == 0 && !q.phase.Stopped?
    && a.left == AskUser(cfg, q, cfg.senderGuesses, SenderGuessing)
  }

  function ReceiverReads(cfg: Config, a: System, config: PinConfig, guess: string): System {
    a.(left := a.left.(outbox := []), right := ReceiverCheck(cfg, a.right.(tries := a.right.tries + 1), config, guess))
  }

  lemma ReceiverReadsGuess(cfg: Config, a: System, q: Peer, config: PinConfig, t: nat)
    requires ReceiverWaits(cfg, a, q, config, t) && t < |cfg.senderGuesses|
    ensures var guess, next := cfg.senderGuesses[t], ReceiverReads(cfg, a, config, cfg.senderGuesses[t]).right;
            var p := a.right.(tries := t + 1);
            next == if guess == config.pin then p.(phase := ReceiverFiles, outbox := [cfg.json.Text(ReceivingOk)])
                    else if t + 1 < config.maxTries then p.(outbox := [cfg.json.Text(ReceivingPinRequired)])
                    else p.(phase := Stopped(TooManyTries), outbox := [cfg.json.Text(ReceivingTooManyAttempts)])
    ensures a.left == q.(used := t + 1, phase := SenderGuessing, outbox := [cfg.json.Text(Pin(cfg.senderGuesses[t]))])
  {
    NothingBefore([cfg.json.Text(Pin(cfg.senderGuesses[t]))]);
    NothingBefore([cfg.json.Text(ReceivingOk)]);
    NothingBefore([cfg.json.Text(ReceivingPinRequired)]);
    NothingBefore([cfg.json.Text(ReceivingTooManyAttempts)]);
  }

  lemma ReceiverGuessRight(cfg: Config, a: System, q: Peer, config: PinConfig, t: nat)
    requires ReceiverWaits(cfg, a, q, config, t) && t < |cfg.senderGuesses| && cfg.senderGuesses[t] == config.pin
    ensures Ends(cfg, a, ReceiverPinOutcome(cfg, ReportOf(a)))
  {
    hide ReceiverCheck, AskUser, SenderPinOutcome, Ends;
    ReceiverReadsGuess(cfg, a, q, config, t);
    var b := ReceiverReads(cfg, a, config, config.pin);
    ReceiverAccepts(cfg, b);
    SenderPinPhasesForgotten(cfg, ReportOf(b), a.left.phase, a.right.phase);
    GuessToReceiver(cfg, a, config, config.pin, ReceiverPinOutcome(cfg, ReportOf(a)));
  }

  lemma ReceiverLimit(cfg: Config, config: PinConfig, r: Report)
    requires cfg.receiverPin == Some(config) && config.pin != "" && 0 < config.maxTries <= |cfg.senderGuesses|
    requires config.maxTries <= FirstRight(config.pin, cfg.senderGuesses)
    ensures ReceiverPinOutcome(cfg, r)
            == Both(r, TooManyTries, TooManyTries).(senderUsed := config.maxTries, receiverTries := config.maxTries)
  {}

  lemma ReceiverGuessLast(cfg: Config, a: System, q: Peer, config: PinConfig, t: nat)
    requires ReceiverWaits(cfg, a, q, config, t) && t < |cfg.senderGuesses| && cfg.senderGuesses[t] != config.pin
    requires t + 1 == config.maxTries
    ensures Ends(cfg, a, ReceiverPinOutcome(cfg, ReportOf(a)))
  {
    hide ReceiverCheck, AskUser, ReceiverPinOutcome, Ends;
    ReceiverReadsGuess(cfg, a, q, config, t);
    ReceiverLimit(cfg, config, ReportOf(a));
    ReceiverRefuses(cfg, ReceiverReads(cfg, a, config, cfg.senderGuesses[t]));
    GuessToReceiver(cfg, a, config, cfg.senderGuesses[t], ReceiverPinOutcome(cfg, ReportOf(a)));
  }

  /** The state after a wrong guess, with the sender's user asked again. */
  function ReceiverRetries(cfg: Config, a: System, config: PinConfig, guess: string): System {
    var b := ReceiverReads(cfg, a, config, guess);
    b.(right := b.right.(outbox := []), left := AskUser(cfg, b.left, cfg.senderGuesses, SenderGuessing))
  }

  lemma ReceiverGuessWrong(cfg: Config, a: System, q: Peer, config: PinConfig, t: nat)
    requires ReceiverWaits(cfg, a, q, config, t) && t < |cfg.senderGuesses| && cfg.senderGuesses[t] != config.pin
    requires t + 1 < config.maxTries
    ensures var next := ReceiverRetries(cfg, a, config, cfg.senderGuesses[t]);
            && ReceiverWaits(cfg, next, a.left.(outbox := []), config, t + 1)
            && ReceiverPinOutcome(cfg, ReportOf(next)) == ReceiverPinOutcome(cfg, ReportOf(a))
  {
    hide ReceiverCheck;
    ReceiverReadsGuess(cfg, a, q, config, t);
  }

  lemma ReceiverRetriesReached(cfg: Config, a: System, q: Peer, config: PinConfig, t: nat, report: Report)
    requires ReceiverWaits(cfg, a, q, config, t) && t < |cfg.senderGuesses| && cfg.senderGuesses[t] != config.pin
    requires t + 1 < config.maxTries
    requires Ends(cfg, ReceiverRetries(cfg, a, config, cfg.senderGuesses[t]), report)
    ensures Ends(cfg, a, report)
  {
    hide ReceiverCheck, AskUser, Ends;
    ReceiverReadsGuess(cfg, a, q, config, t);
    ReplyToSender(cfg, ReceiverReads(cfg, a, config, cfg.senderGuesses[t]), ReceivingPinRequired, report);
    GuessToReceiver(cfg, a, config, cfg.senderGuesses[t], report);
  }

  lemma {:induction false} ReceiverPinLoop(cfg: Config, a: System, q: Peer, config: PinConfig, t: nat)
    requires ReceiverWaits(cfg, a, q, config, t)
    ensures Ends(cfg, a, ReceiverPinOutcome(cfg, ReportOf(a)))
    decreases config.maxTries - t
  {
    if t == |cfg.senderGuesses| {
      ReceiverAbandoned(cfg, a, NoGuess);
    } else if cfg.senderGuesses[t] == config.pin {
      ReceiverGuessRight(cfg, a, q, config, t);
    } else if t + 1 == config.maxTries {
      ReceiverGuessLast(cfg, a, q, config, t);
    } else {
      ReceiverGuessWrong(cfg, a, q, config, t);
      ReceiverPinLoop(cfg, ReceiverRetries(cfg, a, config, cfg.senderGuesses[t]), a.left.(outbox := []), config, t + 1);
      ReceiverRetriesReached(cfg, a, q, config, t, ReceiverPinOutcome(cfg, ReportOf(a)));
    }
  }

  /** The receiver with an empty PIN accepted unasked: its approval is under way while the sender
      still sends a guess, which the receiver takes for the end of the file list. */
  lemma UnaskedStage(cfg: Config, a: System, q: Peer)
    requires cfg.Valid() && Quiet(cfg, a)
    requires a.right.phase.ReceiverFiles? && a.right.outbox == [cfg.json.Text(ReceivingOk)]
    requires q.outbox == [] && q.used == 0 && q.tries == 0 && q.buffer == [] && !q.phase.Stopped?
    requires a.left == AskUser(cfg, q, cfg.senderGuesses, SenderGuessing)
    requires cfg.receiverPin.Some? && cfg.receiverPin.value.pin == ""
    ensures Ends(cfg, a, ReceiverPinOutcome(cfg, ReportOf(a)))
  {
    var b := a.(right := a.right.(outbox := []), toLeft := a.right.outbox);
    NothingBefore(a.right.outbox);
    if cfg.senderGuesses == [] {
      ReceiverAbandoned(cfg, b, NoGuess);
    } else {
      NothingBefore([cfg.json.Text(Pin(cfg.senderGuesses[0]))]);
      GuessMistaken(cfg, b, cfg.senderGuesses[0]);
    }
    FlushRight(cfg, a, ReceiverPinOutcome(cfg, ReportOf(a)));
  }

  lemma GuessMistaken(cfg: Config, a: System, guess: string)
    requires cfg.Valid() && a.toLeft == [cfg.json.Text(ReceivingOk)] && a.toRight == []
    requires a.right.phase.ReceiverFiles? && a.right.outbox == [] && a.right.buffer == []
    requires a.left.phase.SenderGuessing? && a.left.outbox == [cfg.json.Text(Pin(guess))] && a.left.buffer == []
             && a.left.tries == 0
    ensures Ends(cfg, a, Both(ReportOf(a), if SenderAllowsNone(cfg) then TooManyTries else Closed, Garbled))
  {
    var text := cfg.json.Text(Pin(guess));
    var b := a.(left := a.left.(outbox := []), right := a.right.End(Garbled));
    assert a.right.(buffer := []) == a.right;
    assert cfg.json.decode(Pin(guess).Kind(), cfg.json.encode(Pin(guess))) == Some(Pin(guess));
    assert React(cfg, a.right, Some(text)) == a.right.End(Garbled);
    ApprovalRead(cfg, b);
    ToRight(cfg, a, [], Both(ReportOf(a), if SenderAllowsNone(cfg) then TooManyTries else Closed, Garbled));
  }

  /** The sender goes on alone after the receiver failed. */
  lemma ApprovalRead(cfg: Config, a: System)
    requires cfg.Valid() && a.left.phase.SenderGuessing? && a.left.outbox == [] && a.left.buffer == []
    requires a.left.tries == 0 && a.toLeft == [cfg.json.Text(ReceivingOk)]
    requires a.right.phase == Stopped(Garbled) && a.right.outbox == []
    ensures Ends(cfg, a, Both(ReportOf(a), if SenderAllowsNone(cfg) then TooManyTries else Closed, Garbled))
  {
    hide SenderChallenge, Ends, SenderAllowsNone;
    var report := Both(ReportOf(a), if SenderAllowsNone(cfg) then TooManyTries else Closed, Garbled);
    assert cfg.json.decode(ReceivingOk.Kind(), cfg.json.encode(ReceivingOk)) == Some(ReceivingOk);
    var b := a.(left := SenderChallenge(cfg, a.left), toLeft := []);
    ChallengeAlone(cfg, b, a.left);
    assert !SenderThrough(a);
    assert a.toRight + [] == a.toRight && a.toLeft[1..] == [];
    assert React(cfg, a.left, Some(a.toLeft[0])) == b.left;
    ReachesByStep(Behaviour(cfg), a, Left, b);
    EndsLater(cfg, a, b, report);
  }

  lemma ChallengeAlone(cfg: Config, a: System, p: Peer)
    requires cfg.Valid() && a.left == SenderChallenge(cfg, p) && p.buffer == [] && p.tries == 0
    requires a.toLeft == [] && Gone(a.right)
    ensures Ends(cfg, a, Report(Stopped(if SenderAllowsNone(cfg) then TooManyTries else Closed), a.right.phase,
                                p.nonce, a.right.nonce, p.used, p.tries, a.right.used, a.right.tries,
                                a.right.files, [], []))
  {
    var b := a.(left := a.left.(outbox := []), toRight := a.toRight + a.left.outbox);
    if SenderAllowsNone(cfg) {
      BothStopped(cfg, b);
    } else {
      SenderAlone(cfg, b);
    }
    FlushLeft(cfg, a, Report(Stopped(if SenderAllowsNone(cfg) then TooManyTries else Closed), a.right.phase,
                             p.nonce, a.right.nonce, p.used, p.tries, a.right.used, a.right.tries,
                             a.right.files, [], []));
  }

  lemma SenderAlone(cfg: Config, a: System)
    requires cfg.Valid() && (a.left.phase.SenderList? || a.left.phase.SenderVerifying?)
    requires a.left.outbox == [] && a.left.buffer == [] && a.toLeft == [] && Gone(a.right)
    ensures Ends(cfg, a, Report(Stopped(Closed), a.right.phase, a.left.nonce, a.right.nonce,
                                a.left.used, a.left.tries, a.right.used, a.right.tries, a.right.files, [], []))
  {
    assert a.left.(buffer := []) == a.left;
    assert React(cfg, a.left, None) == a.left.End(Closed);
    var b := a.(left := a.left.End(Closed));
    BothStopped(cfg, b);
    LeftSeesClose(cfg, a, ReportOf(b));
  }

  /** No try is allowed: the receiver refused at once while the sender may still send a guess. */
  lemma NoTryStage(cfg: Config, a: System, q: Peer)
    requires cfg.Valid() && Quiet(cfg, a)
    requires a.right.phase == Stopped(TooManyTries) && a.right.outbox == [cfg.json.Text(ReceivingTooManyAttempts)]
    requires q.outbox == [] && q.used == 0 && !q.phase.Stopped?
    requires a.left == AskUser(cfg, q, cfg.senderGuesses, SenderGuessing)
    ensures Ends(cfg, a, if cfg.senderGuesses == [] then Both(ReportOf(a), NoGuess, TooManyTries)
                         else Both(ReportOf(a), TooManyTries, TooManyTries).(senderUsed := 1))
  {
    if cfg.senderGuesses == [] {
      BothStopped(cfg, a.(right := a.right.(outbox := []), toLeft := a.right.outbox));
      NothingBefore(a.right.outbox);
      FlushRight(cfg, a, Both(ReportOf(a), NoGuess, TooManyTries));
    } else {
      var b := a.(left := a.left.(outbox := []), toRight := a.left.outbox);
      ReceiverRefuses(cfg, b);
      NothingBefore(a.left.outbox);
      FlushLeft(cfg, a, ReportOf(b).(sender := Stopped(TooManyTries), receiver := Stopped(TooManyTries)));
    }
  }

  // ----- Tokens and nonces

  /** The receiver's token response reaches the sender. */
  lemma ResponseToSender(cfg: Config, a: System, response: Packet, behind: seq<Message>, report: Report)
    requires cfg.Valid() && a.toLeft == [] && a.left.phase.SenderToken? && a.left.outbox == []
    requires response.TokenOk? || response.TokenPinRequired? || response.TokenInvalidSignature?
    requires !a.right.phase.Answering? && a.right.outbox == [cfg.json.Text(response)] + behind
    requires Ends(cfg, a.(right := a.right.(outbox := behind),
                          left := if response.TokenInvalidSignature? then a.left.End(InvalidSignature)
                                  else JudgeToken(cfg, a.left, response.token, response.TokenPinRequired?)), report)
    ensures Ends(cfg, a, report)
  {
    assert cfg.json.decode(response.Kind(), cfg.json.encode(response)) == Some(response);
    assert React(cfg, a.left, Some(cfg.json.Text(response))) == OnTokenResponse(cfg, a.left, cfg.json.encode(response));
    ToLeft(cfg, a, behind, report);
  }

  /** Both know the nonce; the receiver answers the sender's token. */
  ghost predicate Introduced(cfg: Config, a: System, p: Peer) {
    && cfg.Valid() && Quiet(cfg, a)
    && a.left.phase.SenderToken? && a.left.outbox == [] && a.left.used == 0 && a.left.tries == 0
    && a.left.nonce == p.nonce == AgreedNonce(cfg)
    && p.outbox == [] && p.buffer == [] && p.used == 0 && p.tries == 0 && p.files == [] && !p.phase.Stopped?
  }

  lemma HonestTokensDoNotPanic(cfg: Config, expects: Option<VerifyingKey>, key: PrivateKey, nonce: seq<byte>)
    ensures CheckToken(cfg, expects, Generate(cfg.crypto, key, nonce), nonce) != Panicked
  {
    var parts := TokenParts(cfg.crypto, key, nonce);
    Strings.SplitJoin(parts, '.');
  }

  lemma ChallengeKeeps(cfg: Config, p: Peer)
    ensures var q := SenderChallenge(cfg, p);
            q.nonce == p.nonce && q.used == p.used && q.tries == p.tries && q.buffer == p.buffer && q.files == p.files
            && (q.phase.Stopped? ==> q.phase.stop == TooManyTries)
  {
    hide Frame, NoticeMessages;
  }

  lemma OpenTrusted(cfg: Config, a: System, p: Peer)
    requires cfg.Valid() && Quiet(cfg, a) && cfg.receiverPin.None? && ReceiverTrusts(cfg) && SenderTrusts(cfg)
    requires a.left == SenderChallenge(cfg, p) && p.outbox == [] && p.buffer == [] && p.files == cfg.files
    requires p.used == 0 && p.tries == 0 && p.nonce == a.right.nonce == AgreedNonce(cfg)
    requires a.right.phase.ReceiverFiles? && a.right.outbox == [] && a.right.used == 0 && a.right.tries == 0
             && a.right.files == []
    ensures Ends(cfg, a, Outcome(cfg))
  {
    hide SenderPinOutcome, Ends, SenderChallenge, Generate;
    ChallengeKeeps(cfg, p);
    SenderPinStage(cfg, a, p);
    SenderPinPhasesForgotten(cfg, ReportOf(a), SenderNonce, ReceiverNonce);
  }

  lemma OpenStage(cfg: Config, a: System, p: Peer)
    requires Introduced(cfg, a, p) && cfg.receiverPin.None? && ReceiverTrusts(cfg)
    requires a.right == p.Say(TokenOk(Generate(cfg.crypto, cfg.receiverKey, AgreedNonce(cfg))),
                              cfg.json).At(ReceiverFiles)
    ensures Ends(cfg, a, Outcome(cfg))
  {
    hide SenderPinOutcome, Ends, Generate, SenderChallenge;
    var token := Generate(cfg.crypto, cfg.receiverKey, AgreedNonce(cfg));
    HonestTokensDoNotPanic(cfg, cfg.senderExpects, cfg.receiverKey, AgreedNonce(cfg));
    var b := a.(right := p.At(ReceiverFiles), left := JudgeToken(cfg, a.left, token, false));
    if SenderTrusts(cfg) {
      ChallengeKeeps(cfg, a.left);
      OpenTrusted(cfg, b, a.left);
    } else {
      ReceiverAbandoned(cfg, b, Mistrusted);
    }
    NothingBefore([cfg.json.Text(TokenOk(token))]);
    ResponseToSender(cfg, a, TokenOk(token), [], Outcome(cfg));
  }

  /** The receiver's state after its first look at its own PIN. */
  ghost predicate Challenged(p: Peer, cfg: Config, config: PinConfig) {
    && p.used == 0 && p.tries == 0 && p.files == [] && p.nonce == AgreedNonce(cfg)
    && if config.pin == "" then p.phase.ReceiverFiles? && p.outbox == [cfg.json.Text(ReceivingOk)]
       else if config.maxTries == 0 then
         p.phase == Stopped(TooManyTries) && p.outbox == [cfg.json.Text(ReceivingTooManyAttempts)]
       else p.phase.ReceiverVerifying? && p.outbox == []
  }

  /** The sender trusts the token and asks its user. */
  lemma TrustedStage(cfg: Config, a: System, q: Peer, config: PinConfig)
    requires cfg.Valid() && Quiet(cfg, a) && cfg.receiverPin == Some(config) && Challenged(a.right, cfg, config)
    requires q.outbox == [] && q.used == 0 && q.tries == 0 && q.buffer == [] && !q.phase.Stopped?
    requires a.left == AskUser(cfg, q, cfg.senderGuesses, SenderGuessing)
    ensures Ends(cfg, a, ReceiverPinOutcome(cfg, ReportOf(a)))
  {
    if config.pin == "" {
      UnaskedStage(cfg, a, q);
    } else if config.maxTries == 0 {
      NoTryStage(cfg, a, q);
    } else {
      ReceiverPinLoop(cfg, a, q, config, 0);
    }
  }

  /** Counts that the outcome sets anew. */
  lemma TrustedReport(cfg: Config, a: System, q: Peer, config: PinConfig)
    requires Challenged(a.right, cfg, config) && q.used == 0 && q.tries == 0 && q.nonce == AgreedNonce(cfg)
    requires a.left == AskUser(cfg, q, cfg.senderGuesses, SenderGuessing) && cfg.receiverPin == Some(config)
    ensures var r := ReportOf(a);
            && r == Report(r.sender, r.receiver, AgreedNonce(cfg), AgreedNonce(cfg), r.senderUsed, 0, 0, 0, [], [], [])
            && ReceiverPinOutcome(cfg, r) == ReceiverPinOutcome(cfg, r.(senderUsed := 0))
  {}

  lemma TrustedOutcome(cfg: Config, a: System, q: Peer, config: PinConfig)
    requires ReceiverTrusts(cfg) && SenderTrusts(cfg) && cfg.receiverPin == Some(config)
             && Challenged(a.right, cfg, config)
    requires q.used == 0 && q.tries == 0 && q.nonce == AgreedNonce(cfg)
    requires a.left == AskUser(cfg, q, cfg.senderGuesses, SenderGuessing)
    ensures Outcome(cfg) == ReceiverPinOutcome(cfg, ReportOf(a))
  {
    TrustedReport(cfg, a, q, config);
    hide ReceiverPinOutcome, AskUser, Challenged;
    ReceiverPinPhasesForgotten(cfg, ReportOf(a), SenderNonce, ReceiverNonce);
  }

  /** The state after the sender judged a token that asks for a PIN. */
  lemma JudgedStage(cfg: Config, a: System, q: Peer, config: PinConfig)
    requires cfg.Valid() && Quiet(cfg, a) && ReceiverTrusts(cfg) && cfg.receiverPin == Some(config)
    requires q.outbox == [] && q.used == 0 && q.tries == 0 && q.buffer == [] && q.files == cfg.files
             && !q.phase.Stopped?
    requires q.nonce == AgreedNonce(cfg) && Challenged(a.right, cfg, config)
    requires a.left == if SenderTrusts(cfg) then AskUser(cfg, q, cfg.senderGuesses, SenderGuessing)
             else q.End(Mistrusted)
    ensures Ends(cfg, a, Outcome(cfg))
  {
    if SenderTrusts(cfg) {
      TrustedStage(cfg, a, q, config);
      TrustedOutcome(cfg, a, q, config);
    } else {
      MistrustedStage(cfg, a);
    }
  }

  /** The sender left; the receiver, refusing or waiting, ends on its own. */
  lemma MistrustedStage(cfg: Config, a: System)
    requires cfg.Valid() && Quiet(cfg, a) && a.left.phase == Stopped(Mistrusted) && a.left.outbox == []
    requires a.right.phase == Stopped(TooManyTries) || a.right.phase.ReceiverFiles? || a.right.phase.ReceiverVerifying?
    ensures Ends(cfg, a, Both(ReportOf(a), Mistrusted, if a.right.phase.Stopped? then TooManyTries else Closed))
  {
    var b := a.(right := a.right.(outbox := []), toLeft := a.right.outbox);
    NothingBefore(a.right.outbox);
    if a.right.phase.Stopped? {
      BothStopped(cfg, b);
    } else {
      ReceiverAbandoned(cfg, b, Mistrusted);
    }
    FlushRight(cfg, a, Both(ReportOf(a), Mistrusted, if a.right.phase.Stopped? then TooManyTries else Closed));
  }

  lemma PinStage(cfg: Config, a: System, p: Peer, config: PinConfig)
    requires Introduced(cfg, a, p) && cfg.receiverPin == Some(config) && ReceiverTrusts(cfg)
    requires var token := Generate(cfg.crypto, cfg.receiverKey, AgreedNonce(cfg));
             a.right == ReceiverCheck(cfg, p.Say(TokenPinRequired(token), cfg.json), config, "")
    ensures Ends(cfg, a, Outcome(cfg))
  {
    var token := Generate(cfg.crypto, cfg.receiverKey, AgreedNonce(cfg));
    var response := cfg.json.Text(TokenPinRequired(token));
    HonestTokensDoNotPanic(cfg, cfg.senderExpects, cfg.receiverKey, AgreedNonce(cfg));
    NothingBefore([response]);
    var behind := a.right.outbox[1..];
    assert a.right.outbox == [response] + behind;
    var b := a.(right := a.right.(outbox := behind), left := JudgeToken(cfg, a.left, token, true));
    JudgedStage(cfg, b, a.left, config);
    ResponseToSender(cfg, a, TokenPinRequired(token), behind, Outcome(cfg));
  }

  lemma TokenStage(cfg: Config, a: System, p: Peer)
    requires Introduced(cfg, a, p)
    requires a.right == AnswerToken(cfg, p, Generate(cfg.crypto, cfg.senderKey, AgreedNonce(cfg)))
    ensures Ends(cfg, a, Outcome(cfg))
  {
    HonestTokensDoNotPanic(cfg, cfg.receiverExpects, cfg.senderKey, AgreedNonce(cfg));
    if !ReceiverTrusts(cfg) {
      NothingBefore([cfg.json.Text(TokenInvalidSignature)]);
      BothStopped(cfg, a.(right := a.right.(outbox := []), left := a.left.End(InvalidSignature)));
      assert a.right.outbox == [cfg.json.Text(TokenInvalidSignature)] + [];
      ResponseToSender(cfg, a, TokenInvalidSignature, [], Outcome(cfg));
    } else if cfg.receiverPin.None? {
      OpenStage(cfg, a, p);
    } else {
      PinStage(cfg, a, p, cfg.receiverPin.value);
    }
  }

  function NoncePacket(nonce: seq<byte>): Packet {
    Packet.Nonce(Base64.Encode(nonce))
  }

  lemma HonestNonceRead(cfg: Config, nonce: seq<byte>)
    requires cfg.Valid() && |nonce| == 32
    ensures ReadNonce(cfg.json, cfg.json.encode(NoncePacket(nonce))).0 == Some(nonce)
  {
    var packet := NoncePacket(nonce);
    assert cfg.json.decode(packet.Kind(), cfg.json.encode(packet)) == Some(packet);
    Base64.RoundTrip(nonce);
  }

  /** The sender combines the nonces and sends its token. */
  lemma NonceToSender(cfg: Config, p: Peer)
    requires cfg.Valid() && p.phase.SenderNonce? && p.outbox == []
    ensures React(cfg, p, Some(cfg.json.Text(NoncePacket(cfg.receiverNonce))))
            == p.(nonce := AgreedNonce(cfg), phase := SenderToken,
                  outbox := [cfg.json.Text(TokenRequest(Generate(cfg.crypto, cfg.senderKey, AgreedNonce(cfg))))])
  {
    HonestNonceRead(cfg, cfg.receiverNonce);
    NothingBefore([cfg.json.Text(TokenRequest(Generate(cfg.crypto, cfg.senderKey, AgreedNonce(cfg))))]);
  }

  /** The receiver combines the nonces and sends its own. */
  lemma NonceToReceiver(cfg: Config, p: Peer)
    requires cfg.Valid() && p.phase.ReceiverNonce? && p.outbox == []
    ensures React(cfg, p, Some(cfg.json.Text(NoncePacket(cfg.senderNonce))))
            == p.(nonce := AgreedNonce(cfg), phase := ReceiverToken,
                  outbox := [cfg.json.Text(NoncePacket(cfg.receiverNonce))])
  {
    HonestNonceRead(cfg, cfg.senderNonce);
    NothingBefore([cfg.json.Text(NoncePacket(cfg.receiverNonce))]);
  }

  lemma NonceStage(cfg: Config, a: System)
    requires cfg.Valid() && Quiet(cfg, a) && a.left == StartSender(cfg).(outbox := [])
    requires a.right == StartReceiver(cfg).(nonce := AgreedNonce(cfg), phase := ReceiverToken,
                                            outbox := [cfg.json.Text(NoncePacket(cfg.receiverNonce))])
    ensures Ends(cfg, a, Outcome(cfg))
  {
    var token := Generate(cfg.crypto, cfg.senderKey, AgreedNonce(cfg));
    var b := a.(right := a.right.(outbox := []),
                left := a.left.(nonce := AgreedNonce(cfg), phase := SenderToken,
                                outbox := [cfg.json.Text(TokenRequest(token))]));
    TokenCrosses(cfg, b, token);
    NonceToSender(cfg, a.left);
    ToLeft(cfg, a, [], Outcome(cfg));
  }

  lemma TokenRead(cfg: Config, p: Peer, token: string)
    requires cfg.Valid() && p.phase.ReceiverToken?
    ensures React(cfg, p, Some(cfg.json.Text(TokenRequest(token)))) == AnswerToken(cfg, p, token)
  {
    assert cfg.json.decode(TokenRequest(token).Kind(), cfg.json.encode(TokenRequest(token)))
        == Some(TokenRequest(token));
  }

  lemma TokenCrosses(cfg: Config, a: System, token: string)
    requires a.right.phase.ReceiverToken? && a.left.outbox == [cfg.json.Text(TokenRequest(token))]
    requires Introduced(cfg, a.(left := a.left.(outbox := [])), a.right)
    requires token == Generate(cfg.crypto, cfg.senderKey, AgreedNonce(cfg))
    ensures Ends(cfg, a, Outcome(cfg))
  {
    hide React, Outcome, Generate;
    var b := a.(left := a.left.(outbox := []), right := AnswerToken(cfg, a.right, token));
    AnswerKeepsBuffer(cfg, a.right, token);
    TokenStage(cfg, b, a.right);
    TokenRead(cfg, a.right, token);
    ToRight(cfg, a, [], Outcome(cfg));
  }

  lemma AnswerKeepsBuffer(cfg: Config, p: Peer, token: string)
    ensures AnswerToken(cfg, p, token).buffer == p.buffer
  {}

  /** There is a run from the start to the outcome. */
  lemma SomeRunEnds(cfg: Config)
    requires cfg.Valid()
    ensures Ends(cfg, Initial(cfg), Outcome(cfg))
  {
    var a := Initial(cfg);
    NothingBefore([cfg.json.Text(NoncePacket(cfg.senderNonce))]);
    NonceToReceiver(cfg, a.right);
    NonceStage(cfg, a.(left := a.left.(outbox := []), right := React(cfg, a.right, Some(a.left.outbox[0]))));
    ToRight(cfg, a, [], Outcome(cfg));
  }

  // ----- All runs

  /** Every run in which no send fails, under every interleaving, is bounded and extends to the
      outcome; such a run that cannot go on has reached it. */
  lemma UnrefusedRunsEnd(cfg: Config) returns (bound: nat)
    requires cfg.Valid()
    ensures forall schedule :: Run(Behaviour(cfg), Initial(cfg), schedule).Some? ==>
              var x := Run(Behaviour(cfg), Initial(cfg), schedule).value;
              && |schedule| <= bound
              && Arrives(cfg, x, Outcome(cfg))
              && (Final(Behaviour(cfg), x) ==> ReportOf(x) == Outcome(cfg))
  {
    hide Outcome, ReportOf, Step;
    var react, start := Behaviour(cfg), Initial(cfg);
    SomeRunEnds(cfg);
    var f :| Reaches(react, start, f) && Final(react, f) && ReportOf(f) == Outcome(cfg);
    var ending :| Run(react, start, ending) == Some(f);
    bound := |ending|;
    forall schedule | Run(react, start, schedule).Some?
      ensures var x := Run(react, start, schedule).value;
              && |schedule| <= bound && Arrives(cfg, x, Outcome(cfg))
              && (Final(react, x) ==> ReportOf(x) == Outcome(cfg))
    {
      var rest := Determinacy(react, start, ending, schedule);
      var x := Run(react, start, schedule).value;
      assert Reaches(react, x, f);
      if Final(react, x) {
        FinalStays(react, x, rest);
      }
    }
  }

  /** Wherever a process has stopped during such a run, that is where it stands in the outcome. */
  lemma UnrefusedStops(cfg: Config, schedule: seq<Side>)
    requires cfg.Valid() && Run(Behaviour(cfg), Initial(cfg), schedule).Some?
    ensures var x := Run(Behaviour(cfg), Initial(cfg), schedule).value;
            && (x.left.phase.Stopped? ==> x.left.phase == Outcome(cfg).sender)
            && (x.right.phase.Stopped? ==> x.right.phase == Outcome(cfg).receiver)
  {
    var bound := UnrefusedRunsEnd(cfg);
    var x := Run(Behaviour(cfg), Initial(cfg), schedule).value;
    var f :| Reaches(Behaviour(cfg), x, f) && Final(Behaviour(cfg), f) && ReportOf(f) == Outcome(cfg);
    var rest :| Run(Behaviour(cfg), x, rest) == Some(f);
    StopsPersist(Behaviour(cfg), x, rest);
  }

  // ----- What the outcome means

  /** The PIN is among the guesses the other side makes in time. */
  ghost predicate GuessedInTime(config: PinConfig, guesses: seq<string>) {
    exists i :: 0 <= i < |guesses| && i < config.maxTries && guesses[i] == config.pin
  }

  /** The sender's empty PIN is no PIN. */
  ghost predicate SenderPinPassed(cfg: Config) {
    cfg.senderPin.Some? && cfg.senderPin.value.pin != "" ==> GuessedInTime(cfg.senderPin.value, cfg.receiverGuesses)
  }

  /** The receiver's PIN must not be empty. */
  ghost predicate ReceiverPinPassed(cfg: Config) {
    cfg.receiverPin.Some? ==> cfg.receiverPin.value.pin != "" && GuessedInTime(cfg.receiverPin.value, cfg.senderGuesses)
  }

  /** Nothing is expected of the holder of `key`, or its own token binds the expected key, the agreed
      nonce, their digest and a signature that verifies. */
  ghost predicate OwnTokenBinds(cfg: Config, expects: Option<VerifyingKey>, key: PrivateKey) {
    expects.Some? ==>
      Binds(cfg.crypto, expects.value, Strings.Split(Generate(cfg.crypto, key, AgreedNonce(cfg)), '.'),
            AgreedNonce(cfg))
  }

  ghost predicate BothTokensBind(cfg: Config) {
    OwnTokenBinds(cfg, cfg.receiverExpects, cfg.senderKey) && OwnTokenBinds(cfg, cfg.senderExpects, cfg.receiverKey)
  }

  /** What the processes check is that. */
  lemma TrustExactly(cfg: Config)
    ensures ReceiverTrusts(cfg) <==> OwnTokenBinds(cfg, cfg.receiverExpects, cfg.senderKey)
    ensures SenderTrusts(cfg) <==> OwnTokenBinds(cfg, cfg.senderExpects, cfg.receiverKey)
  {
    hide Generate, VerifyNonce, Binds;
    if cfg.receiverExpects.Some? {
      AcceptedExactlyWhenBound(cfg.crypto, cfg.receiverExpects.value,
                               Generate(cfg.crypto, cfg.senderKey, AgreedNonce(cfg)), AgreedNonce(cfg));
    }
    if cfg.senderExpects.Some? {
      AcceptedExactlyWhenBound(cfg.crypto, cfg.senderExpects.value,
                               Generate(cfg.crypto, cfg.receiverKey, AgreedNonce(cfg)), AgreedNonce(cfg));
    }
  }

  ghost predicate Succeeds(cfg: Config) {
    BothTokensBind(cfg) && ReceiverPinPassed(cfg) && SenderPinPassed(cfg)
  }

  /** Same file list and, unless both declined, the same tokens and the whole stream between them. */
  ghost predicate Together(cfg: Config, o: Report) {
    && o.receiverFiles == cfg.files
    && if cfg.selection.None? then o.sender == o.receiver == Stopped(Declined)
       else Streamed(cfg, o)
  }

  /** The receiver read the whole stream and sent its statuses, of which the sender heard the first. */
  ghost predicate Streamed(cfg: Config, o: Report)
    requires cfg.selection.Some?
  {
    var t := StreamResult(cfg);
    var statuses := FileStream.Texts(cfg.json, t.statuses);
    && o.sender == Stopped(Sent(cfg.FileTokens(), if statuses == [] then None else Some(statuses[0])))
    && o.receiver == Stopped(Transferred(cfg.FileTokens(), t))
    && o.undelivered == [] && o.unheard == if statuses == [] then [] else statuses[1..]
  }

  /** The process stopped on an error of its own, not on a send. */
  predicate Fails(phase: Phase) {
    && phase.Stopped? && !phase.stop.SendFailed?
    && !phase.stop.Sent? && !phase.stop.Transferred? && !phase.stop.CutOff? && !phase.stop.Declined?
  }

  ghost predicate BothFailed(o: Report) {
    Fails(o.sender) && Fails(o.receiver)
  }

  /** `used` guesses were sent and read, the last of them being the first right one. */
  ghost predicate CountedTo(config: PinConfig, guesses: seq<string>, used: nat, tries: nat) {
    && 0 < used == tries <= config.maxTries && used <= |guesses|
    && guesses[used - 1] == config.pin && config.pin !in guesses[..used - 1]
  }

  lemma SolvesMeaning(config: PinConfig, guesses: seq<string>)
    ensures Solves(config, guesses) <==> GuessedInTime(config, guesses)
    ensures var k := FirstRight(config.pin, guesses);
            Solves(config, guesses) ==> CountedTo(config, guesses, k + 1, k + 1)
  {}

  lemma SelectionMeaning(cfg: Config, r: Report)
    ensures var o := SelectionOutcome(cfg, r);
            && Together(cfg, o) && o == r.(sender := o.sender, receiver := o.receiver, receiverFiles := cfg.files,
                                           unheard := o.unheard, undelivered := o.undelivered)
            && o.sender != Stopped(Garbled) && o.receiver != Stopped(Garbled)
  {}

  /** What the sender's challenge leaves in the report. */
  ghost predicate SenderPinOk(cfg: Config, r: Report, o: Report) {
    && (if SenderPinPassed(cfg) then Together(cfg, o) else BothFailed(o))
    && o.sender != Stopped(Garbled) && o.receiver != Stopped(Garbled)
    && o.senderUsed == r.senderUsed && o.receiverTries == r.receiverTries
    && o.senderNonce == r.senderNonce && o.receiverNonce == r.receiverNonce
    && (SenderPinPassed(cfg) && cfg.senderPin.Some? && cfg.senderPin.value.pin != "" ==>
          CountedTo(cfg.senderPin.value, cfg.receiverGuesses, o.receiverUsed, o.senderTries))
  }

  lemma SenderPinMeaning(cfg: Config, r: Report)
    ensures SenderPinOk(cfg, r, SenderPinOutcome(cfg, r))
  {
    hide SelectionOutcome, Together, GuessedInTime, CountedTo, FirstRight, Solves;
    SelectionMeaning(cfg, r);
    if cfg.senderPin.Some? {
      var k := FirstRight(cfg.senderPin.value.pin, cfg.receiverGuesses) + 1;
      SolvesMeaning(cfg.senderPin.value, cfg.receiverGuesses);
      SelectionMeaning(cfg, r.(receiverUsed := k, senderTries := k));
    }
  }

  ghost predicate ReceiverPinOk(cfg: Config, r: Report, o: Report) {
    && (if ReceiverPinPassed(cfg) && SenderPinPassed(cfg) then Together(cfg, o) else BothFailed(o))
    && o.sender != Stopped(Garbled)
    && (o.receiver == Stopped(Garbled) <==>
          cfg.receiverPin.Some? && cfg.receiverPin.value.pin == "" && cfg.senderGuesses != [])
    && o.senderNonce == r.senderNonce && o.receiverNonce == r.receiverNonce
    && (ReceiverPinPassed(cfg) && cfg.receiverPin.Some? ==>
          CountedTo(cfg.receiverPin.value, cfg.senderGuesses, o.senderUsed, o.receiverTries))
    && (ReceiverPinPassed(cfg) && SenderPinPassed(cfg) && cfg.senderPin.Some? && cfg.senderPin.value.pin != "" ==>
          CountedTo(cfg.senderPin.value, cfg.receiverGuesses, o.receiverUsed, o.senderTries))
  }

  lemma ReceiverPinFailed(cfg: Config, r: Report)
    requires cfg.receiverPin.Some?
    requires cfg.receiverPin.value.pin == "" || !Solves(cfg.receiverPin.value, cfg.senderGuesses)
    ensures ReceiverPinOk(cfg, r, ReceiverPinOutcome(cfg, r))
  {
    hide SenderPinOutcome, GuessedInTime, CountedTo, FirstRight, Solves, Together, SenderPinPassed;
    SolvesMeaning(cfg.receiverPin.value, cfg.senderGuesses);
  }

  lemma ReceiverPinSolved(cfg: Config, r: Report)
    requires cfg.receiverPin.Some? && cfg.receiverPin.value.pin != ""
             && Solves(cfg.receiverPin.value, cfg.senderGuesses)
    ensures ReceiverPinOk(cfg, r, ReceiverPinOutcome(cfg, r))
  {
    hide SenderPinOutcome, GuessedInTime, CountedTo, FirstRight, Solves, Together, SenderPinPassed;
    var k := FirstRight(cfg.receiverPin.value.pin, cfg.senderGuesses) + 1;
    SolvesMeaning(cfg.receiverPin.value, cfg.senderGuesses);
    SenderPinMeaning(cfg, r.(senderUsed := k, receiverTries := k));
  }

  lemma ReceiverPinMeaning(cfg: Config, r: Report)
    ensures ReceiverPinOk(cfg, r, ReceiverPinOutcome(cfg, r))
  {
    if cfg.receiverPin.None? {
      hide SenderPinOutcome, CountedTo, Together, SenderPinPassed;
      SenderPinMeaning(cfg, r);
    } else {
      hide ReceiverPinOk, ReceiverPinOutcome, Solves;
      if cfg.receiverPin.value.pin != "" && Solves(cfg.receiverPin.value, cfg.senderGuesses) {
        ReceiverPinSolved(cfg, r);
      } else {
        ReceiverPinFailed(cfg, r);
      }
    }
  }

  /** Both ends agree on the nonce and on the outcome: they decline, or share the tokens and the whole
      stream, exactly when the tokens are trusted and the PINs guessed in time, and otherwise both
      fail. On success each challenge read the guesses up to the first right one. */
  lemma OutcomeMeaning(cfg: Config)
    ensures var o := Outcome(cfg);
            && o.senderNonce == o.receiverNonce == AgreedNonce(cfg)
            && (if Succeeds(cfg) then Together(cfg, o) else BothFailed(o))
            && (Succeeds(cfg) && cfg.receiverPin.Some? ==>
                  CountedTo(cfg.receiverPin.value, cfg.senderGuesses, o.senderUsed, o.receiverTries))
            && (Succeeds(cfg) && cfg.senderPin.Some? && cfg.senderPin.value.pin != "" ==>
                  CountedTo(cfg.senderPin.value, cfg.receiverGuesses, o.receiverUsed, o.senderTries))
            && o.sender != Stopped(Garbled)
            && (o.receiver == Stopped(Garbled) <==> EmptyPinAsked(cfg))
  {
    TrustExactly(cfg);
    hide ReceiverPinOutcome, Together, CountedTo, GuessedInTime, OwnTokenBinds, ReceiverTrusts, SenderTrusts;
    ReceiverPinMeaning(cfg, Report(SenderNonce, ReceiverNonce, AgreedNonce(cfg), AgreedNonce(cfg),
                                   0, 0, 0, 0, [], [], []));
  }

  /** The receiver's PIN is empty and the sender, told that a PIN is required, sends a guess. */
  ghost predicate EmptyPinAsked(cfg: Config) {
    && BothTokensBind(cfg)
    && cfg.receiverPin.Some? && cfg.receiverPin.value.pin == "" && cfg.senderGuesses != []
  }

  /** Peers that expect each other's true keys trust each other. */
  lemma TrueKeysAreTrusted(cfg: Config)
    requires cfg.Valid()
    ensures cfg.senderExpects == Some(cfg.crypto.publicKey(cfg.receiverKey)) ==>
              OwnTokenBinds(cfg, cfg.senderExpects, cfg.receiverKey)
    ensures cfg.receiverExpects == Some(cfg.crypto.publicKey(cfg.senderKey)) ==>
              OwnTokenBinds(cfg, cfg.receiverExpects, cfg.senderKey)
  {
    TrustExactly(cfg);
    hide OwnTokenBinds;
    NonceRoundTrip(cfg.crypto, cfg.receiverKey, AgreedNonce(cfg), AgreedNonce(cfg));
    NonceRoundTrip(cfg.crypto, cfg.senderKey, AgreedNonce(cfg), AgreedNonce(cfg));
  }

  /** Whatever arrives, a process goes on with a nonce of 48 to 160 bytes or stops. */
  lemma NonceLengths(cfg: Config, p: Peer, data: seq<byte>)
    requires cfg.Valid()
    ensures var q := OnReceiverNonce(cfg, p, data); q.phase.Stopped? || (q.phase.SenderToken? && 48 <= |q.nonce| <= 160)
    ensures var q := OnSenderNonce(cfg, p, data); q.phase.Stopped? || (q.phase.ReceiverToken? && 48 <= |q.nonce| <= 160)
  {}
}
