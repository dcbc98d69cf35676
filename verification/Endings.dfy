/** All endings of a session, over every run. */
module Endings {
  import opened Prelude
  import opened Packets
  import opened Peers
  import opened Duplex
  import opened Handshake
  import opened Streaming
  import opened Refusals
  import opened Turns
  import FileStream
  import FileTransfer

  // ----- Failing sessions

  /** A receive loop ends only by itself or by a failed send. */
  predicate InLoop(p: Peer) {
    p.phase.Receiving? || p.phase.Answering? || (p.phase.Stopped? && p.phase.stop.Transferred?)
  }

  lemma {:induction false} LoopPersists(cfg: Config, x: System, schedule: seq<Side>)
    requires Run(Behaviour(cfg), x, schedule).Some?
    ensures InLoop(x.left) ==> InLoop(Run(Behaviour(cfg), x, schedule).value.left)
    ensures InLoop(x.right) ==> InLoop(Run(Behaviour(cfg), x, schedule).value.right)
    decreases |schedule|
  {
    hide FileStream.OnMessage, FileStream.NextStatus;
    if schedule != [] {
      LoopPersists(cfg, Step(Behaviour(cfg), x, schedule[0]).value, schedule[1..]);
    }
  }

  /** One process failed as in the outcome, and the other one could not send. */
  ghost predicate OneCouldNotSend(cfg: Config, o: Report) {
    || (o.sender == Outcome(cfg).sender && o.receiver == Stopped(SendFailed))
    || (o.sender == Stopped(SendFailed) && o.receiver == Outcome(cfg).receiver)
  }

  lemma NeverInLoop(cfg: Config, x: System) returns (schedule: seq<Side>)
    requires cfg.Valid() && !Succeeds(cfg) && Reaches(Behaviour(cfg), Initial(cfg), x)
    ensures !InLoop(x.left) && !InLoop(x.right)
    ensures x.left.phase.Stopped? ==> x.left.phase == Outcome(cfg).sender
    ensures x.right.phase.Stopped? ==> x.right.phase == Outcome(cfg).receiver
  {
    hide Outcome, Run, Initial, Succeeds;
    schedule :| Run(Behaviour(cfg), Initial(cfg), schedule) == Some(x);
    UnrefusedStops(cfg, schedule);
    OutcomeMeaning(cfg);
    var _ := UnrefusedRunsEnd(cfg);
    var f :| Reaches(Behaviour(cfg), x, f) && Final(Behaviour(cfg), f) && ReportOf(f) == Outcome(cfg);
    var rest :| Run(Behaviour(cfg), x, rest) == Some(f);
    LoopPersists(cfg, x, rest);
  }

  lemma FailureRefused(cfg: Config, x: System, side: Side)
    requires cfg.Valid() && !Succeeds(cfg) && Reaches(Behaviour(cfg), Initial(cfg), x) && Refuse(x, side).Some?
    ensures SpeaksUnasked(cfg) && OneCouldNotSend(cfg, ReportOf(Refuse(x, side).value))
  {
    hide Outcome, Succeeds, Initial, SpeaksUnasked, Run;
    var _ := NeverInLoop(cfg, x);
    if !SpeaksUnasked(cfg) {
      var n := OnlyStatusesFail(cfg, x, side);
      StreamIsLoop(cfg, x, n);
    }
  }

  lemma StreamIsLoop(cfg: Config, x: System, n: nat)
    requires cfg.selection.Some? && InStream(cfg, x, n)
    ensures InLoop(x.right)
  {}

  // ----- Every run

  /** Where a session can end: as computed from the configuration; with a status that could not be
      sent; or, if the receiver speaks unasked, with one process failing on a send. */
  ghost predicate EndsAs(cfg: Config, o: Report) {
    || o == Outcome(cfg)
    || (Succeeds(cfg) && cfg.selection.Some? && exists n :: Cuts(cfg, n) && o == CutReport(cfg, n))
    || (SpeaksUnasked(cfg) && OneCouldNotSend(cfg, o))
  }

  function EndOf(cfg: Config, events: seq<Event>): System
    requires Follow(Behaviour(cfg), Initial(cfg), events).Some?
  {
    Follow(Behaviour(cfg), Initial(cfg), events).value
  }

  /** A run that cannot go on. */
  ghost predicate Complete(cfg: Config, events: seq<Event>) {
    && Follow(Behaviour(cfg), Initial(cfg), events).Some?
    && Final(Behaviour(cfg), EndOf(cfg, events))
  }

  lemma RefusedEndsAs(cfg: Config, x: System, side: Side)
    requires cfg.Valid() && Reaches(Behaviour(cfg), Initial(cfg), x) && Refuse(x, side).Some?
    ensures EndsAs(cfg, ReportOf(Refuse(x, side).value))
  {
    hide Succeeds, SpeaksUnasked, Run, Initial, ReportOf, Cuts, CutReport, OneCouldNotSend, InStream;
    if Succeeds(cfg) {
      SuccessRefused(cfg, x, side);
    } else {
      FailureRefused(cfg, x, side);
    }
  }

  /** Every run, under every interleaving and with sends to gone processes failing or not, is bounded,
      and is either at its end, one of those above, or can still reach the computed outcome. */
  lemma EveryRunEnds(cfg: Config) returns (bound: nat)
    requires cfg.Valid()
    ensures forall events :: Follow(Behaviour(cfg), Initial(cfg), events).Some? ==>
              var x := EndOf(cfg, events);
              && |events| <= bound
              && (if Final(Behaviour(cfg), x) then EndsAs(cfg, ReportOf(x)) else Arrives(cfg, x, Outcome(cfg)))
  {
    hide Outcome, ReportOf, Step, Initial, EndsAs, Arrives, Final;
    var unrefused := UnrefusedRunsEnd(cfg);
    bound := unrefused + 1;
    forall events | Follow(Behaviour(cfg), Initial(cfg), events).Some?
      ensures var x := EndOf(cfg, events);
              && |events| <= bound
              && (if Final(Behaviour(cfg), x) then EndsAs(cfg, ReportOf(x)) else Arrives(cfg, x, Outcome(cfg)))
    {
      var schedule, refusal := OneRefusal(Behaviour(cfg), Initial(cfg), events);
      assert Reaches(Behaviour(cfg), Initial(cfg), Run(Behaviour(cfg), Initial(cfg), schedule).value);
      if refusal.Some? {
        RefusedEndsAs(cfg, Run(Behaviour(cfg), Initial(cfg), schedule).value, refusal.value);
      } else {
        OutcomeIsEnding(cfg);
      }
    }
  }

  lemma OutcomeIsEnding(cfg: Config)
    ensures EndsAs(cfg, Outcome(cfg))
  {}

  /** A process that stopped stands where it stands in the outcome, unless it could not send. */
  lemma StopsAreFinal(cfg: Config, events: seq<Event>)
    requires cfg.Valid() && Follow(Behaviour(cfg), Initial(cfg), events).Some?
    ensures var x, o := EndOf(cfg, events), Outcome(cfg);
            && (x.left.phase.Stopped? && !x.left.phase.stop.CutOff? && !x.left.phase.stop.SendFailed? ==>
                  x.left.phase == o.sender)
            && (x.right.phase.Stopped? && !x.right.phase.stop.CutOff? && !x.right.phase.stop.SendFailed? ==>
                  x.right.phase == o.receiver)
  {
    hide Outcome, Initial, Step;
    var schedule, refusal := OneRefusal(Behaviour(cfg), Initial(cfg), events);
    UnrefusedStops(cfg, schedule);
  }

  /** The receiver was cut off while it read the stream. */
  ghost predicate CutShort(cfg: Config, o: Report) {
    && cfg.selection.Some? && o.receiverFiles == cfg.files
    && exists n :: Cuts(cfg, n)
         && o.sender == Stopped(Sent(cfg.FileTokens(), Some(Due(cfg, n)[0])))
         && o.receiver == Stopped(CutOff(cfg.FileTokens(), Reading(cfg, n).(open := None)))
         && o.unheard == Due(cfg, n)[1..] && o.undelivered == TheStream(cfg)[n + 1..]
  }

  lemma {:induction false} ReadingGrows(cfg: Config, n: nat, k: nat)
    requires cfg.Valid() && cfg.selection.Some? && n <= k <= |TheStream(cfg)|
    ensures Due(cfg, n) <= Due(cfg, k)
    decreases k
  {
    hide TheStream, Due, Reading;
    if n < k {
      ReadingGrows(cfg, n, k - 1);
      DueNext(cfg, k - 1);
    }
  }

  /** The sender has heard the same status in every run. */
  lemma CutIsShort(cfg: Config, n: nat)
    requires cfg.Valid() && Succeeds(cfg) && cfg.selection.Some? && Cuts(cfg, n)
    ensures CutShort(cfg, CutReport(cfg, n))
  {
    hide Outcome, Succeeds, TheStream, Reading;
    OutcomeMeaning(cfg);
    ReadingGrows(cfg, n, |TheStream(cfg)|);
    ReadingEnds(cfg);
  }

  /** Both ends declined, or went through the stream, the receiver perhaps cut off behind a status, if
      the checks are passed; otherwise both failed. */
  ghost predicate Agreed(cfg: Config, o: Report) {
    && (if Succeeds(cfg) then Together(cfg, o) || CutShort(cfg, o)
        else (Fails(o.sender) || Fails(o.receiver))
             && (Fails(o.sender) || o.sender == Stopped(SendFailed))
             && (Fails(o.receiver) || o.receiver == Stopped(SendFailed)))
    && (o.sender != Stopped(SendFailed) && o.receiver != Stopped(SendFailed) ==>
          o.senderNonce == o.receiverNonce == AgreedNonce(cfg))
    && (Succeeds(cfg) && cfg.receiverPin.Some? ==>
          CountedTo(cfg.receiverPin.value, cfg.senderGuesses, o.senderUsed, o.receiverTries))
    && (Succeeds(cfg) && cfg.senderPin.Some? && cfg.senderPin.value.pin != "" ==>
          CountedTo(cfg.senderPin.value, cfg.receiverGuesses, o.receiverUsed, o.senderTries))
  }

  lemma CutAgrees(cfg: Config, n: nat)
    requires cfg.Valid() && Succeeds(cfg) && cfg.selection.Some? && Cuts(cfg, n)
    ensures Agreed(cfg, CutReport(cfg, n))
  {
    hide Outcome, Succeeds, Together, CutShort, CountedTo;
    OutcomeMeaning(cfg);
    CutIsShort(cfg, n);
  }

  lemma EndingAgrees(cfg: Config, o: Report)
    requires cfg.Valid() && EndsAs(cfg, o)
    ensures Agreed(cfg, o)
  {
    hide Outcome, Succeeds, SpeaksUnasked, Together, CutShort, CountedTo, CutReport, Cuts;
    OutcomeMeaning(cfg);
    SuccessIsAsked(cfg);
    if Succeeds(cfg) && o != Outcome(cfg) {
      var n :| Cuts(cfg, n) && o == CutReport(cfg, n);
      CutAgrees(cfg, n);
    }
  }

  /** Both ends agree in every complete run: exactly when the tokens are trusted and the PINs guessed
      in time, both decline, or both go through the stream under the same tokens, the receiver
      perhaps cut off behind a status; otherwise both fail. Unless a send failed before, they built
      the same nonce, and the passed challenges read the guesses up to the first right one. */
  lemma PeersAgree(cfg: Config, events: seq<Event>)
    requires cfg.Valid() && Complete(cfg, events)
    ensures Agreed(cfg, ReportOf(EndOf(cfg, events)))
  {
    hide EndsAs, Agreed, Initial, Follow;
    var _ := EveryRunEnds(cfg);
    EndingAgrees(cfg, ReportOf(EndOf(cfg, events)));
  }

  ghost predicate MeetsWrongKind(cfg: Config, events: seq<Event>) {
    && Follow(Behaviour(cfg), Initial(cfg), events).Some?
    && var x := EndOf(cfg, events);
       x.left.phase == Stopped(Garbled) || x.right.phase == Stopped(Garbled)
  }

  /** A process meets a message of the wrong kind in some run exactly with the asked empty PIN. */
  lemma WrongKindExactly(cfg: Config)
    requires cfg.Valid()
    ensures (exists events :: MeetsWrongKind(cfg, events)) <==> EmptyPinAsked(cfg)
  {
    hide Outcome, Initial, Follow, EmptyPinAsked, Succeeds;
    OutcomeMeaning(cfg);
    SomeRunEnds(cfg);
    var f :| Reaches(Behaviour(cfg), Initial(cfg), f) && Final(Behaviour(cfg), f) && ReportOf(f) == Outcome(cfg);
    var ending :| Run(Behaviour(cfg), Initial(cfg), ending) == Some(f);
    var replay := Replay(Behaviour(cfg), Initial(cfg), ending, None);
    assert EmptyPinAsked(cfg) ==> MeetsWrongKind(cfg, replay);
    forall events | MeetsWrongKind(cfg, events)
      ensures EmptyPinAsked(cfg)
    {
      StopsAreFinal(cfg, events);
    }
  }

  // ----- Each of these endings occurs

  /** The sender has the tokens and begins to send its files. */
  ghost predicate StreamReady(cfg: Config, b: System) {
    && cfg.selection.Some? && b.toLeft == [] && b.toRight == [] && b.right.files == cfg.files
    && b.left.phase == SenderLast(cfg.FileTokens()) && b.left.outbox == TheStream(cfg)
    && b.right.phase == Receiving(cfg.FileTokens(), FileStream.Begin(cfg.results)) && b.right.outbox == []
  }

  lemma StreamReached(cfg: Config, o: System) returns (b: System)
    requires cfg.Valid() && Offering(cfg, o) && cfg.selection.Some?
    ensures Reaches(Behaviour(cfg), o, b) && StreamReady(cfg, b)
  {
    hide Frame, FileStream.Stream;
    var offer, answer := cfg.json.encode(SendingOk(cfg.files)), cfg.json.encode(ListOk(cfg.FileTokens()));
    OfferRead(cfg, o.right);
    NothingBefore(Frame(answer));
    FrameCrosses(cfg, o, offer);
    var a := o.(left := o.left.(outbox := []), right := Choose(cfg, o.right.(files := cfg.files)));
    AnswerRead(cfg, a.left, ListOk(cfg.FileTokens()));
    NothingBefore(TheStream(cfg));
    FrameComesBack(cfg, a, answer);
    b := a.(right := a.right.(outbox := []),
            left := a.left.(outbox := TheStream(cfg), phase := SenderLast(cfg.FileTokens())));
    ReachesTransitive(Behaviour(cfg), o, a, b);
  }

  /** The stream is sent and `n` messages of it are read and answered. */
  function ReadSoFar(cfg: Config, b: System, n: nat): System
    requires cfg.selection.Some? && n <= |TheStream(cfg)|
  {
    b.(left := b.left.(outbox := []), toRight := TheStream(cfg)[n..], toLeft := Due(cfg, n),
       right := b.right.(phase := Resting(cfg.FileTokens(), Reading(cfg, n))))
  }

  lemma ReadingReached(cfg: Config, b: System, n: nat)
    requires cfg.Valid() && StreamReady(cfg, b) && n < |TheStream(cfg)|
    ensures Reaches(Behaviour(cfg), b, ReadSoFar(cfg, b, n)) && InStream(cfg, ReadSoFar(cfg, b, n), n)
    ensures ReadSoFar(cfg, b, n).right.phase.Receiving?
  {
    hide TheStream, Reading, Due, AfterStream, InStream, Run, FileStream.Receive, FileStream.Consumed;
    var ms := TheStream(cfg);
    NothingBefore(ms);
    Flush(Behaviour(cfg), b);
    var sent := b.(left := b.left.(outbox := []), toRight := ms);
    assert ms == ms[..n] + ms[n..];
    StreamCrosses(cfg, sent, ms[..n], ms[n..]);
    ReadingNext(cfg, n);
    AfterIsReadSoFar(cfg, b, sent, n);
    ReachesTransitive(Behaviour(cfg), b, sent, ReadSoFar(cfg, b, n));
    ReadSoFarInStream(cfg, b, n);
  }

  lemma AfterIsReadSoFar(cfg: Config, b: System, sent: System, n: nat)
    requires cfg.Valid() && StreamReady(cfg, b) && n < |TheStream(cfg)| && Reading(cfg, n).ending.Running?
    requires sent == b.(left := b.left.(outbox := []), toRight := TheStream(cfg))
    ensures AfterStream(cfg, sent, TheStream(cfg)[..n], TheStream(cfg)[n..]) == ReadSoFar(cfg, b, n)
  {
    ReadAll(cfg, n);
    hide TheStream, Due, News, FileStream.Receive, FileStream.Consumed;
    NothingBefore(TheStream(cfg)[n..]);
  }

  lemma ReadSoFarInStream(cfg: Config, b: System, n: nat)
    requires cfg.Valid() && StreamReady(cfg, b) && n < |TheStream(cfg)| && Reading(cfg, n).ending.Running?
    ensures InStream(cfg, ReadSoFar(cfg, b, n), n) && ReadSoFar(cfg, b, n).right.phase.Receiving?
  {
    hide TheStream, Reading, Due;
    NothingBefore(Due(cfg, n));
    assert Due(cfg, n) + [] == Due(cfg, n) && TheStream(cfg)[n..] + [] == TheStream(cfg)[n..];
  }

  lemma ReadAll(cfg: Config, n: nat)
    requires cfg.selection.Some? && n <= |TheStream(cfg)| && Reading(cfg, n).ending.Running?
    ensures TheStream(cfg)[..n][FileStream.Consumed(cfg.Receiver(), FileStream.Begin(cfg.results),
                                                    TheStream(cfg)[..n])..] == []
    ensures [] + Streaming.News(cfg.json, FileStream.Begin(cfg.results), Reading(cfg, n)) == Due(cfg, n)
  {
    var ms := TheStream(cfg)[..n];
    assert ms + [] == ms;
    FileTransfer.ReceiveAppend(cfg.Receiver(), FileStream.Begin(cfg.results), ms, []);
    assert Reading(cfg, n).statuses[0..] == Reading(cfg, n).statuses;
  }

  /** The sender hears the first status and closes; the receiver reads on and has another one to send. */
  lemma CutReached(cfg: Config, d: System, n: nat) returns (x: System)
    requires cfg.Valid() && InStream(cfg, d, n) && Cuts(cfg, n)
    requires d.left.phase.SenderLast? && d.left.outbox == [] && d.right.phase.Receiving?
    ensures Reaches(Behaviour(cfg), d, x) && InStream(cfg, x, n + 1) && Refuse(x, Right).Some?
  {
    hide TheStream, Due, Reading;
    ToLeftIsDue(cfg, d, n);
    var heard := d.(left := d.left.End(Sent(d.left.phase.tokens, Some(d.toLeft[0]))), toLeft := d.toLeft[1..]);
    assert d.toRight + [] == d.toRight;
    assert Step(Behaviour(cfg), d, Left) == Some(heard);
    StreamLeft(cfg, d, n);
    ReachesByStep(Behaviour(cfg), d, Left, heard);
    var m := TheStream(cfg)[n];
    assert d.toRight == TheStream(cfg)[n..] && d.toRight[0] == m;
    assert Step(Behaviour(cfg), heard, Right).Some?;
    x := Step(Behaviour(cfg), heard, Right).value;
    StreamRead(cfg, heard, n);
    ReachesByStep(Behaviour(cfg), heard, Right, x);
    ReachesTransitive(Behaviour(cfg), d, heard, x);
    assert x.right == OnStream(cfg, d.right, m);
  }

  lemma ToLeftIsDue(cfg: Config, d: System, n: nat)
    requires cfg.Valid() && InStream(cfg, d, n) && Cuts(cfg, n)
    requires d.left.phase.SenderLast? && d.left.outbox == [] && d.right.phase.Receiving?
    ensures d.toLeft == Due(cfg, n) && d.toLeft != [] && d.toRight == TheStream(cfg)[n..] && d.right.outbox == []
    ensures d.right.phase.transfer == Reading(cfg, n)
  {
    hide TheStream, Reading;
    assert d.toRight + [] == d.toRight;
    NothingBefore(d.toLeft);
    assert d.toLeft + [] == d.toLeft;
  }

  lemma CutIsReached(cfg: Config, n: nat) returns (o: System, x: System)
    requires cfg.Valid() && Succeeds(cfg) && cfg.selection.Some? && Cuts(cfg, n)
    ensures Offering(cfg, o) && Reaches(Behaviour(cfg), Initial(cfg), o) && Reaches(Behaviour(cfg), o, x)
    ensures InStream(cfg, x, n + 1) && Refuse(x, Right).Some?
  {
    hide Offering, Initial, Succeeds, InStream, Run, Refuse;
    var way;
    o, way := OfferMade(cfg);
    var b := StreamReached(cfg, o);
    ReadingReached(cfg, b, n);
    x := CutReached(cfg, ReadSoFar(cfg, b, n), n);
    ReachesTransitive(Behaviour(cfg), o, b, ReadSoFar(cfg, b, n));
    ReachesTransitive(Behaviour(cfg), o, ReadSoFar(cfg, b, n), x);
  }

  /** Wherever a status behind the first is due, some run ends with it not sent. */
  lemma CutOccurs(cfg: Config, n: nat) returns (events: seq<Event>)
    requires cfg.Valid() && Succeeds(cfg) && cfg.selection.Some? && Cuts(cfg, n)
    ensures Complete(cfg, events) && ReportOf(EndOf(cfg, events)) == CutReport(cfg, n)
  {
    hide Offering, Initial, Succeeds, InStream, Run, Refuse, ReportOf, CutReport, Cuts;
    var o, x := CutIsReached(cfg, n);
    ReachesTransitive(Behaviour(cfg), Initial(cfg), o, x);
    StatusRefused(cfg, x, Right, n + 1);
    var schedule :| Run(Behaviour(cfg), Initial(cfg), schedule) == Some(x);
    RefusalIsLast(Behaviour(cfg), x, Right);
    events := Replay(Behaviour(cfg), Initial(cfg), schedule, Some(Right));
  }

  /** The computed outcome occurs. */
  lemma OutcomeOccurs(cfg: Config) returns (events: seq<Event>)
    requires cfg.Valid()
    ensures Complete(cfg, events) && ReportOf(EndOf(cfg, events)) == Outcome(cfg)
  {
    hide Outcome, Initial, ReportOf, Run;
    SomeRunEnds(cfg);
    var f :| Reaches(Behaviour(cfg), Initial(cfg), f) && Final(Behaviour(cfg), f) && ReportOf(f) == Outcome(cfg);
    var ending :| Run(Behaviour(cfg), Initial(cfg), ending) == Some(f);
    events := Replay(Behaviour(cfg), Initial(cfg), ending, None);
  }

  ghost predicate Occurs(cfg: Config, o: Report) {
    exists events :: Complete(cfg, events) && ReportOf(EndOf(cfg, events)) == o
  }

  /** The endings of a session whose checks are passed are exactly these. */
  lemma EndingsExactly(cfg: Config, o: Report)
    requires cfg.Valid() && Succeeds(cfg)
    ensures Occurs(cfg, o) <==>
              o == Outcome(cfg) || (cfg.selection.Some? && exists n :: Cuts(cfg, n) && o == CutReport(cfg, n))
  {
    SuccessIsAsked(cfg);
    hide Outcome, Initial, Succeeds, SpeaksUnasked, OneCouldNotSend, ReportOf, Follow, Final, Cuts, CutReport;
    var _ := EveryRunEnds(cfg);
    if o == Outcome(cfg) {
      var events := OutcomeOccurs(cfg);
    } else if n :| cfg.selection.Some? && Cuts(cfg, n) && o == CutReport(cfg, n) {
      var events := CutOccurs(cfg, n);
    }
  }

  /** Being cut off in a run is what the receive loop does when only so many statuses can be sent. */
  lemma CutIsLoop(cfg: Config, n: nat)
    requires cfg.Valid() && cfg.selection.Some? && Cuts(cfg, n)
    ensures FileStream.ReceiveWhile(cfg.Receiver(), FileStream.Begin(cfg.results), TheStream(cfg),
                                    |Reading(cfg, n).statuses|)
            == FileStream.Reception(Reading(cfg, n).(open := None), true, n + 1)
  {
    hide FileStream.OnMessage, FileStream.ReceiveWhile, TheStream, FileStream.Receive;
    var c, begin, ms, k := cfg.Receiver(), FileStream.Begin(cfg.results), TheStream(cfg), |Reading(cfg, n).statuses|;
    FileStream.CutExactly(c, begin, ms, k);
    ReadingGrows(cfg, n + 1, |ms|);
    DueNext(cfg, n);
    ReadingEnds(cfg);
    assert ms[..|ms|] == ms;
    var m := FileStream.ReceiveWhile(c, begin, ms, k).read - 1;
    assert Reading(cfg, m) == FileStream.Receive(c, begin, ms[..m]);
    DueNext(cfg, m);
    if m < n {
      ReadingGrows(cfg, m + 1, n);
    } else if n < m {
      ReadingGrows(cfg, n + 1, m);
    }
  }

  /** A process can fail on a send other than that of a status if and only if the receiver speaks
      unasked: it trusts the sender and has an empty PIN, or one that may not be tried. */
  lemma SendFailsExactly(cfg: Config)
    requires cfg.Valid()
    ensures (exists events :: Follow(Behaviour(cfg), Initial(cfg), events).Some? && CouldNotSend(EndOf(cfg, events)))
            <==> SpeaksUnasked(cfg)
  {
    hide Initial, CouldNotSend, SpeaksUnasked, Run, Refuse;
    if SpeaksUnasked(cfg) {
      UnaskedCanFail(cfg);
      var y, side :|
        Reaches(Behaviour(cfg), Initial(cfg), y) && Refuse(y, side).Some? && CouldNotSend(Refuse(y, side).value);
      var schedule :| Run(Behaviour(cfg), Initial(cfg), schedule) == Some(y);
      var events := Replay(Behaviour(cfg), Initial(cfg), schedule, Some(side));
    } else {
      forall events | Follow(Behaviour(cfg), Initial(cfg), events).Some?
        ensures !CouldNotSend(EndOf(cfg, events))
      {
        AskedSends(cfg, events);
      }
    }
  }

  lemma AskedSends(cfg: Config, events: seq<Event>)
    requires cfg.Valid() && !SpeaksUnasked(cfg) && Follow(Behaviour(cfg), Initial(cfg), events).Some?
    ensures !CouldNotSend(EndOf(cfg, events))
  {
    hide SpeaksUnasked, Initial, Outcome, InStream;
    var schedule, refusal := OneRefusal(Behaviour(cfg), Initial(cfg), events);
    UnrefusedStops(cfg, schedule);
    NoSendFails(cfg);
    if refusal.Some? {
      var x := Run(Behaviour(cfg), Initial(cfg), schedule).value;
      assert Reaches(Behaviour(cfg), Initial(cfg), x);
      var n := OnlyStatusesFail(cfg, x, refusal.value);
      RefusedInStream(cfg, x, refusal.value, n);
    }
  }

  lemma NoSendFails(cfg: Config)
    ensures Outcome(cfg).sender != Stopped(SendFailed) && Outcome(cfg).receiver != Stopped(SendFailed)
  {
    hide Outcome, Succeeds;
    OutcomeMeaning(cfg);
  }
}
