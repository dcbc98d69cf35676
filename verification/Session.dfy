/** What a whole session comes to for the users, in every run. */
module Session {
  import opened Prelude
  import opened Packets
  import opened Peers
  import opened Duplex
  import opened Handshake
  import opened Refusals
  import opened Turns
  import opened Endings
  import opened FileStream
  import FileTransfer
  import Chunks

  /** The files the sending application goes on to send, without those not picked. */
  function Picked(files: seq<Outgoing>, picks: set<string>): seq<Outgoing> {
    if files == [] then []
    else (if files[0].id in picks then [files[0]] else []) + Picked(files[1..], picks)
  }

  lemma {:induction false} SentArePicked(tokens: FileTokens, files: seq<Outgoing>)
    ensures FileStream.Sent(tokens, files) == Picked(files, tokens.Keys)
  {
    if files != [] {
      SentArePicked(tokens, files[1..]);
    }
  }

  function AllPicked(cfg: Config): seq<Outgoing>
    requires cfg.selection.Some?
  {
    Picked(cfg.outgoing, cfg.selection.value)
  }

  /** The picked files that were offered, in the order they are sent in. */
  function Expected(cfg: Config): seq<Outgoing>
    requires cfg.selection.Some?
  {
    FileTransfer.Offered(cfg.Receiver(), AllPicked(cfg))
  }

  /** The receiving user picks among the offered files. */
  ghost predicate PicksOffered(cfg: Config) {
    cfg.selection.Some? && forall id :: id in cfg.selection.value ==> InList(cfg.files, id)
  }

  lemma {:induction false} PickedAreOffered(cfg: Config, files: seq<Outgoing>)
    requires PicksOffered(cfg)
    ensures FileTransfer.AllListed(cfg.Receiver(), Picked(files, cfg.selection.value))
  {
    if files != [] {
      PickedAreOffered(cfg, files[1..]);
    }
  }

  /** Exactly these files were published, each as the 1 MiB split of its content. */
  ghost predicate Whole(t: Transfer, files: seq<Outgoing>) {
    && |t.files| == |files|
    && forall i :: 0 <= i < |files| ==>
         && t.files[i].id == files[i].id
         && Chunks.Rebuffer(t.files[i].pieces) == Chunks.Split(files[i].Content(), Chunks.BUFFER_SIZE)
  }

  /** One status per file, as the application reported. */
  ghost predicate Answered(cfg: Config, statuses: seq<Packet>, files: seq<Outgoing>) {
    && |statuses| == |files|
    && forall i :: 0 <= i < |files| ==> Tells(statuses[i], files[i].id, cfg.results, i)
  }

  /** The whole stream, read. */
  lemma StreamDelivers(cfg: Config)
    requires cfg.Valid() && cfg.selection.Some?
    ensures var t := StreamResult(cfg);
            && Whole(t, Expected(cfg)) && Answered(cfg, t.statuses, Expected(cfg)) && t.open.None?
            && (PicksOffered(cfg) ==> t.errors == [])
            && !t.ending.Running?
  {
    hide Receive, Stream, Picked, FileTransfer.Offered;
    SentArePicked(cfg.FileTokens(), cfg.outgoing);
    assert cfg.FileTokens().Keys == cfg.selection.value;
    FileTransfer.StreamRoundTrip(cfg.Receiver(), cfg.outgoing, cfg.results, []);
    FileTransfer.StreamArrives(cfg.Receiver(), cfg.outgoing, cfg.results, []);
    assert TheStream(cfg) + [] == TheStream(cfg);
    if PicksOffered(cfg) {
      PickedAreOffered(cfg, cfg.outgoing);
    }
    forall file: Outgoing
      ensures Chunks.Rebuffer(FileTransfer.Delivered(file).pieces) == Chunks.Split(file.Content(), Chunks.BUFFER_SIZE)
    {
      Chunks.RebufferedChunks(file.Content());
    }
  }

  /** A part of the stream that ends behind a file: that file and those before it have arrived. */
  lemma PartDelivers(cfg: Config, n: nat)
    requires cfg.Valid() && cfg.selection.Some? && Cuts(cfg, n)
    ensures var t, k := Reading(cfg, n), |Reading(cfg, n).files|;
            && 2 <= k <= |Expected(cfg)| && |t.statuses| == k - 1
            && Whole(t, Expected(cfg)[..k]) && Answered(cfg, t.statuses, Expected(cfg)[..k - 1])
            && (PicksOffered(cfg) ==> t.errors == [])
  {
    hide Receive, Stream, Expected, Chunks.Rebuffer, Chunks.Split;
    var c, ms := cfg.Receiver(), TheStream(cfg);
    var t, k := Reading(cfg, n), |Reading(cfg, n).files|;
    PartMatches(cfg, n);
    StreamDelivers(cfg);
    RestOfStream(cfg, n);
    ReadingNext(cfg, n);
    assert OnMessage(c, t, ms[n]).files[..k] == t.files && |OnMessage(c, t, ms[n]).files| >= k;
    FileTransfer.ClosedStay(c, OnMessage(c, t, ms[n]), ms[n + 1..], k);
    assert t.files == StreamResult(cfg).files[..k];
  }

  lemma PartMatches(cfg: Config, n: nat)
    requires cfg.Valid() && cfg.selection.Some? && n < |TheStream(cfg)|
    ensures FileTransfer.StatusesMatch(Reading(cfg, n)) && Reading(cfg, n).results == cfg.results
  {
    hide Receive, Stream;
    var ms := TheStream(cfg)[..n];
    FileTransfer.EveryMessageAccountedFor(cfg.Receiver(), cfg.results, ms);
  }

  lemma RestOfStream(cfg: Config, n: nat)
    requires cfg.Valid() && cfg.selection.Some? && n < |TheStream(cfg)|
    ensures var c, ms := cfg.Receiver(), TheStream(cfg);
            StreamResult(cfg) == Receive(c, OnMessage(c, Reading(cfg, n), ms[n]), ms[n + 1..])
    ensures Reading(cfg, n).errors <= StreamResult(cfg).errors
  {
    hide Stream, OnMessage;
    var c, ms := cfg.Receiver(), TheStream(cfg);
    assert ms == ms[..n + 1] + ms[n + 1..];
    FileTransfer.ReceiveAppend(c, Begin(cfg.results), ms[..n + 1], ms[n + 1..]);
    ReadingNext(cfg, n);
    FileTransfer.ErrorsGrow(c, Reading(cfg, n), ms[n..]);
    assert ms == ms[..n] + ms[n..];
    FileTransfer.ReceiveAppend(c, Begin(cfg.results), ms[..n], ms[n..]);
  }

  /** A message of the stream that closes the `k`-th published file. */
  lemma {:induction false} ClosingAt(cfg: Config, k: nat, m: nat) returns (n: nat)
    requires cfg.Valid() && cfg.selection.Some? && m <= |TheStream(cfg)| && k < |Reading(cfg, m).statuses|
    ensures n < |TheStream(cfg)| && Closes(Reading(cfg, n), TheStream(cfg)[n]) && |Reading(cfg, n).statuses| == k
    decreases m
  {
    hide TheStream, Reading;
    if m == 0 {
      NothingRead(cfg);
    } else {
      DueNext(cfg, m - 1);
      n := m - 1;
      if k < |Due(cfg, n)| {
        n := ClosingAt(cfg, k, n);
      }
    }
  }

  lemma NothingRead(cfg: Config)
    requires cfg.selection.Some?
    ensures Reading(cfg, 0) == Begin(cfg.results)
  {
    assert TheStream(cfg)[..0] == [];
  }

  // ----- Every run

  /** The sender is through and has heard the status of the first file, or the close if there was none. */
  ghost predicate HeardFirst(cfg: Config, x: System)
    requires cfg.selection.Some?
  {
    var expected := Expected(cfg);
    && x.left.phase.Stopped? && x.left.phase.stop.Sent? && x.left.phase.stop.tokens == cfg.FileTokens()
    && (expected == [] ==> x.left.phase.stop.heard == None)
    && (expected != [] ==> exists status ::
          Tells(status, expected[0].id, cfg.results, 0) && x.left.phase.stop.heard == Some(cfg.json.Text(status)))
  }

  function Unread(cfg: Config, statuses: seq<Packet>): seq<Message> {
    Texts(cfg.json, if statuses == [] then [] else statuses[1..])
  }

  /** The receiver got through the stream: every expected file arrived and was answered. */
  ghost predicate Through(cfg: Config, x: System, t: Transfer)
    requires cfg.selection.Some?
  {
    && x.right.phase == Stopped(Transferred(cfg.FileTokens(), t)) && x.toRight == []
    && Whole(t, Expected(cfg)) && Answered(cfg, t.statuses, Expected(cfg))
    && x.toLeft == Unread(cfg, t.statuses)
    && t.ending == if AllPicked(cfg) != [] && LastOffered(cfg) then Finished else HeaderUnparsed
  }

  predicate LastOffered(cfg: Config)
    requires cfg.selection.Some? && AllPicked(cfg) != []
  {
    InList(cfg.files, AllPicked(cfg)[|AllPicked(cfg)| - 1].id)
  }

  /** The receiver was cut off when it had the first `k` files and owed the status of the last of them. */
  ghost predicate CutBehind(cfg: Config, x: System, t: Transfer, k: nat)
    requires cfg.selection.Some?
  {
    && 2 <= k <= |Expected(cfg)|
    && x.right.phase == Stopped(CutOff(cfg.FileTokens(), t))
    && Whole(t, Expected(cfg)[..k]) && Answered(cfg, t.statuses, Expected(cfg)[..k - 1])
    && x.toLeft == Unread(cfg, t.statuses)
  }

  lemma SenderHeard(cfg: Config, x: System)
    requires cfg.Valid() && Succeeds(cfg) && cfg.selection.Some? && x.left.phase == Outcome(cfg).sender
    ensures HeardFirst(cfg, x) && SenderThrough(x)
  {
    hide Outcome, Succeeds, StreamResult, TheStream, Expected, Whole;
    OutcomeMeaning(cfg);
    StreamDelivers(cfg);
  }

  lemma OutcomeDelivers(cfg: Config, x: System)
    requires cfg.Valid() && Succeeds(cfg) && cfg.selection.Some? && ReportOf(x) == Outcome(cfg)
    ensures HeardFirst(cfg, x) && Through(cfg, x, StreamResult(cfg))
  {
    hide Outcome, Succeeds, StreamResult, TheStream, Expected, Whole, Answered, HeardFirst, LastOffered;
    OutcomeMeaning(cfg);
    SenderHeard(cfg, x);
    StreamDelivers(cfg);
    CleanExactly(cfg);
  }

  lemma CleanExactly(cfg: Config)
    requires cfg.Valid() && cfg.selection.Some?
    ensures StreamResult(cfg).ending == if AllPicked(cfg) != [] && LastOffered(cfg) then Finished else HeaderUnparsed
  {
    hide Receive, Stream, Picked;
    assert cfg.FileTokens().Keys == cfg.selection.value;
    SentArePicked(cfg.FileTokens(), cfg.outgoing);
    FileTransfer.EndsCleanlyExactly(cfg.Receiver(), cfg.outgoing, cfg.results, []);
    assert TheStream(cfg) + [] == TheStream(cfg);
  }

  lemma CutDelivers(cfg: Config, x: System, n: nat)
    requires cfg.Valid() && Succeeds(cfg) && cfg.selection.Some? && Cuts(cfg, n) && ReportOf(x) == CutReport(cfg, n)
    ensures HeardFirst(cfg, x) && CutBehind(cfg, x, Reading(cfg, n).(open := None), |Reading(cfg, n).files|)
  {
    hide Outcome, Succeeds, Reading, TheStream, Expected, Whole, Answered, HeardFirst, Cuts;
    SenderHeard(cfg, x);
    PartDelivers(cfg, n);
    Unheard(cfg, n);
    WholeClosed(Reading(cfg, n), Expected(cfg)[..|Reading(cfg, n).files|]);
  }

  lemma Unheard(cfg: Config, n: nat)
    requires cfg.selection.Some? && Cuts(cfg, n)
    ensures n < |TheStream(cfg)| && Due(cfg, n)[1..] == Unread(cfg, Reading(cfg, n).statuses)
  {
    hide Reading, TheStream;
  }

  lemma WholeClosed(t: Transfer, files: seq<Outgoing>)
    requires Whole(t, files)
    ensures Whole(t.(open := None), files)
  {}

  /** In every complete run of trusted peers with guessed PINs and a selection, the sender hears the
      first status and no other. The receiver gets every expected file whole, in order, and answers
      each; or it is cut off when it has the first two of them or more, with the last of those not
      answered. It never reports an error about a file if only offered ones were picked. */
  lemma SessionDelivers(cfg: Config, events: seq<Event>) returns (t: Transfer)
    requires cfg.Valid() && Succeeds(cfg) && cfg.selection.Some? && Complete(cfg, events)
    ensures var x := EndOf(cfg, events);
            && HeardFirst(cfg, x) && (Through(cfg, x, t) || CutBehind(cfg, x, t, |t.files|))
            && (PicksOffered(cfg) ==> t.errors == [])
  {
    hide Outcome, Succeeds, Initial, Follow, Final, ReportOf, HeardFirst, Through, CutBehind, StreamResult, Reading,
         TheStream, Cuts, CutReport, PicksOffered, Whole, Answered, Expected, SpeaksUnasked, OneCouldNotSend;
    SuccessIsAsked(cfg);
    var x := EndOf(cfg, events);
    var _ := EveryRunEnds(cfg);
    StreamDelivers(cfg);
    if ReportOf(x) == Outcome(cfg) {
      t := StreamResult(cfg);
      OutcomeDelivers(cfg, x);
    } else {
      var n: nat :| Cuts(cfg, n) && ReportOf(x) == CutReport(cfg, n);
      CutDelivers(cfg, x, n);
      PartDelivers(cfg, n);
      assert n < |TheStream(cfg)| by { Unheard(cfg, n); }
      t := Reading(cfg, n).(open := None);
    }
  }

  /** What the receive loop made of the messages it read. */
  function Made(x: System): Option<Transfer> {
    if x.right.phase.Stopped? && (x.right.phase.stop.Transferred? || x.right.phase.stop.CutOff?)
    then Some(x.right.phase.stop.transfer) else None
  }

  /** Any number of files from two on can be the last to arrive: some run loses all files behind. */
  lemma FilesLost(cfg: Config, k: nat) returns (events: seq<Event>)
    requires cfg.Valid() && Succeeds(cfg) && cfg.selection.Some? && 2 <= k <= |Expected(cfg)|
    ensures Complete(cfg, events)
    ensures Made(EndOf(cfg, events)).Some? && CutBehind(cfg, EndOf(cfg, events), Made(EndOf(cfg, events)).value, k)
  {
    hide Outcome, Succeeds, Initial, Follow, Final, ReportOf, StreamResult, Reading, TheStream, CutReport,
         Whole, Answered, Expected;
    StreamDelivers(cfg);
    ReadingEnds(cfg);
    CountAnswered(cfg, StreamResult(cfg).statuses, Expected(cfg));
    var n := ClosingAt(cfg, k - 1, |TheStream(cfg)|);
    PartDelivers(cfg, n);
    events := CutOccurs(cfg, n);
    CutDelivers(cfg, EndOf(cfg, events), n);
  }

  /** In some run all of them arrive and are answered. */
  lemma ThroughOccurs(cfg: Config) returns (events: seq<Event>)
    requires cfg.Valid() && Succeeds(cfg) && cfg.selection.Some?
    ensures Complete(cfg, events) && Through(cfg, EndOf(cfg, events), StreamResult(cfg))
  {
    hide Outcome, Succeeds, Initial, Follow, Final, ReportOf, Through, StreamResult;
    events := OutcomeOccurs(cfg);
    OutcomeDelivers(cfg, EndOf(cfg, events));
  }

  lemma CountAnswered(cfg: Config, statuses: seq<Packet>, files: seq<Outgoing>)
    requires Answered(cfg, statuses, files)
    ensures |statuses| == |files|
  {}

  /** With three files, the third can get lost. */
  lemma ThirdLost(cfg: Config) returns (events: seq<Event>)
    requires cfg.Valid() && Succeeds(cfg) && cfg.selection.Some? && |Expected(cfg)| == 3
    ensures Complete(cfg, events) && Made(EndOf(cfg, events)).Some?
    ensures Whole(Made(EndOf(cfg, events)).value, Expected(cfg)[..2])
  {
    events := FilesLost(cfg, 2);
  }

  ghost predicate AllArrive(cfg: Config, events: seq<Event>)
    requires cfg.selection.Some? && Complete(cfg, events)
  {
    Made(EndOf(cfg, events)).Some? && Whole(Made(EndOf(cfg, events)).value, Expected(cfg))
  }

  /** All expected files arrive in every run if and only if there are at most two. */
  lemma AllArriveExactly(cfg: Config)
    requires cfg.Valid() && Succeeds(cfg) && cfg.selection.Some?
    ensures (forall events :: Complete(cfg, events) ==> AllArrive(cfg, events)) <==> |Expected(cfg)| <= 2
  {
    hide Complete, EndOf, Expected, Succeeds;
    if |Expected(cfg)| <= 2 {
      forall events | Complete(cfg, events) ensures AllArrive(cfg, events) {
        var t := SessionDelivers(cfg, events);
        assert Expected(cfg)[..|Expected(cfg)|] == Expected(cfg);
      }
    } else {
      var events := FilesLost(cfg, 2);
      assert !AllArrive(cfg, events);
    }
  }

  /** The receive loop recognised the end of the stream and sent all its statuses. */
  ghost predicate EndsCleanly(cfg: Config, events: seq<Event>)
    requires Complete(cfg, events)
  {
    var phase := EndOf(cfg, events).right.phase;
    phase.Stopped? && phase.stop.Transferred? && phase.stop.transfer.ending == Finished
  }

  /** The receiver ends without an error in every run if and only if exactly one of the picked files
      was offered, and that is the last one sent. */
  lemma CleanInEveryRunExactly(cfg: Config)
    requires cfg.Valid() && Succeeds(cfg) && cfg.selection.Some?
    ensures (forall events :: Complete(cfg, events) ==> EndsCleanly(cfg, events))
            <==> AllPicked(cfg) != [] && LastOffered(cfg) && |Expected(cfg)| == 1
  {
    hide Complete, EndOf, Expected, Succeeds, AllPicked, Whole, Answered, Outcome, StreamResult;
    LastIsExpected(cfg);
    if AllPicked(cfg) != [] && LastOffered(cfg) && |Expected(cfg)| == 1 {
      forall events | Complete(cfg, events) ensures EndsCleanly(cfg, events) {
        var t := SessionDelivers(cfg, events);
      }
    } else if |Expected(cfg)| >= 2 {
      var events := FilesLost(cfg, 2);
      assert !EndsCleanly(cfg, events);
    } else {
      var events := ThroughOccurs(cfg);
      assert !EndsCleanly(cfg, events);
    }
  }

  lemma {:induction false} LastIsOffered(c: Context, sent: seq<Outgoing>)
    requires sent != [] && c.Listed(sent[|sent| - 1].id)
    ensures FileTransfer.Offered(c, sent) != []
  {
    if |sent| > 1 {
      LastIsOffered(c, sent[1..]);
    }
  }

  lemma LastIsExpected(cfg: Config)
    requires cfg.selection.Some?
    ensures AllPicked(cfg) != [] && LastOffered(cfg) ==> Expected(cfg) != []
  {
    if AllPicked(cfg) != [] && LastOffered(cfg) {
      LastIsOffered(cfg.Receiver(), AllPicked(cfg));
    }
  }

  /** In terms of the picks, if only offered files are picked. */
  lemma InTermsOfPicks(cfg: Config)
    requires cfg.Valid() && Succeeds(cfg) && PicksOffered(cfg)
    ensures Expected(cfg) == AllPicked(cfg)
    ensures (forall events :: Complete(cfg, events) ==> AllArrive(cfg, events)) <==> |AllPicked(cfg)| <= 2
    ensures (forall events :: Complete(cfg, events) ==> EndsCleanly(cfg, events)) <==> |AllPicked(cfg)| == 1
  {
    hide Complete, AllArrive, EndsCleanly, Succeeds;
    PickedAreOffered(cfg, cfg.outgoing);
    FileTransfer.OfferedAll(cfg.Receiver(), AllPicked(cfg));
    AllArriveExactly(cfg);
    CleanInEveryRunExactly(cfg);
  }
}
