/** What the receive loop does to every message sequence, and what it makes of an honest stream. */
module FileTransfer {
  import opened Prelude
  import opened Packets
  import opened FileStream
  import Chunks

  // ----- A reference reading of the messages, without any loop state

  /** The file a message opens: a header with the right token for a listed file. */
  function Accepts(c: Context, m: Message): Option<string> {
    if m.Binary? then None
    else
      match c.json.decode(FileHeader, m.data)
      case Some(Header(id, token)) =>
        if id in c.tokens && c.tokens[id] == token && c.Listed(id) then Some(id) else None
      case _ => None
  }

  function LeadingBinaries(ms: seq<Message>): seq<seq<byte>> {
    if ms == [] || ms[0].Text? then [] else [ms[0].data] + LeadingBinaries(ms[1..])
  }

  /** Each accepted header with the run of binary messages right behind it. */
  function Runs(c: Context, ms: seq<Message>): seq<Received> {
    if ms == [] then []
    else
      (if Accepts(c, ms[0]).Some? then [Received(Accepts(c, ms[0]).value, LeadingBinaries(ms[1..]))] else [])
      + Runs(c, ms[1..])
  }

  /** The file the last text message opened. */
  function OpenAt(c: Context, ms: seq<Message>): Option<string> {
    if ms == [] then None
    else
      var m := ms[|ms| - 1];
      if m.Text? then Accepts(c, m) else OpenAt(c, ms[..|ms| - 1])
  }

  /** Binary messages whose last text before them opened no file. */
  function Orphans(c: Context, ms: seq<Message>): nat {
    if ms == [] then 0
    else
      var before := ms[..|ms| - 1];
      Orphans(c, before) + if ms[|ms| - 1].Binary? && OpenAt(c, before).None? then 1 else 0
  }

  function BinaryCount(ms: seq<Message>): nat {
    if ms == [] then 0 else BinaryCount(ms[..|ms| - 1]) + if ms[|ms| - 1].Binary? then 1 else 0
  }

  function PieceCount(files: seq<Received>): nat {
    if files == [] then 0 else PieceCount(files[..|files| - 1]) + |files[|files| - 1].pieces|
  }

  /** The error a header is rejected with. */
  function Rejection(c: Context, m: Message): seq<FileError> {
    if m.Binary? then []
    else
      match c.json.decode(FileHeader, m.data)
      case Some(Header(id, token)) =>
        if id !in c.tokens then [FileNotFound(id)]
        else if token != c.tokens[id] then [InvalidToken(id)]
        else if !c.Listed(id) then [SizeMissing(id)]
        else []
      case _ => []
  }

  /** Every error, in order: one for each rejected header and one for each orphaned binary. */
  function ErrorLog(c: Context, ms: seq<Message>): seq<FileError> {
    if ms == [] then []
    else
      var before, m := ms[..|ms| - 1], ms[|ms| - 1];
      ErrorLog(c, before) + if m.Binary? && OpenAt(c, before).None? then [WithoutHeader] else Rejection(c, m)
  }

  function AddPiece(files: seq<Received>, data: seq<byte>): seq<Received>
    requires files != []
  {
    var last := |files| - 1;
    files[last := files[last].(pieces := files[last].pieces + [data])]
  }

  lemma {:induction false} LeadingBinariesMore(ms: seq<Message>, m: Message)
    ensures LeadingBinaries(ms + [m])
            == if m.Binary? && (forall i :: 0 <= i < |ms| ==> ms[i].Binary?) then LeadingBinaries(ms) + [m.data]
               else LeadingBinaries(ms)
  {
    if ms == [] {
      assert ms + [m] == [m] && [m][1..] == [];
    } else {
      LeadingBinariesMore(ms[1..], m);
      assert (ms + [m])[1..] == ms[1..] + [m];
      assert ms == [ms[0]] + ms[1..];
    }
  }

  lemma {:induction false} OpenAtCons(c: Context, m: Message, ms: seq<Message>)
    ensures OpenAt(c, [m] + ms)
            == if forall i :: 0 <= i < |ms| ==> ms[i].Binary? then Accepts(c, m) else OpenAt(c, ms)
    decreases |ms|
  {
    var all := [m] + ms;
    if ms == [] {
      assert all == [m] && all[..0] == [];
    } else {
      assert all[..|all| - 1] == [m] + ms[..|ms| - 1];
      OpenAtCons(c, m, ms[..|ms| - 1]);
      assert ms == ms[..|ms| - 1] + [ms[|ms| - 1]];
    }
  }

  lemma {:induction false} OpenAtAllBinary(c: Context, ms: seq<Message>)
    requires forall i :: 0 <= i < |ms| ==> ms[i].Binary?
    ensures OpenAt(c, ms) == None
  {
    if ms != [] {
      OpenAtAllBinary(c, ms[..|ms| - 1]);
    }
  }

  ghost predicate AllBinary(ms: seq<Message>) {
    forall i :: 0 <= i < |ms| ==> ms[i].Binary?
  }

  /** An open file is the last one read. */
  lemma {:induction false} OpenIsLast(c: Context, ms: seq<Message>)
    requires OpenAt(c, ms).Some?
    ensures Runs(c, ms) != [] && Runs(c, ms)[|Runs(c, ms)| - 1].id == OpenAt(c, ms).value
  {
    var tail := ms[1..];
    OpenAtCons(c, ms[0], tail);
    assert ms == [ms[0]] + tail;
    if AllBinary(tail) {
      NoRuns(c, tail);
    } else {
      OpenIsLast(c, tail);
    }
  }

  /** The reading with one more message at its end. */
  function More(c: Context, runs: seq<Received>, isOpen: bool, m: Message): seq<Received> {
    if Accepts(c, m).Some? then runs + [Received(Accepts(c, m).value, [])]
    else if m.Binary? && isOpen && runs != [] then AddPiece(runs, m.data)
    else runs
  }

  /** The run a message begins, with `tail` behind it. */
  function Head(c: Context, m: Message, tail: seq<Message>): seq<Received> {
    if Accepts(c, m).Some? then [Received(Accepts(c, m).value, LeadingBinaries(tail))] else []
  }

  lemma RunsCons(c: Context, first: Message, tail: seq<Message>)
    ensures Runs(c, [first] + tail) == Head(c, first, tail) + Runs(c, tail)
  {
    assert ([first] + tail)[1..] == tail;
  }

  /** Behind a first message and binaries only. */
  lemma RunsMoreBinary(c: Context, first: Message, tail: seq<Message>, m: Message)
    requires AllBinary(tail) && Runs(c, tail + [m]) == More(c, Runs(c, tail), OpenAt(c, tail).Some?, m)
    ensures Head(c, first, tail + [m]) + Runs(c, tail + [m])
            == More(c, Head(c, first, tail), Accepts(c, first).Some?, m)
  {
    LeadingBinariesMore(tail, m);
    NoRuns(c, tail);
    OpenAtAllBinary(c, tail);
    hide LeadingBinaries, Runs, OpenAt, Accepts;
    assert Head(c, first, tail) + [] == Head(c, first, tail);
  }

  lemma RunsMoreText(c: Context, first: Message, tail: seq<Message>, m: Message)
    requires !AllBinary(tail) && Runs(c, tail + [m]) == More(c, Runs(c, tail), OpenAt(c, tail).Some?, m)
    ensures Head(c, first, tail + [m]) + Runs(c, tail + [m])
            == More(c, Head(c, first, tail) + Runs(c, tail), OpenAt(c, tail).Some?, m)
  {
    LeadingBinariesMore(tail, m);
    hide LeadingBinaries, Runs, OpenAt, Accepts, More;
    if OpenAt(c, tail).Some? {
      OpenIsLast(c, tail);
    }
    MoreAfterHead(c, Head(c, first, tail), Runs(c, tail), OpenAt(c, tail).Some?, m);
  }

  /** One more message extends the reading at its end only. */
  lemma {:induction false} RunsMore(c: Context, ms: seq<Message>, m: Message)
    ensures Runs(c, ms + [m]) == More(c, Runs(c, ms), OpenAt(c, ms).Some?, m)
  {
    if ms == [] {
      assert ms + [m] == [m] && [m][1..] == [];
    } else {
      var first, tail := ms[0], ms[1..];
      assert ms == [first] + tail && ms + [m] == [first] + (tail + [m]);
      RunsCons(c, first, tail);
      RunsCons(c, first, tail + [m]);
      OpenAtCons(c, first, tail);
      RunsMore(c, tail, m);
      hide Runs, More, OpenAt, Accepts, Head;
      if AllBinary(tail) {
        RunsMoreBinary(c, first, tail, m);
        NoRuns(c, tail);
        assert Head(c, first, tail) + [] == Head(c, first, tail);
      } else {
        RunsMoreText(c, first, tail, m);
      }
    }
  }

  lemma MoreAfterHead(c: Context, head: seq<Received>, runs: seq<Received>, isOpen: bool, m: Message)
    requires isOpen ==> runs != []
    ensures More(c, head + runs, isOpen, m) == head + More(c, runs, isOpen, m)
  {}

  lemma {:induction false} NoRuns(c: Context, ms: seq<Message>)
    requires forall i :: 0 <= i < |ms| ==> ms[i].Binary?
    ensures Runs(c, ms) == []
  {
    if ms != [] {
      NoRuns(c, ms[1..]);
    }
  }

  // ----- The loop agrees with that reading

  /** `seen` are the messages read so far. */
  ghost predicate Agrees(c: Context, results: seq<FileResult>, seen: seq<Message>, t: Transfer) {
    && t.results == results
    && t.files == Runs(c, seen)
    && (t.ending.Running? ==> t.open == OpenAt(c, seen))
    && (!t.ending.Running? ==> t.open.None?)
    && StatusesMatch(t)
    && t.errors == ErrorLog(c, seen)
    && PieceCount(t.files) + Orphans(c, seen) == BinaryCount(seen)
  }

  /** One status per closed file, in order, under its id, telling its result. */
  ghost predicate StatusesMatch(t: Transfer) {
    && |t.statuses| == |t.files| - (if t.open.Some? then 1 else 0)
    && forall i :: 0 <= i < |t.statuses| ==> Tells(t.statuses[i], t.files[i].id, t.results, i)
  }

  lemma AddPieceCount(files: seq<Received>, data: seq<byte>)
    requires files != []
    ensures PieceCount(AddPiece(files, data)) == PieceCount(files) + 1
  {
    var last := |files| - 1;
    assert AddPiece(files, data)[..last] == files[..last];
  }

  lemma BinaryAgrees(c: Context, results: seq<FileResult>, seen: seq<Message>, t: Transfer, data: seq<byte>)
    requires Agrees(c, results, seen, t) && t.ending.Running?
    ensures Agrees(c, results, seen + [Binary(data)], OnBinary(t, data))
  {
    var all := seen + [Binary(data)];
    RunsMore(c, seen, Binary(data));
    assert all[..|seen|] == seen;
    if t.open.Some? {
      OpenIsLast(c, seen);
      AddPieceCount(t.files, data);
      assert t.errors + [] == t.errors;
    }
  }

  lemma CloseAgrees(t: Transfer)
    requires (t.open.Some? ==> t.files != [] && t.files[|t.files| - 1].id == t.open.value) && StatusesMatch(t)
    ensures StatusesMatch(Close(t)) && Close(t) == t.(open := None, statuses := Close(t).statuses)
  {}

  /** A text that opens no file. */
  lemma TextOpensNothing(c: Context, results: seq<FileResult>, seen: seq<Message>, t: Transfer, m: Message,
                         next: Transfer)
    requires Agrees(c, results, seen, t) && t.ending.Running? && m.Text? && Accepts(c, m).None?
    requires next == Close(t).(errors := next.errors, ending := next.ending)
    requires next.errors == t.errors + Rejection(c, m)
    ensures Agrees(c, results, seen + [m], next)
  {
    RunsMore(c, seen, m);
    assert (seen + [m])[..|seen|] == seen;
    if t.open.Some? {
      OpenIsLast(c, seen);
    }
    CloseAgrees(t);
  }

  /** A text that opens a file. */
  lemma TextOpens(c: Context, results: seq<FileResult>, seen: seq<Message>, t: Transfer, m: Message, id: string)
    requires Agrees(c, results, seen, t) && t.ending.Running? && Accepts(c, m) == Some(id)
    ensures Agrees(c, results, seen + [m], Close(t).(open := Some(id), files := t.files + [Received(id, [])]))
  {
    RunsMore(c, seen, m);
    assert (seen + [m])[..|seen|] == seen;
    if t.open.Some? {
      OpenIsLast(c, seen);
    }
    CloseAgrees(t);
    assert t.errors + [] == t.errors;
    var more := t.files + [Received(id, [])];
    assert more[..|t.files|] == t.files;
    assert forall i :: 0 <= i < |t.files| ==> more[i] == t.files[i];
  }

  lemma TextOutcome(c: Context, t: Transfer, m: Message)
    requires c.json.Lawful() && t.ending.Running? && m.Text?
    ensures var next := OnMessage(c, t, m);
            match Accepts(c, m)
            case Some(id) => next == Close(t).(open := Some(id), files := t.files + [Received(id, [])])
            case None =>
              && next == Close(t).(errors := next.errors, ending := next.ending)
              && next.errors == t.errors + Rejection(c, m)
  {
    assert t.errors + [] == t.errors;
  }

  lemma TextAgrees(c: Context, results: seq<FileResult>, seen: seq<Message>, t: Transfer, m: Message)
    requires c.json.Lawful() && Agrees(c, results, seen, t) && t.ending.Running? && m.Text?
    ensures Agrees(c, results, seen + [m], OnMessage(c, t, m))
  {
    TextOutcome(c, t, m);
    if Accepts(c, m).Some? {
      TextOpens(c, results, seen, t, m, Accepts(c, m).value);
    } else {
      TextOpensNothing(c, results, seen, t, m, OnMessage(c, t, m));
    }
  }

  lemma StepAgrees(c: Context, results: seq<FileResult>, seen: seq<Message>, t: Transfer, m: Message)
    requires c.json.Lawful() && Agrees(c, results, seen, t) && t.ending.Running?
    ensures Agrees(c, results, seen + [m], OnMessage(c, t, m))
  {
    match m {
      case Binary(data) => BinaryAgrees(c, results, seen, t, data);
      case Text(_) => TextAgrees(c, results, seen, t, m);
    }
  }

  lemma OneMoreRead(seen: seq<Message>, ms: seq<Message>, n: nat)
    requires n < |ms|
    ensures seen + [ms[0]] + ms[1..][..n] == seen + ms[..n + 1]
  {
    assert ms[..n + 1] == [ms[0]] + ms[1..][..n];
  }

  lemma {:induction false} RunAgrees(c: Context, results: seq<FileResult>, seen: seq<Message>, t: Transfer,
                                     ms: seq<Message>, read: seq<Message>, r: Transfer)
    requires c.json.Lawful() && Agrees(c, results, seen, t)
    requires read == seen + ms[..Consumed(c, t, ms)] && r == Receive(c, t, ms)
    ensures Agrees(c, results, read, r)
    decreases |ms|
  {
    if ms == [] || !t.ending.Running? {
      assert seen + ms[..0] == seen;
    } else {
      hide Agrees, OnMessage;
      var next, tail := OnMessage(c, t, ms[0]), ms[1..];
      StepAgrees(c, results, seen, t, ms[0]);
      assert ms == [ms[0]] + tail;
      ReceiveOne(c, t, ms[0], tail);
      OneMoreRead(seen, ms, Consumed(c, next, tail));
      hide Receive, Consumed;
      RunAgrees(c, results, seen + [ms[0]], next, tail, read, r);
    }
  }

  /** For every message sequence, honest or not: the published files are the accepted headers with
      exactly the binary messages behind them, the errors are one for each rejected header and one
      for each other binary message, in order, and each closed file has one status under its id. */
  lemma EveryMessageAccountedFor(c: Context, results: seq<FileResult>, ms: seq<Message>)
    requires c.json.Lawful()
    ensures Agrees(c, results, ms[..Consumed(c, Begin(results), ms)], Receive(c, Begin(results), ms))
  {
    var read := ms[..Consumed(c, Begin(results), ms)];
    assert [] + read == read;
    RunAgrees(c, results, [], Begin(results), ms, read, Receive(c, Begin(results), ms));
  }

  /** What a header must be for its file to be published, and what else it is rejected for: the token
      given for its id, and an entry of the sender's list with that id. */
  lemma HeaderExactly(c: Context, m: Message, id: string, token: string)
    requires m.Text? && c.json.decode(FileHeader, m.data) == Some(Header(id, token))
    ensures Accepts(c, m) == Some(id) <==>
              id in c.tokens && c.tokens[id] == token && exists i :: 0 <= i < |c.list| && c.list[i].id == id
    ensures Rejection(c, m) == [FileNotFound(id)] <==> id !in c.tokens
    ensures Rejection(c, m) == [InvalidToken(id)] <==> id in c.tokens && c.tokens[id] != token
    ensures Rejection(c, m) == [SizeMissing(id)] <==>
              id in c.tokens && c.tokens[id] == token && forall i :: 0 <= i < |c.list| ==> c.list[i].id != id
    ensures Rejection(c, m) == [] <==> Accepts(c, m) == Some(id)
  {}

  /** Each published file comes from a header with its token, for a listed id, and holds the binary
      messages up to the next text: nothing sent behind another header reaches it. */
  lemma {:induction false} PublishedFromHeader(c: Context, ms: seq<Message>, i: nat) returns (j: nat)
    requires i < |Runs(c, ms)|
    ensures j < |ms| && Accepts(c, ms[j]) == Some(Runs(c, ms)[i].id)
    ensures Runs(c, ms)[i].pieces == LeadingBinaries(ms[j + 1..])
  {
    if Accepts(c, ms[0]).Some? && i == 0 {
      j := 0;
    } else {
      j := PublishedFromHeader(c, ms[1..], if Accepts(c, ms[0]).Some? then i - 1 else i);
      assert ms[1..][j + 1..] == ms[j + 2..];
      j := j + 1;
    }
  }

  // ----- Honest streams

  lemma {:induction false} ReceiveAppend(c: Context, t: Transfer, a: seq<Message>, b: seq<Message>)
    ensures Receive(c, t, a + b) == Receive(c, Receive(c, t, a), b)
    ensures Receive(c, t, a).ending.Running? ==> Consumed(c, t, a + b) == |a| + Consumed(c, Receive(c, t, a), b)
    decreases |a|
  {
    if a == [] {
      assert a + b == b;
    } else if t.ending.Running? {
      ReceiveAppend(c, OnMessage(c, t, a[0]), a[1..], b);
      assert (a + b)[1..] == a[1..] + b;
    }
  }

  lemma {:induction false} ReceiveBinaries(c: Context, t: Transfer, pieces: seq<seq<byte>>)
    requires t.ending.Running? && (t.open.Some? ==> t.files != [])
    ensures var r := Receive(c, t, Binaries(pieces));
            && r.ending.Running? && r.open == t.open
            && (t.open.None? ==> r.files == t.files)
            && (t.open.Some? ==>
                  var last := |t.files| - 1;
                  r == t.(files := t.files[last := t.files[last].(pieces := t.files[last].pieces + pieces)]))
    decreases |pieces|
  {
    if pieces == [] {
      if t.open.Some? {
        var last := |t.files| - 1;
        assert t.files[last].pieces + [] == t.files[last].pieces;
        assert t.files[last := t.files[last]] == t.files;
      }
    } else {
      var next := OnBinary(t, pieces[0]);
      assert Binaries(pieces)[1..] == Binaries(pieces[1..]);
      ReceiveBinaries(c, next, pieces[1..]);
      if t.open.Some? {
        var last := |t.files| - 1;
        assert t.files[last].pieces + [pieces[0]] + pieces[1..] == t.files[last].pieces + pieces;
      }
    }
  }

  function Delivered(file: Outgoing): Received {
    Received(file.id, Chunks.Split(file.Content(), Chunks.CHUNK_SIZE))
  }

  function AllDelivered(files: seq<Outgoing>): (all: seq<Received>)
    ensures |all| == |files|
    ensures forall i :: 0 <= i < |files| ==> all[i] == Delivered(files[i])
  {
    seq(|files|, i requires 0 <= i < |files| => Delivered(files[i]))
  }

  /** The header of a file opens it if it is listed. */
  lemma ReceiveHeader(c: Context, t: Transfer, file: Outgoing)
    requires c.json.Lawful() && file.id in c.tokens && t.ending.Running?
    ensures var r := OnMessage(c, t, c.json.Text(Header(file.id, c.tokens[file.id])));
            && r.ending.Running?
            && r.open == (if c.Listed(file.id) then Some(file.id) else None)
            && r.files == t.files + (if c.Listed(file.id) then [Received(file.id, [])] else [])
            && (c.Listed(file.id) ==> r.errors == t.errors)
  {
    var header := Header(file.id, c.tokens[file.id]);
    assert c.json.decode(header.Kind(), c.json.encode(header)) == Some(header);
    assert t.files + [] == t.files;
  }

  lemma ReceiveFile(c: Context, t: Transfer, file: Outgoing)
    requires c.json.Lawful() && file.id in c.tokens && t.ending.Running?
    ensures var r := Receive(c, t, FileMessages(c.json, c.tokens, file));
            Streamed(c, t, [file], r)
  {
    hide OnMessage;
    ReceiveHeader(c, t, file);
    var pieces := Chunks.Split(file.Content(), Chunks.CHUNK_SIZE);
    var ms := FileMessages(c.json, c.tokens, file);
    assert ms[1..] == Binaries(pieces);
    var started := OnMessage(c, t, ms[0]);
    ReceiveBinaries(c, started, pieces);
    assert [] + pieces == pieces;
    assert [file][1..] == [] && [file][0] == file;
    assert AllDelivered(Offered(c, [file])) == if c.Listed(file.id) then [Delivered(file)] else [];
    assert t.files + [] == t.files;
  }

  ghost predicate AllListed(c: Context, sent: seq<Outgoing>) {
    forall i :: 0 <= i < |sent| ==> c.Listed(sent[i].id)
  }

  /** The files that are in the receiver's list. */
  function Offered(c: Context, sent: seq<Outgoing>): seq<Outgoing> {
    if sent == [] then [] else (if c.Listed(sent[0].id) then [sent[0]] else []) + Offered(c, sent[1..])
  }

  lemma {:induction false} OfferedAll(c: Context, sent: seq<Outgoing>)
    ensures AllListed(c, sent) ==> Offered(c, sent) == sent
    ensures |Offered(c, sent)| <= |sent|
  {
    if sent != [] {
      OfferedAll(c, sent[1..]);
      assert sent == [sent[0]] + sent[1..];
      if AllListed(c, sent) {
        ListedCons(c, sent[0], sent[1..]);
      }
    }
  }

  lemma AllDeliveredAppend(a: seq<Outgoing>, b: seq<Outgoing>)
    ensures AllDelivered(a + b) == AllDelivered(a) + AllDelivered(b)
  {}

  /** After a stream the listed files have arrived, and the last file is open if it is listed. */
  ghost predicate Streamed(c: Context, t: Transfer, sent: seq<Outgoing>, r: Transfer) {
    && r.ending.Running?
    && r.open == (if sent == [] then t.open
                  else if c.Listed(sent[|sent| - 1].id) then Some(sent[|sent| - 1].id) else None)
    && r.files == t.files + AllDelivered(Offered(c, sent))
    && (AllListed(c, sent) ==> r.errors == t.errors)
  }

  lemma StreamedCons(c: Context, t: Transfer, file: Outgoing, u: Transfer, sent: seq<Outgoing>, r: Transfer)
    requires Streamed(c, t, [file], u) && Streamed(c, u, sent, r)
    ensures Streamed(c, t, [file] + sent, r)
  {
    var all := [file] + sent;
    assert all[1..] == sent && [file][1..] == [] && all[0] == [file][0] == file;
    assert if sent == [] then all == [file] else all[|all| - 1] == sent[|sent| - 1];
    var first := Offered(c, [file]);
    assert first == (if c.Listed(file.id) then [file] else []) + Offered(c, []);
    assert first == if c.Listed(file.id) then [file] else [];
    assert Offered(c, all) == first + Offered(c, sent);
    AllDeliveredAppend(first, Offered(c, sent));
    Associative(t.files, AllDelivered(first), AllDelivered(Offered(c, sent)));
    if AllListed(c, all) {
      ListedCons(c, file, sent);
    }
  }

  lemma ListedCons(c: Context, file: Outgoing, sent: seq<Outgoing>)
    requires AllListed(c, [file] + sent)
    ensures AllListed(c, [file]) && AllListed(c, sent)
  {
    var all := [file] + sent;
    assert all[0] == file;
    forall i | 0 <= i < |sent| ensures c.Listed(sent[i].id) {
      assert all[i + 1] == sent[i];
    }
  }

  lemma {:induction false} ReceiveStream(c: Context, t: Transfer, files: seq<Outgoing>)
    requires c.json.Lawful() && t.ending.Running?
    ensures Streamed(c, t, Sent(c.tokens, files), Receive(c, t, Stream(c.json, c.tokens, files)))
    decreases |files|
  {
    if files == [] {
      assert t.files + [] == t.files;
    } else {
      var rest := Stream(c.json, c.tokens, files[1..]);
      if files[0].id in c.tokens {
        var ms := FileMessages(c.json, c.tokens, files[0]);
        var u := Receive(c, t, ms);
        ReceiveFile(c, t, files[0]);
        ReceiveAppend(c, t, ms, rest);
        ReceiveStream(c, u, files[1..]);
        StreamedCons(c, t, files[0], u, Sent(c.tokens, files[1..]), Receive(c, u, rest));
      } else {
        ReceiveStream(c, t, files[1..]);
        assert [] + rest == rest && [] + Sent(c.tokens, files[1..]) == Sent(c.tokens, files[1..]);
      }
    }
  }

  lemma StreamEnd(c: Context, files: seq<Outgoing>, results: seq<FileResult>, behind: seq<Message>)
    returns (r: Transfer, t: Transfer)
    requires c.json.Lawful()
    ensures var ms := Stream(c.json, c.tokens, files) + [DELIMITER] + behind;
            && Streamed(c, Begin(results), Sent(c.tokens, files), r) && t == OnMessage(c, r, DELIMITER)
            && t == Receive(c, Begin(results), ms) && !t.ending.Running?
            && Consumed(c, Begin(results), ms) == |ms| - |behind|
  {
    var stream := Stream(c.json, c.tokens, files);
    ReceiveStream(c, Begin(results), files);
    r := Receive(c, Begin(results), stream);
    t := OnMessage(c, r, DELIMITER);
    var tail := [DELIMITER] + behind;
    assert stream + [DELIMITER] + behind == stream + tail;
    ReceiveAppend(c, Begin(results), stream, tail);
    assert tail[1..] == behind;
    assert Receive(c, r, tail) == Receive(c, t, behind) == t;
  }

  /** The loop recognises the end of the stream exactly when its last file was accepted; otherwise
      it takes the delimiter for a header and fails. */
  lemma EndsCleanlyExactly(c: Context, files: seq<Outgoing>, results: seq<FileResult>, behind: seq<Message>)
    requires c.json.Lawful()
    ensures var sent := Sent(c.tokens, files);
            Receive(c, Begin(results), Stream(c.json, c.tokens, files) + [DELIMITER] + behind).ending
            == if sent != [] && c.Listed(sent[|sent| - 1].id) then Finished else HeaderUnparsed
  {
    var _, _ := StreamEnd(c, files, results, behind);
  }

  lemma StreamArrives(c: Context, files: seq<Outgoing>, results: seq<FileResult>, behind: seq<Message>)
    requires c.json.Lawful()
    ensures var ms := Stream(c.json, c.tokens, files) + [DELIMITER] + behind;
            var t := Receive(c, Begin(results), ms);
            && !t.ending.Running? && t.open.None? && Consumed(c, Begin(results), ms) == |ms| - |behind|
            && (AllListed(c, Sent(c.tokens, files)) ==> t.errors == [])
            && t.files == AllDelivered(Offered(c, Sent(c.tokens, files))) && StatusesMatch(t) && t.results == results
  {
    hide OnMessage, Receive, Consumed, Stream, Sent, Offered, AllDelivered;
    var ms, sent := Stream(c.json, c.tokens, files) + [DELIMITER] + behind, Sent(c.tokens, files);
    var r, t := StreamEnd(c, files, results, behind);
    DelimiterErrors(c, r);
    assert [] + AllDelivered(Offered(c, sent)) == AllDelivered(Offered(c, sent));
    EveryMessageAccountedFor(c, results, ms);
  }

  /** Any selected files arrive as far as they are listed: the same ids in the same order, each with
      exactly its content, one status per file under its id; the loop stops at the delimiter. */
  lemma StreamRoundTrip(c: Context, files: seq<Outgoing>, results: seq<FileResult>, behind: seq<Message>)
    requires c.json.Lawful()
    ensures var ms := Stream(c.json, c.tokens, files) + [DELIMITER] + behind;
            var t, sent := Receive(c, Begin(results), ms), Offered(c, Sent(c.tokens, files));
            && !t.ending.Running? && Consumed(c, Begin(results), ms) == |ms| - |behind|
            && (AllListed(c, Sent(c.tokens, files)) ==> t.errors == [])
            && |t.files| == |t.statuses| == |sent|
            && forall i :: 0 <= i < |sent| ==>
                 && t.files[i] == Delivered(sent[i])
                 && Flatten(t.files[i].pieces) == sent[i].Content()
                 && Tells(t.statuses[i], sent[i].id, results, i)
  {
    StreamArrives(c, files, results, behind);
    hide Receive, Consumed, Stream, Sent, Offered;
    forall file: Outgoing ensures Flatten(Delivered(file).pieces) == file.Content() {
      Chunks.SplitIsSplit(file.Content(), Chunks.CHUNK_SIZE);
    }
  }

  lemma DelimiterErrors(c: Context, r: Transfer)
    requires c.json.Lawful()
    ensures OnMessage(c, r, DELIMITER).errors == r.errors && OnMessage(c, r, DELIMITER).files == r.files
  {}

  /** End to end: however the sending application cut a file, the receiving application gets the
      1 MiB split of its content. */
  lemma ApplicationGetsContent(c: Context, files: seq<Outgoing>, results: seq<FileResult>, behind: seq<Message>, i: nat)
    requires c.json.Lawful() && i < |Offered(c, Sent(c.tokens, files))|
    ensures var t := Receive(c, Begin(results), Stream(c.json, c.tokens, files) + [DELIMITER] + behind);
            && i < |t.files|
            && Chunks.Rebuffer(t.files[i].pieces)
               == Chunks.Split(Offered(c, Sent(c.tokens, files))[i].Content(), Chunks.BUFFER_SIZE)
  {
    StreamRoundTrip(c, files, results, behind);
    Chunks.RebufferedChunks(Offered(c, Sent(c.tokens, files))[i].Content());
  }

  // ----- The first part of a stream

  /** A closed file does not change any more. */
  lemma {:induction false} ClosedStay(c: Context, t: Transfer, ms: seq<Message>, k: nat)
    requires k <= |t.files| && (t.open.Some? ==> k < |t.files|)
    ensures |Receive(c, t, ms).files| >= k && Receive(c, t, ms).files[..k] == t.files[..k]
    decreases |ms|
  {
    if ms != [] && t.ending.Running? {
      ClosedStay(c, OnMessage(c, t, ms[0]), ms[1..], k);
    }
  }

  lemma {:induction false} ErrorsGrow(c: Context, t: Transfer, ms: seq<Message>)
    ensures t.errors <= Receive(c, t, ms).errors
    decreases |ms|
  {
    if ms != [] && t.ending.Running? {
      ErrorsGrow(c, OnMessage(c, t, ms[0]), ms[1..]);
    }
  }
}
