/** The header, binary and delimiter stream of the selected files, and the loop that receives it. */
module FileStream {
  import opened Prelude
  import opened Packets
  import Chunks

  // ----- The sending end

  /** A file handed to `send_file`: its id and its content in the pieces the application supplied. */
  datatype Outgoing = Outgoing(id: string, pieces: seq<seq<byte>>) {
    function Content(): seq<byte> {
      Flatten(pieces)
    }
  }

  type FileTokens = map<string, string>

  function FileMessages(json: Json, tokens: FileTokens, file: Outgoing): (ms: seq<Message>)
    requires file.id in tokens
    ensures ms != []
  {
    [json.Text(Header(file.id, tokens[file.id]))] + Binaries(Chunks.Split(file.Content(), Chunks.CHUNK_SIZE))
  }

  /** Files without a token are skipped. */
  function Stream(json: Json, tokens: FileTokens, files: seq<Outgoing>): seq<Message> {
    if files == [] then []
    else (if files[0].id in tokens then FileMessages(json, tokens, files[0]) else []) + Stream(json, tokens, files[1..])
  }

  function Sent(tokens: FileTokens, files: seq<Outgoing>): (sent: seq<Outgoing>)
    ensures forall i :: 0 <= i < |sent| ==> sent[i].id in tokens
  {
    if files == [] then []
    else (if files[0].id in tokens then [files[0]] else []) + Sent(tokens, files[1..])
  }

  /** What is reported of a file that was not sent, or not whole. */
  datatype SendError = NoToken(id: string) | NotSent(id: string)

  /** The errors if the channel takes `sendable` messages before it is closed: a file without a token,
      or one whose last message is not among them. */
  function SendErrors(json: Json, tokens: FileTokens, files: seq<Outgoing>, sendable: nat): seq<SendError> {
    if files == [] then []
    else
      var last := files[|files| - 1];
      SendErrors(json, tokens, files[..|files| - 1], sendable)
      + if last.id !in tokens then [NoToken(last.id)]
        else if |Stream(json, tokens, files)| > sendable then [NotSent(last.id)]
        else []
  }

  /** The number of messages up to the last one of the `i`-th file. */
  function SentTo(json: Json, tokens: FileTokens, files: seq<Outgoing>, i: nat): nat
    requires i < |files|
  {
    |Stream(json, tokens, files[..i + 1])|
  }

  /** The file has no token, or its last message is not sent. */
  predicate Missed(json: Json, tokens: FileTokens, files: seq<Outgoing>, sendable: nat, i: nat)
    requires i < |files|
  {
    files[i].id !in tokens || SentTo(json, tokens, files, i) > sendable
  }

  /** The files reported are, once and in order, those that were missed. */
  ghost predicate ErrorsAt(json: Json, tokens: FileTokens, files: seq<Outgoing>, sendable: nat,
                           errors: seq<SendError>, at: seq<nat>)
  {
    && |at| == |errors|
    && (forall j, k :: 0 <= j < k < |at| ==> at[j] < at[k])
    && (forall j :: 0 <= j < |at| ==>
          && at[j] < |files|
          && errors[j] == if files[at[j]].id in tokens then NotSent(files[at[j]].id) else NoToken(files[at[j]].id))
    && (forall i :: 0 <= i < |files| ==> (i in at <==> Missed(json, tokens, files, sendable, i)))
  }

  lemma MissedBefore(json: Json, tokens: FileTokens, files: seq<Outgoing>, sendable: nat, i: nat)
    requires i < |files| - 1
    ensures Missed(json, tokens, files[..|files| - 1], sendable, i) == Missed(json, tokens, files, sendable, i)
  {
    assert files[..|files| - 1][..i + 1] == files[..i + 1];
  }

  lemma {:induction false} SendErrorsExactly(json: Json, tokens: FileTokens, files: seq<Outgoing>, sendable: nat)
    returns (at: seq<nat>)
    ensures ErrorsAt(json, tokens, files, sendable, SendErrors(json, tokens, files, sendable), at)
  {
    if files == [] {
      at := [];
    } else {
      var n := |files| - 1;
      at := SendErrorsExactly(json, tokens, files[..n], sendable);
      var errors := SendErrors(json, tokens, files[..n], sendable);
      forall i: nat | i < n
        ensures Missed(json, tokens, files[..n], sendable, i) == Missed(json, tokens, files, sendable, i)
      {
        MissedBefore(json, tokens, files, sendable, i);
      }
      assert files[..n + 1] == files;
      assert errors + [] == errors;
      LastError(json, tokens, files, sendable);
      hide Missed, SendErrors;
      if Missed(json, tokens, files, sendable, n) {
        at := at + [n];
      }
    }
  }

  lemma LastError(json: Json, tokens: FileTokens, files: seq<Outgoing>, sendable: nat)
    requires files != []
    ensures var n := |files| - 1;
            SendErrors(json, tokens, files, sendable)
            == SendErrors(json, tokens, files[..n], sendable)
               + if !Missed(json, tokens, files, sendable, n) then []
                 else [if files[n].id in tokens then NotSent(files[n].id) else NoToken(files[n].id)]
  {
    assert files[..|files| - 1 + 1] == files;
  }

  function FirstOf(ms: seq<Message>, n: nat): seq<Message> {
    if n < |ms| then ms[..n] else ms
  }

  lemma FirstOfAppend(a: seq<Message>, b: seq<Message>, n: nat)
    ensures FirstOf(a + b, n) == FirstOf(a, n) + FirstOf(b, if |a| <= n then n - |a| else 0)
  {}

  lemma {:induction false} StreamMore(json: Json, tokens: FileTokens, files: seq<Outgoing>, file: Outgoing)
    ensures Stream(json, tokens, files + [file])
            == Stream(json, tokens, files) + if file.id in tokens then FileMessages(json, tokens, file) else []
  {
    hide FileMessages;
    var more := if file.id in tokens then FileMessages(json, tokens, file) else [];
    if files == [] {
      assert (files + [file])[1..] == [];
      assert [] + more == more && more + [] == more;
    } else {
      assert (files + [file])[1..] == files[1..] + [file];
      StreamMore(json, tokens, files[1..], file);
      Associative(if files[0].id in tokens then FileMessages(json, tokens, files[0]) else [],
                  Stream(json, tokens, files[1..]), more);
    }
  }

  /** The sending loop, the closing delimiter and the wait for one message of any kind, over a channel
      that takes `sendable` messages before it is closed. Without the delimiter there is no wait. */
  method SendFiles(json: Json, tokens: FileTokens, files: seq<Outgoing>, channel: DataChannel, sendable: nat)
    returns (errors: seq<SendError>, done: bool)
    modifies channel
    ensures channel.sent == old(channel.sent) + FirstOf(Stream(json, tokens, files) + [DELIMITER], sendable)
    ensures done <==> |Stream(json, tokens, files)| < sendable
    ensures channel.pending == if !done || old(channel.pending) == [] then old(channel.pending)
            else old(channel.pending)[1..]
    ensures errors == SendErrors(json, tokens, files, sendable)
  {
    assert files[..0] == [] && Stream(json, tokens, files[..0]) == [];
    hide Stream, FileMessages;
    errors := [];
    var room := sendable;
    for i := 0 to |files|
      invariant channel.pending == old(channel.pending)
      invariant channel.sent == old(channel.sent) + FirstOf(Stream(json, tokens, files[..i]), sendable)
      invariant room == Room(|Stream(json, tokens, files[..i])|, sendable)
      invariant errors == SendErrors(json, tokens, files[..i], sendable)
    {
      assert files[..i + 1] == files[..i] + [files[i]] && files[..i + 1][..i] == files[..i];
      StreamMore(json, tokens, files[..i], files[i]);
      ghost var before := Stream(json, tokens, files[..i]);
      if files[i].id in tokens {
        FirstOfAppend(before, FileMessages(json, tokens, files[i]), sendable);
        Associative(old(channel.sent), FirstOf(before, sendable), FirstOf(FileMessages(json, tokens, files[i]), room));
        var whole;
        whole, room := SendFile(json, tokens, files[i], channel, room);
        if !whole {
          errors := errors + [NotSent(files[i].id)];
        }
      } else {
        errors := errors + [NoToken(files[i].id)];
        assert before + [] == before;
      }
      assert errors == SendErrors(json, tokens, files[..i + 1], sendable);
    }
    assert files[..|files|] == files;
    FirstOfAppend(Stream(json, tokens, files), [DELIMITER], sendable);
    Associative(old(channel.sent), FirstOf(Stream(json, tokens, files), sendable), FirstOf([DELIMITER], room));
    done := room > 0;
    if done {
      channel.Send(DELIMITER);
      var _ := channel.Receive();
    }
  }

  function Room(used: nat, sendable: nat): nat {
    if used <= sendable then sendable - used else 0
  }

  /** The header and the chunks, as far as they go; `left` more messages can be sent then. */
  method SendFile(json: Json, tokens: FileTokens, file: Outgoing, channel: DataChannel, room: nat)
    returns (whole: bool, left: nat)
    requires file.id in tokens
    modifies channel`sent
    ensures channel.sent == old(channel.sent) + FirstOf(FileMessages(json, tokens, file), room)
    ensures whole <==> |FileMessages(json, tokens, file)| <= room
    ensures left == Room(|FileMessages(json, tokens, file)|, room)
  {
    if room == 0 {
      return false, 0;
    }
    channel.Send(json.Text(Header(file.id, tokens[file.id])));
    left := room - 1;
    var chunks := Chunks.ProcessInChunks(file.pieces);
    ghost var ms := FileMessages(json, tokens, file);
    for j := 0 to |chunks|
      invariant j < room && left == room - 1 - j
      invariant channel.sent == old(channel.sent) + ms[..j + 1]
    {
      if left == 0 {
        return false, 0;
      }
      assert ms[..j + 2] == ms[..j + 1] + [Binary(chunks[j])];
      channel.Send(Binary(chunks[j]));
      left := left - 1;
    }
    assert ms[..|chunks| + 1] == ms;
    whole := true;
  }

  // ----- The receiving end

  /** A published file and what reached its binary channel. */
  datatype Received = Received(id: string, pieces: seq<seq<byte>>)

  datatype FileError = InvalidToken(id: string) | FileNotFound(id: string) | SizeMissing(id: string) | WithoutHeader

  /** What the application reports for a file. */
  datatype FileResult = FileResult(success: bool, error: Option<string>)

  datatype Ending = Running | Finished | HeaderUnparsed

  /** `open` is the file that binary messages go to, the last one published. */
  datatype Transfer = Transfer(
    open: Option<string>, files: seq<Received>, statuses: seq<Packet>, errors: seq<FileError>,
    results: seq<FileResult>, ending: Ending)

  /** A status tells the `k`-th result under this id: a success without an error, and otherwise the
      application's words, or that it gave none, or that no result came. */
  ghost predicate Tells(p: Packet, id: string, results: seq<FileResult>, k: nat) {
    && p.FileStatus? && p.id == id
    && (p.success <==> k < |results| && results[k].success)
    && (p.error.None? <==> p.success)
    && (k >= |results| ==> p.error == Some("Failed to receive file result"))
    && (k < |results| && !p.success && results[k].error.Some? ==> p.error == results[k].error)
    && (k < |results| && !p.success && results[k].error.None? ==> p.error == Some("Unknown error"))
  }

  /** The status of a closed file from the application's next result, if one comes. */
  function StatusOf(id: string, results: seq<FileResult>, k: nat): (p: Packet)
    ensures Tells(p, id, results, k)
  {
    if k >= |results| then FileStatus(id, false, Some("Failed to receive file result"))
    else if results[k].success then FileStatus(id, true, None)
    else FileStatus(id, false, Some(if results[k].error.Some? then results[k].error.value else "Unknown error"))
  }

  predicate InList(list: seq<FileDto>, id: string) {
    exists i :: 0 <= i < |list| && list[i].id == id
  }

  datatype Context = Context(json: Json, tokens: FileTokens, list: seq<FileDto>) {
    predicate Listed(id: string) {
      InList(list, id)
    }
  }

  /** A text closes the open file. */
  predicate Closes(t: Transfer, m: Message) {
    m.Text? && t.open.Some?
  }

  function NextStatus(t: Transfer): Packet
    requires t.open.Some?
  {
    StatusOf(t.open.value, t.results, |t.statuses|)
  }

  function Close(t: Transfer): Transfer {
    if t.open.None? then t else t.(open := None, statuses := t.statuses + [NextStatus(t)])
  }

  function OnHeader(c: Context, t: Transfer, data: seq<byte>): Transfer {
    match c.json.decode(FileHeader, data)
    case Some(Header(id, token)) =>
      if id !in c.tokens then t.(errors := t.errors + [FileNotFound(id)])
      else if token != c.tokens[id] then t.(errors := t.errors + [InvalidToken(id)])
      else if !c.Listed(id) then t.(errors := t.errors + [SizeMissing(id)])
      else t.(open := Some(id), files := t.files + [Received(id, [])])
    case _ => t.(ending := HeaderUnparsed)
  }

  function OnBinary(t: Transfer, data: seq<byte>): Transfer {
    if t.open.None? || t.files == [] then t.(errors := t.errors + [WithoutHeader])
    else
      var last := |t.files| - 1;
      t.(files := t.files[last := t.files[last].(pieces := t.files[last].pieces + [data])])
  }

  /** The delimiter ends the transfer only when it closes a file. */
  function OnMessage(c: Context, t: Transfer, m: Message): Transfer {
    match m
    case Binary(data) => OnBinary(t, data)
    case Text(data) =>
      if t.open.Some? && IsDelimiter(m) then Close(t).(ending := Finished)
      else OnHeader(c, Close(t), data)
  }

  lemma StatusesGrow(c: Context, t: Transfer, m: Message)
    ensures OnMessage(c, t, m).results == t.results
    ensures OnMessage(c, t, m).statuses == t.statuses + if Closes(t, m) then [NextStatus(t)] else []
  {}

  function Begin(results: seq<FileResult>): Transfer {
    Transfer(None, [], [], [], results, Running)
  }

  function Receive(c: Context, t: Transfer, ms: seq<Message>): Transfer
    decreases |ms|
  {
    if ms == [] || !t.ending.Running? then t else Receive(c, OnMessage(c, t, ms[0]), ms[1..])
  }

  /** How many messages the loop reads. */
  function Consumed(c: Context, t: Transfer, ms: seq<Message>): (n: nat)
    ensures n <= |ms|
    decreases |ms|
  {
    if ms == [] || !t.ending.Running? then 0 else 1 + Consumed(c, OnMessage(c, t, ms[0]), ms[1..])
  }

  lemma ReceiveOne(c: Context, t: Transfer, m: Message, rest: seq<Message>)
    requires t.ending.Running?
    ensures var ms, next := [m] + rest, OnMessage(c, t, m);
            && Receive(c, t, ms) == Receive(c, next, rest)
            && Consumed(c, t, ms) == 1 + Consumed(c, next, rest)
            && ms[Consumed(c, t, ms)..] == rest[Consumed(c, next, rest)..]
  {
    assert ([m] + rest)[1..] == rest;
  }

  lemma {:induction false} StatusesKept(c: Context, t: Transfer, ms: seq<Message>)
    ensures t.statuses <= Receive(c, t, ms).statuses
    decreases |ms|
  {
    if ms != [] && t.ending.Running? {
      StatusesGrow(c, t, ms[0]);
      StatusesKept(c, OnMessage(c, t, ms[0]), ms[1..]);
    }
  }

  /** The loop over a channel that takes `sendable` statuses before it is closed: whether it was cut
      off by a status it could not send, how many messages it read, and what it made of them. */
  datatype Reception = Reception(transfer: Transfer, cut: bool, read: nat)

  function ReceiveWhile(c: Context, t: Transfer, ms: seq<Message>, sendable: nat): (r: Reception)
    ensures r.read <= |ms|
    decreases |ms|
  {
    if ms == [] || !t.ending.Running? then Reception(t, false, 0)
    else if Closes(t, ms[0]) && |t.statuses| >= sendable then Reception(t.(open := None), true, 1)
    else
      var r := ReceiveWhile(c, OnMessage(c, t, ms[0]), ms[1..], sendable);
      r.(read := 1 + r.read)
  }

  /** The loop is cut off exactly when it would send more statuses than it can, namely at the text that
      closes the file whose status is the first too many; otherwise nothing is different. */
  lemma {:induction false} CutExactly(c: Context, t: Transfer, ms: seq<Message>, sendable: nat)
    requires |t.statuses| <= sendable
    ensures var r, all := ReceiveWhile(c, t, ms, sendable), Receive(c, t, ms);
            && (r.cut <==> |all.statuses| > sendable)
            && (!r.cut ==> r.transfer == all && r.read == Consumed(c, t, ms))
            && (r.cut ==>
                  && r.read > 0 && Closes(Receive(c, t, ms[..r.read - 1]), ms[r.read - 1])
                  && r.transfer == Receive(c, t, ms[..r.read - 1]).(open := None)
                  && |r.transfer.statuses| == sendable)
    decreases |ms|
  {
    hide OnMessage, Closes;
    if ms != [] && t.ending.Running? {
      var next := OnMessage(c, t, ms[0]);
      StatusesGrow(c, t, ms[0]);
      StatusesKept(c, next, ms[1..]);
      if Closes(t, ms[0]) && |t.statuses| == sendable {
        assert ms[..0] == [];
      } else {
        CutExactly(c, next, ms[1..], sendable);
        var n := ReceiveWhile(c, next, ms[1..], sendable).read;
        if n > 0 {
          assert ms[..n][0] == ms[0] && ms[..n][1..] == ms[1..][..n - 1];
        }
      }
    }
  }

  /** Going on from `t` over `ms` ends with this transfer, cut off or not, and these messages unread. */
  ghost predicate LeadsTo(c: Context, t: Transfer, ms: seq<Message>, sendable: nat,
                          end: Transfer, cut: bool, unread: seq<Message>)
  {
    var r := ReceiveWhile(c, t, ms, sendable);
    r.transfer == end && r.cut == cut && ms[r.read..] == unread
  }

  lemma WhileOne(c: Context, t: Transfer, m: Message, rest: seq<Message>, sendable: nat,
                 end: Transfer, cut: bool, unread: seq<Message>)
    requires t.ending.Running? && LeadsTo(c, t, [m] + rest, sendable, end, cut, unread)
    ensures if Closes(t, m) && |t.statuses| >= sendable then end == t.(open := None) && cut && unread == rest
            else LeadsTo(c, OnMessage(c, t, m), rest, sendable, end, cut, unread)
  {
    assert ([m] + rest)[1..] == rest;
  }

  lemma WhileNothing(c: Context, t: Transfer, ms: seq<Message>, sendable: nat,
                     end: Transfer, cut: bool, unread: seq<Message>)
    requires (ms == [] || !t.ending.Running?) && LeadsTo(c, t, ms, sendable, end, cut, unread)
    ensures end == t && !cut && unread == ms
  {}

  function Texts(json: Json, packets: seq<Packet>): (ms: seq<Message>)
    ensures |ms| == |packets|
  {
    seq(|packets|, i requires 0 <= i < |packets| => json.Text(packets[i]))
  }

  /** The part of the loop that looks at a header, with no file open. */
  method ReadHeader(c: Context, data: seq<byte>, published: seq<Received>, log: seq<FileError>,
                    ghost statuses: seq<Packet>, ghost results: seq<FileResult>)
    returns (ending: Ending, fileState: Option<string>, files: seq<Received>, errors: seq<FileError>)
    ensures Transfer(fileState, files, statuses, errors, results, ending)
            == OnHeader(c, Transfer(None, published, statuses, log, results, Running), data)
  {
    ending, fileState, files, errors := Running, None, published, log;
    var header := c.json.decode(FileHeader, data);
    if header.None? || !header.value.Header? {
      ending := HeaderUnparsed;
    } else if header.value.id !in c.tokens {
      errors := errors + [FileNotFound(header.value.id)];
    } else if header.value.token != c.tokens[header.value.id] {
      errors := errors + [InvalidToken(header.value.id)];
    } else if !c.Listed(header.value.id) {
      errors := errors + [SizeMissing(header.value.id)];
    } else {
      fileState := Some(header.value.id);
      files := files + [Received(header.value.id, [])];
    }
  }

  /** A text message: the open file is closed and answered, if that can be sent, and then the end or a
      header is looked at. */
  method ReadText(c: Context, channel: DataChannel, m: Message, results: seq<FileResult>, sendable: nat, now: Transfer)
    returns (next: Transfer, cut: bool)
    requires m.Text? && now.ending.Running? && now.results == results
    modifies channel`sent
    ensures cut <==> Closes(now, m) && |now.statuses| >= sendable
    ensures next == if cut then now.(open := None) else OnMessage(c, now, m)
    ensures channel.sent == old(channel.sent) + Texts(c.json, next.statuses[|now.statuses|..])
  {
    var fileState, statuses, files, errors, ending := None, now.statuses, now.files, now.errors, Running;
    if now.open.Some? {
      if |statuses| >= sendable {
        return now.(open := None), true;
      }
      var status := StatusOf(now.open.value, results, |statuses|);
      channel.Send(c.json.Text(status));
      statuses := statuses + [status];
    }
    if now.open.Some? && IsDelimiter(m) {
      ending := Finished;
    } else {
      ending, fileState, files, errors := ReadHeader(c, m.data, files, errors, statuses, results);
    }
    next, cut := Transfer(fileState, files, statuses, errors, results, ending), false;
    assert next == OnMessage(c, now, m);
  }

  /** A binary message goes to the open file. */
  method ReadBinary(data: seq<byte>, now: Transfer) returns (next: Transfer)
    ensures next == OnBinary(now, data)
  {
    if now.open.None? || now.files == [] {
      next := now.(errors := now.errors + [WithoutHeader]);
    } else {
      var last := |now.files| - 1;
      next := now.(files := now.files[last := now.files[last].(pieces := now.files[last].pieces + [data])]);
    }
  }

  /** The receive loop over a channel that takes `sendable` statuses before it is closed. */
  method ReceiveFiles(c: Context, channel: DataChannel, results: seq<FileResult>, sendable: nat)
    returns (t: Transfer, cut: bool)
    modifies channel
    ensures var r := ReceiveWhile(c, Begin(results), old(channel.pending), sendable);
            t == r.transfer && cut == r.cut && channel.pending == old(channel.pending)[r.read..]
    ensures channel.sent == old(channel.sent) + Texts(c.json, t.statuses)
  {
    ghost var ms, r := channel.pending, ReceiveWhile(c, Begin(results), channel.pending, sendable);
    t, cut := Begin(results), false;
    assert LeadsTo(c, t, ms, sendable, r.transfer, r.cut, ms[r.read..]);
    hide ReceiveWhile, LeadsTo, Closes, OnMessage;
    while t.ending.Running?
      invariant LeadsTo(c, t, channel.pending, sendable, r.transfer, r.cut, ms[r.read..])
      invariant channel.sent == old(channel.sent) + Texts(c.json, t.statuses)
      invariant t.results == results && !cut
      decreases t.ending.Running?, |channel.pending|
    {
      ghost var now, unread, said := t, channel.pending, channel.sent;
      var m := channel.Receive();
      if m.None? {
        break;
      }
      assert unread == [m.value] + channel.pending;
      WhileOne(c, now, m.value, channel.pending, sendable, r.transfer, r.cut, ms[r.read..]);
      match m.value {
        case Text(_) =>
          StatusesGrow(c, now, m.value);
          t, cut := ReadText(c, channel, m.value, results, sendable, t);
          TextsAppend(c.json, old(channel.sent), now.statuses, t.statuses);
          if cut {
            return;
          }
        case Binary(data) =>
          t := ReadBinary(data, t);
          BinaryIsMessage(c, now, data);
      }
    }
    WhileNothing(c, t, channel.pending, sendable, r.transfer, r.cut, ms[r.read..]);
  }

  lemma TextsAppend(json: Json, sent: seq<Message>, before: seq<Packet>, after: seq<Packet>)
    requires before <= after
    ensures sent + Texts(json, before) + Texts(json, after[|before|..]) == sent + Texts(json, after)
  {}

  lemma BinaryIsMessage(c: Context, t: Transfer, data: seq<byte>)
    ensures OnMessage(c, t, Binary(data)) == OnBinary(t, data) && !Closes(t, Binary(data))
    ensures OnBinary(t, data).statuses == t.statuses && OnBinary(t, data).results == t.results
  {}
}
