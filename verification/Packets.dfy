/** Data-channel messages, the JSON packets they carry and the framing of long strings. */
module Packets {
  import opened Prelude
  import Model
  import Chunks

  datatype Message = Text(data: seq<byte>) | Binary(data: seq<byte>)

  type FileDto = Model.FileDto

  /** One constructor per variant of the serialized message types. */
  datatype Packet =
    | Nonce(nonce: string)
    | TokenRequest(token: string)
    | TokenOk(token: string) | TokenPinRequired(token: string) | TokenInvalidSignature
    | Pin(pin: string)
    | ReceivingOk | ReceivingPinRequired | ReceivingTooManyAttempts
    | SendingOk(files: seq<FileDto>) | SendingPinRequired | SendingTooManyAttempts
    | ListOk(tokens: map<string, string>) | ListPair(publicKey: string) | ListDeclined | ListInvalidSignature
    | Header(id: string, token: string)
    | FileStatus(id: string, success: bool, error: Option<string>)
  {
    /** The message type a variant belongs to. */
    function Kind(): Kind {
      match this
      case Nonce(_) => NonceMessage
      case TokenRequest(_) => TokenRequestMessage
      case TokenOk(_) | TokenPinRequired(_) | TokenInvalidSignature => TokenResponse
      case Pin(_) => PinMessage
      case ReceivingOk | ReceivingPinRequired | ReceivingTooManyAttempts => PinReceivingResponse
      case SendingOk(_) | SendingPinRequired | SendingTooManyAttempts => PinSendingResponse
      case ListOk(_) | ListPair(_) | ListDeclined | ListInvalidSignature => FileListResponse
      case Header(_, _) => FileHeader
      case FileStatus(_, _, _) => FileResponse
    }
  }

  datatype Kind =
    | NonceMessage | TokenRequestMessage | TokenResponse | PinMessage | PinReceivingResponse
    | PinSendingResponse | FileListResponse | FileHeader | FileResponse

  /** Serialization, known only by its laws. */
  datatype Json = Json(encode: Packet -> seq<byte>, decode: (Kind, seq<byte>) -> Option<Packet>) {
    ghost predicate Lawful() {
      && (forall p: Packet :: decode(p.Kind(), encode(p)) == Some(p))
      && (forall p: Packet :: |encode(p)| >= 2)
      && (forall k: Kind, s: seq<byte> :: decode(k, s).Some? ==> decode(k, s).value.Kind() == k)
      && (forall k: Kind, s: seq<byte> :: |s| <= 1 ==> decode(k, s) == None)
    }

    function Text(p: Packet): Message {
      Message.Text(encode(p))
    }
  }

  /** The text "0". */
  const DELIMITER: Message := Text([48])

  predicate IsDelimiter(m: Message) {
    m.Text? && |m.data| <= 1
  }

  function Binaries(pieces: seq<seq<byte>>): (ms: seq<Message>)
    ensures |ms| == |pieces|
    ensures forall i :: 0 <= i < |ms| ==> ms[i] == Binary(pieces[i])
  {
    seq(|pieces|, i requires 0 <= i < |pieces| => Binary(pieces[i]))
  }

  /** A string in wire chunks with the delimiter behind it. */
  function Frame(s: seq<byte>): seq<Message> {
    Binaries(Chunks.Split(s, Chunks.CHUNK_SIZE)) + [DELIMITER]
  }

  function Frames(strings: seq<seq<byte>>): seq<Message> {
    if strings == [] then [] else Frame(strings[0]) + Frames(strings[1..])
  }

  /** The bytes up to the first text message or the end, and what is left unread. */
  function ReadFrame(ms: seq<Message>): (r: (seq<byte>, seq<Message>)) {
    if ms == [] then ([], [])
    else if ms[0].Text? then ([], ms[1..])
    else
      var (bytes, rest) := ReadFrame(ms[1..]);
      (ms[0].data + bytes, rest)
  }

  /** A read takes the binary messages at the front, joins them, and drops the text behind them, if the
      messages do not end first. */
  lemma {:induction false} ReadFrameExact(ms: seq<Message>) returns (pieces: seq<seq<byte>>)
    ensures |pieces| <= |ms| && ms[..|pieces|] == Binaries(pieces)
    ensures |pieces| < |ms| ==> ms[|pieces|].Text?
    ensures ReadFrame(ms) == (Flatten(pieces), if |pieces| < |ms| then ms[|pieces| + 1..] else [])
  {
    if ms == [] || ms[0].Text? {
      pieces := [];
    } else {
      var later := ReadFrameExact(ms[1..]);
      pieces := [ms[0].data] + later;
      assert ms[..|pieces|] == [ms[0]] + ms[1..][..|later|];
    }
  }

  lemma {:induction false} ReadBinaries(pieces: seq<seq<byte>>, rest: seq<Message>)
    ensures ReadFrame(Binaries(pieces) + rest) == (Flatten(pieces) + ReadFrame(rest).0, ReadFrame(rest).1)
  {
    var ms := Binaries(pieces) + rest;
    if pieces == [] {
      assert ms == rest;
      assert [] + ReadFrame(rest).0 == ReadFrame(rest).0;
    } else {
      var later := Binaries(pieces[1..]);
      assert Binaries(pieces) == [Binary(pieces[0])] + later;
      Associative([Binary(pieces[0])], later, rest);
      ReadBinaries(pieces[1..], rest);
      assert ms[1..] == later + rest && ms[0] == Binary(pieces[0]);
      Associative(pieces[0], Flatten(pieces[1..]), ReadFrame(rest).0);
    }
  }

  lemma FrameRoundTrip(s: seq<byte>, rest: seq<Message>)
    ensures ReadFrame(Frame(s) + rest) == (s, rest)
  {
    var pieces := Chunks.Split(s, Chunks.CHUNK_SIZE);
    Chunks.SplitIsSplit(s, Chunks.CHUNK_SIZE);
    assert Frame(s) + rest == Binaries(pieces) + ([DELIMITER] + rest);
    ReadBinaries(pieces, [DELIMITER] + rest);
    assert s + [] == s;
    assert ([DELIMITER] + rest)[1..] == rest;
  }

  /** The results of `n` reads in a row, and what is left unread. */
  function ReadFrames(ms: seq<Message>, n: nat): (seq<seq<byte>>, seq<Message>)
    decreases n
  {
    if n == 0 then ([], ms)
    else
      var (s, rest) := ReadFrame(ms);
      var (strings, unread) := ReadFrames(rest, n - 1);
      ([s] + strings, unread)
  }

  /** Any strings, of any lengths, come back unchanged, each read consuming exactly its frame. */
  lemma {:induction false} FramesRoundTrip(strings: seq<seq<byte>>, rest: seq<Message>)
    ensures ReadFrames(Frames(strings) + rest, |strings|) == (strings, rest)
  {
    if strings == [] {
      assert Frames(strings) + rest == rest;
    } else {
      assert Frames(strings) + rest == Frame(strings[0]) + (Frames(strings[1..]) + rest);
      FrameRoundTrip(strings[0], Frames(strings[1..]) + rest);
      FramesRoundTrip(strings[1..], rest);
      assert strings == [strings[0]] + strings[1..];
    }
  }

  /** A data channel end: what it sent, and what will still arrive before the channel closes. */
  class DataChannel {
    var sent: seq<Message>
    var pending: seq<Message>

    constructor (arriving: seq<Message>)
      ensures sent == [] && pending == arriving
    {
      sent, pending := [], arriving;
    }

    method Send(m: Message)
      modifies this`sent
      ensures sent == old(sent) + [m]
    {
      sent := sent + [m];
    }

    method Receive() returns (m: Option<Message>)
      modifies this`pending
      ensures m == if old(pending) == [] then None else Some(old(pending)[0])
      ensures pending == if old(pending) == [] then [] else old(pending)[1..]
    {
      if pending == [] {
        m := None;
      } else {
        m := Some(pending[0]);
        pending := pending[1..];
      }
    }

    /** `send_string_in_chunks` followed by `send_delimiter`. */
    method SendString(s: seq<byte>)
      modifies this`sent
      ensures sent == old(sent) + Frame(s)
    {
      var chunks := Chunks.ProcessInChunks([s]);
      assert Flatten([s]) == s;
      for i := 0 to |chunks|
        invariant sent == old(sent) + Binaries(chunks)[..i]
      {
        Send(Binary(chunks[i]));
      }
      Send(DELIMITER);
    }

    /** `receive_string_from_chunks`. */
    method ReceiveString() returns (s: seq<byte>)
      modifies this`pending
      ensures (s, pending) == ReadFrame(old(pending))
    {
      s := [];
      assert s + ReadFrame(pending).0 == ReadFrame(pending).0;
      while true
        invariant ReadFrame(old(pending)) == (s + ReadFrame(pending).0, ReadFrame(pending).1)
        decreases |pending|
      {
        var m := Receive();
        if m.None? || m.value.Text? {
          assert s + [] == s;
          break;
        }
        assert s + (m.value.data + ReadFrame(pending).0) == s + m.value.data + ReadFrame(pending).0;
        s := s + m.value.data;
      }
    }
  }
}
