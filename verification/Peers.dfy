/** The two sequential processes of a transfer, `send_offer` and `accept_offer`, each as what it does
    on its next message or on a closed channel. */
module Peers {
  import opened Prelude
  import opened Packets
  import opened PinChallenge
  import opened Tokens
  import Base64
  import FileStream

  /** Everything the two ends bring along: keys, nonces, expectations, PINs, the users' answers, the
      files the sending application goes on to send and the results the receiving one reports. */
  datatype Config = Config(
    json: Json, crypto: Crypto,
    senderKey: PrivateKey, receiverKey: PrivateKey,
    senderNonce: seq<byte>, receiverNonce: seq<byte>,
    senderExpects: Option<VerifyingKey>, receiverExpects: Option<VerifyingKey>,
    senderPin: Option<PinConfig>, receiverPin: Option<PinConfig>,
    senderGuesses: seq<string>, receiverGuesses: seq<string>,
    files: seq<FileDto>,
    selection: Option<set<string>>, freshToken: string -> string,
    outgoing: seq<FileStream.Outgoing>, results: seq<FileStream.FileResult>)
  {
    ghost predicate Valid() {
      json.Lawful() && crypto.Lawful() && |senderNonce| == |receiverNonce| == 32
    }

    function FileTokens(): FileStream.FileTokens
      requires selection.Some?
    {
      map id | id in selection.value :: freshToken(id)
    }

    /** What the receive loop compares headers with. */
    function Receiver(): FileStream.Context
      requires selection.Some?
    {
      FileStream.Context(json, FileTokens(), files)
    }
  }

  /** Why a process ended. `Sent` and `Transferred` are the ends of the file stream, with the one
      message the sender waited for and with what the receiver made of the stream. `CutOff` is the
      end of a receive loop that could not send a status, `SendFailed` any other send that failed.
      `Closed` is an end of stream before, `Garbled` a message of the wrong kind. */
  datatype Stop =
    | Sent(tokens: FileStream.FileTokens, heard: Option<Message>)
    | Transferred(tokens: FileStream.FileTokens, transfer: FileStream.Transfer)
    | CutOff(tokens: FileStream.FileTokens, transfer: FileStream.Transfer)
    | SendFailed
    | Declined
    | Mistrusted | InvalidSignature | TooManyTries | NoGuess
    | Closed | Garbled | InvalidNonce | TokenPanic | Pairing

  /** Where a process waits for its next message. `Answering` is the receive loop with a file closed
      (`cut`) and its status to be sent, before the text that closed it is looked at (`next`). */
  datatype Phase =
    | SenderNonce | SenderToken | SenderGuessing | SenderVerifying | SenderList
    | SenderLast(tokens: FileStream.FileTokens)
    | ReceiverNonce | ReceiverToken | ReceiverVerifying | ReceiverFiles | ReceiverGuessing
    | Receiving(tokens: FileStream.FileTokens, transfer: FileStream.Transfer)
    | Answering(tokens: FileStream.FileTokens, cut: FileStream.Transfer, next: FileStream.Transfer)
    | Stopped(stop: Stop)
  {
    /** The phases inside `receive_string_from_chunks`. */
    predicate ReadsFrame() {
      SenderList? || ReceiverFiles? || ReceiverGuessing?
    }
  }

  /** `outbox` holds what the process sends, in order, before it reads again. */
  datatype Peer = Peer(
    phase: Phase, outbox: seq<Message>, buffer: seq<byte>, nonce: seq<byte>,
    used: nat, tries: nat, files: seq<FileDto>)
  {
    function Say(p: Packet, json: Json): Peer {
      this.(outbox := outbox + [json.Text(p)])
    }

    function SayFrame(p: Packet, json: Json): Peer {
      this.(outbox := outbox + Frame(json.encode(p)))
    }

    function At(next: Phase): Peer {
      this.(phase := next)
    }

    function End(stop: Stop): Peer {
      this.(phase := Stopped(stop))
    }
  }

  /** `receive_nonce`. */
  function ReadNonce(json: Json, data: seq<byte>): (r: (Option<seq<byte>>, Stop))
    ensures r.0.Some? ==> 16 <= |r.0.value| <= 128
  {
    match json.decode(NonceMessage, data)
    case Some(Nonce(text)) =>
      (match Base64.Decode(text)
       case None => (None, Garbled)
       case Some(nonce) => if ValidNonce(nonce) then (Some(nonce), Garbled) else (None, InvalidNonce))
    case _ => (None, Garbled)
  }

  function CheckToken(cfg: Config, expects: Option<VerifyingKey>, token: string, nonce: seq<byte>): TokenVerdict {
    match expects
    case None => TokenVerdict.Accepted
    case Some(key) => VerifyNonce(cfg.crypto, key, token, nonce)
  }

  /** One turn of the `handle_pin` loop up to its wait for the reply. */
  function AskUser(cfg: Config, p: Peer, guesses: seq<string>, waiting: Phase): Peer {
    if p.used >= |guesses| then p.End(NoGuess)
    else p.Say(Pin(guesses[p.used]), cfg.json).(used := p.used + 1).At(waiting)
  }

  // ----- send_offer

  function StartSender(cfg: Config): Peer {
    Peer(SenderNonce, [], [], [], 0, 0, cfg.files).Say(Nonce(Base64.Encode(cfg.senderNonce)), cfg.json)
  }

  function OnReceiverNonce(cfg: Config, p: Peer, data: seq<byte>): Peer {
    match ReadNonce(cfg.json, data)
    case (None, stop) => p.End(stop)
    case (Some(remote), _) =>
      var nonce := cfg.senderNonce + remote;
      p.(nonce := nonce)
      .Say(TokenRequest(Generate(cfg.crypto, cfg.senderKey, nonce)), cfg.json)
      .At(SenderToken)
  }

  function OnTokenResponse(cfg: Config, p: Peer, data: seq<byte>): Peer {
    match cfg.json.decode(TokenResponse, data)
    case Some(TokenOk(token)) => JudgeToken(cfg, p, token, false)
    case Some(TokenPinRequired(token)) => JudgeToken(cfg, p, token, true)
    case Some(TokenInvalidSignature) => p.End(InvalidSignature)
    case _ => p.End(Garbled)
  }

  function JudgeToken(cfg: Config, p: Peer, token: string, pinRequired: bool): Peer {
    match CheckToken(cfg, cfg.senderExpects, token, p.nonce)
    case Rejected => p.End(Mistrusted)
    case Panicked => p.End(TokenPanic)
    case Accepted =>
      if pinRequired then AskUser(cfg, p, cfg.senderGuesses, SenderGuessing) else SenderChallenge(cfg, p)
  }

  function OnReceivingResponse(cfg: Config, p: Peer, data: seq<byte>): Peer {
    match cfg.json.decode(PinReceivingResponse, data)
    case Some(ReceivingOk) => SenderChallenge(cfg, p)
    case Some(ReceivingPinRequired) => AskUser(cfg, p, cfg.senderGuesses, SenderGuessing)
    case Some(ReceivingTooManyAttempts) => p.End(TooManyTries)
    case _ => p.End(Garbled)
  }

  function SenderChallenge(cfg: Config, p: Peer): Peer {
    match cfg.senderPin
    case None => SendFileList(cfg, p)
    case Some(config) => SenderCheck(cfg, p, config, "", true)
  }

  /** The top of the sender's `verify_pin` loop. */
  function SenderCheck(cfg: Config, p: Peer, config: PinConfig, remotePin: string, initialNotice: bool): Peer {
    var check := CheckPin(config, remotePin, p.tries, initialNotice);
    var told := if check.notice.None? then p
                else p.(outbox := p.outbox + NoticeMessages(cfg.json, true, check.notice.value));
    match check.verdict
    case None => told.At(SenderVerifying)
    case Some(Passed) => SendFileList(cfg, told)
    case Some(_) => told.End(TooManyTries)
  }

  function SendFileList(cfg: Config, p: Peer): Peer {
    p.SayFrame(SendingOk(cfg.files), cfg.json).At(SenderList)
  }

  function OnFileListResponse(cfg: Config, p: Peer, data: seq<byte>, unparsed: Stop): Peer {
    match cfg.json.decode(FileListResponse, data)
    case Some(ListOk(tokens)) => SendStream(cfg, p, tokens)
    case Some(ListPair(_)) => p.End(Pairing)
    case Some(ListDeclined) => p.End(Declined)
    case Some(ListInvalidSignature) => p.End(InvalidSignature)
    case _ => p.End(unparsed)
  }

  /** The sending loop says the whole stream before it waits for one last message. */
  function SendStream(cfg: Config, p: Peer, tokens: FileStream.FileTokens): Peer {
    p.(outbox := p.outbox + (FileStream.Stream(cfg.json, tokens, cfg.outgoing) + [DELIMITER])).At(SenderLast(tokens))
  }

  // ----- accept_offer

  function StartReceiver(cfg: Config): Peer {
    Peer(ReceiverNonce, [], [], [], 0, 0, [])
  }

  function OnSenderNonce(cfg: Config, p: Peer, data: seq<byte>): Peer {
    match ReadNonce(cfg.json, data)
    case (None, stop) => p.End(stop)
    case (Some(remote), _) =>
      p.(nonce := remote + cfg.receiverNonce)
      .Say(Nonce(Base64.Encode(cfg.receiverNonce)), cfg.json)
      .At(ReceiverToken)
  }

  function OnTokenRequest(cfg: Config, p: Peer, data: seq<byte>): Peer {
    match cfg.json.decode(TokenRequestMessage, data)
    case Some(TokenRequest(token)) => AnswerToken(cfg, p, token)
    case _ => p.End(Garbled)
  }

  function AnswerToken(cfg: Config, p: Peer, token: string): Peer {
    match CheckToken(cfg, cfg.receiverExpects, token, p.nonce)
    case Rejected => p.Say(TokenInvalidSignature, cfg.json).End(Mistrusted)
    case Panicked => p.End(TokenPanic)
    case Accepted =>
      var answer := Generate(cfg.crypto, cfg.receiverKey, p.nonce);
      match cfg.receiverPin
      case None => p.Say(TokenOk(answer), cfg.json).At(ReceiverFiles)
      case Some(config) => ReceiverCheck(cfg, p.Say(TokenPinRequired(answer), cfg.json), config, "")
  }

  /** The top of the receiver's `verify_pin` loop. */
  function ReceiverCheck(cfg: Config, p: Peer, config: PinConfig, remotePin: string): Peer {
    var check := CheckPin(config, remotePin, p.tries, false);
    var told := if check.notice.None? then p
                else p.(outbox := p.outbox + NoticeMessages(cfg.json, false, check.notice.value));
    match check.verdict
    case None => told.At(ReceiverVerifying)
    case Some(Passed) => told.Say(ReceivingOk, cfg.json).At(ReceiverFiles)
    case Some(_) => told.End(TooManyTries)
  }

  function OnSendingResponse(cfg: Config, p: Peer, data: seq<byte>, unparsed: Stop): Peer {
    match cfg.json.decode(PinSendingResponse, data)
    case Some(SendingOk(files)) => Choose(cfg, p.(files := files))
    case Some(SendingPinRequired) => AskUser(cfg, p, cfg.receiverGuesses, ReceiverGuessing)
    case Some(SendingTooManyAttempts) => p.End(TooManyTries)
    case _ => p.End(unparsed)
  }

  function Choose(cfg: Config, p: Peer): Peer {
    if cfg.selection.None? then p.SayFrame(ListDeclined, cfg.json).End(Declined)
    else p.SayFrame(ListOk(cfg.FileTokens()), cfg.json).At(Receiving(cfg.FileTokens(), FileStream.Begin(cfg.results)))
  }

  function ReceivingContext(cfg: Config, p: Peer, tokens: FileStream.FileTokens): FileStream.Context {
    FileStream.Context(cfg.json, tokens, p.files)
  }

  /** The receive loop goes on or is left. */
  function Resting(tokens: FileStream.FileTokens, t: FileStream.Transfer): Phase {
    if t.ending.Running? then Receiving(tokens, t) else Stopped(Transferred(tokens, t))
  }

  /** One turn of the receive loop: a text behind an open file makes it send a status first. */
  function OnStream(cfg: Config, p: Peer, m: Message): Peer
    requires p.phase.Receiving?
  {
    var t, tokens := p.phase.transfer, p.phase.tokens;
    var next := FileStream.OnMessage(ReceivingContext(cfg, p, tokens), t, m);
    if FileStream.Closes(t, m) then
      p.Say(FileStream.NextStatus(t), cfg.json).At(Answering(tokens, t.(open := None), next))
    else p.At(Resting(tokens, next))
  }

  // ----- One process

  /** The end of `receive_string_from_chunks`: by a text, or by the channel closing. */
  function OnFrame(cfg: Config, p: Peer, unparsed: Stop): Peer {
    var whole := p.(buffer := []);
    if p.phase.SenderList? then OnFileListResponse(cfg, whole, p.buffer, unparsed)
    else OnSendingResponse(cfg, whole, p.buffer, unparsed)
  }

  /** What a waiting process does when the next message arrives, or when none will. */
  function React(cfg: Config, p: Peer, input: Option<Message>): Peer {
    if p.phase.Stopped? || p.phase.Answering? then p
    else if p.phase.SenderLast? then p.End(Sent(p.phase.tokens, input))
    else if p.phase.Receiving? then
      match input
      case None => p.End(Transferred(p.phase.tokens, p.phase.transfer))
      case Some(m) => OnStream(cfg, p, m)
    else if p.phase.ReadsFrame() then
      match input
      case None => OnFrame(cfg, p, Closed)
      case Some(Text(_)) => OnFrame(cfg, p, Garbled)
      case Some(Binary(data)) => p.(buffer := p.buffer + data)
    else if input.None? then p.End(Closed)
    else if p.phase.SenderVerifying? then OnGuess(cfg, p, cfg.senderPin, input.value.data)
    else if p.phase.ReceiverVerifying? then OnGuess(cfg, p, cfg.receiverPin, input.value.data)
    else if input.value.Binary? then p.End(Garbled)
    else
      var data := input.value.data;
      match p.phase
      case SenderNonce => OnReceiverNonce(cfg, p, data)
      case SenderToken => OnTokenResponse(cfg, p, data)
      case SenderGuessing => OnReceivingResponse(cfg, p, data)
      case ReceiverNonce => OnSenderNonce(cfg, p, data)
      case _ => OnTokenRequest(cfg, p, data)
  }

  /** `verify_pin` reads a guess from a text or a binary message alike. */
  function OnGuess(cfg: Config, p: Peer, config: Option<PinConfig>, data: seq<byte>): Peer {
    match cfg.json.decode(PinMessage, data)
    case Some(Pin(pin)) =>
      var counted := p.(tries := p.tries + 1);
      if config.None? then p.End(Garbled)
      else if p.phase.SenderVerifying? then SenderCheck(cfg, counted, config.value, pin, false)
      else ReceiverCheck(cfg, counted, config.value, pin)
    case _ => p.End(Garbled)
  }

  /** The next message was sent; behind a status the receive loop goes on. */
  function Said(p: Peer): Peer
    requires p.outbox != []
  {
    var q := p.(outbox := p.outbox[1..]);
    if q.outbox == [] && q.phase.Answering? then q.At(Resting(q.phase.tokens, q.phase.next)) else q
  }

  /** The next message could not be sent, which ends the process there. (The loop that sends files would
      go on to the next file, but it never meets a closed channel: `Turns.OnlyStatusesFail`.) */
  function Failed(p: Peer): Peer {
    p.(outbox := []).End(if p.phase.Answering? then CutOff(p.phase.tokens, p.phase.cut) else SendFailed)
  }

  function Behaviour(cfg: Config): (Peer, Option<Message>) -> Peer {
    (p: Peer, input: Option<Message>) => React(cfg, p, input)
  }
}
