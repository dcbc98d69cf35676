/** The two processes speak in turns, unless the receiver speaks unasked; so hardly any send can
    fail. */
module Turns {
  import opened Prelude
  import opened Packets
  import opened PinChallenge
  import opened Tokens
  import opened Peers
  import opened Duplex
  import opened Handshake
  import opened Refusals
  import FileStream
  import Chunks

  /** The receiver, having asked for its PIN, approves or refuses at once. */
  ghost predicate SpeaksUnasked(cfg: Config) {
    && OwnTokenBinds(cfg, cfg.receiverExpects, cfg.senderKey) && cfg.receiverPin.Some?
    && (cfg.receiverPin.value.pin == "" || cfg.receiverPin.value.maxTries == 0)
  }

  // ----- Whose turn it is

  /** The sender has said `ms` and the receiver has still to hear it. */
  ghost predicate ToRightOnly(x: System, ms: seq<Message>) {
    && x.toRight + x.left.outbox == ms && x.toLeft == [] && x.right.outbox == [] && x.left.buffer == []
  }

  ghost predicate ToLeftOnly(x: System, ms: seq<Message>) {
    && x.toLeft + x.right.outbox == ms && x.toRight == [] && x.left.outbox == [] && x.right.buffer == []
  }

  function TokenOfSender(cfg: Config): string {
    Generate(cfg.crypto, cfg.senderKey, AgreedNonce(cfg))
  }

  function TokenOfReceiver(cfg: Config): string {
    Generate(cfg.crypto, cfg.receiverKey, AgreedNonce(cfg))
  }

  /** What the sender can have said to the waiting receiver. */
  ghost predicate Asks(cfg: Config, l: Peer, r: Peer, p: Packet) {
    && r.buffer == [] && l.files == cfg.files
    && match p
       case Nonce(_) =>
         p == NoncePacket(cfg.senderNonce) && l.phase.SenderNonce? && r.phase.ReceiverNonce? && r.tries == 0
       case TokenRequest(token) =>
         && token == TokenOfSender(cfg) && l.phase.SenderToken? && l.nonce == AgreedNonce(cfg)
         && r.phase.ReceiverToken? && r.nonce == AgreedNonce(cfg) && r.tries == 0
       case Pin(_) => l.phase.SenderGuessing? && r.phase.ReceiverVerifying? && cfg.receiverPin.Some?
       case _ => false
  }

  /** What the receiver can have said to the waiting sender. */
  ghost predicate Replies(cfg: Config, l: Peer, r: Peer, p: Packet) {
    && l.buffer == [] && l.files == cfg.files
    && match p
       case Nonce(_) =>
         && p == NoncePacket(cfg.receiverNonce) && l.phase.SenderNonce?
         && r.phase.ReceiverToken? && r.nonce == AgreedNonce(cfg) && r.tries == 0
       case TokenOk(token) => token == TokenOfReceiver(cfg) && Judging(cfg, l) && r.phase.ReceiverFiles?
       case TokenPinRequired(token) =>
         && token == TokenOfReceiver(cfg) && Judging(cfg, l)
         && r.phase.ReceiverVerifying? && cfg.receiverPin.Some?
       case TokenInvalidSignature => l.phase.SenderToken? && r.phase.Stopped?
       case ReceivingOk => l.phase.SenderGuessing? && r.phase.ReceiverFiles?
       case ReceivingPinRequired => l.phase.SenderGuessing? && r.phase.ReceiverVerifying? && cfg.receiverPin.Some?
       case ReceivingTooManyAttempts => l.phase.SenderGuessing? && r.phase.Stopped?
       case Pin(_) => l.phase.SenderVerifying? && r.phase.ReceiverGuessing? && cfg.senderPin.Some?
       case _ => false
  }

  predicate Judging(cfg: Config, l: Peer) {
    l.phase.SenderToken? && l.nonce == AgreedNonce(cfg)
  }

  /** A notice of the sender's PIN loop is on its way. */
  ghost predicate NoticeCrossing(cfg: Config, x: System, pieces: seq<seq<byte>>, notice: Notice) {
    && ToRightOnly(x, Binaries(pieces) + [DELIMITER]) && x.left.files == cfg.files
    && (if notice.PinRequired? then x.left.phase.SenderVerifying? && cfg.senderPin.Some? else x.left.phase.Stopped?)
    && (x.right.phase.ReceiverFiles? || x.right.phase.ReceiverGuessing?)
    && x.right.buffer + Flatten(pieces) == cfg.json.encode(NoticePacket(true, notice))
  }

  /** One process is gone, nothing is under way, and the other one, if it still waits, will see that. */
  ghost predicate Over(x: System) {
    && x.left.outbox == [] && x.right.outbox == [] && (x.left.phase.Stopped? || x.right.phase.Stopped?)
    && (x.left.phase.Stopped? || (x.toLeft == [] && x.left.buffer == [] && !x.left.phase.Answering?))
    && (x.right.phase.Stopped? || (x.toRight == [] && x.right.buffer == [] && !x.right.phase.Answering?))
  }

  ghost predicate Talk(cfg: Config, x: System) {
    || (exists p :: ToRightOnly(x, [cfg.json.Text(p)]) && Asks(cfg, x.left, x.right, p))
    || (exists p :: ToLeftOnly(x, [cfg.json.Text(p)]) && Replies(cfg, x.left, x.right, p))
    || (exists pieces, notice :: NoticeCrossing(cfg, x, pieces, notice))
    || Over(x)
    || Stage(cfg, x)
  }

  /** In such a state only the status of a received file can fail to be sent. */
  lemma TalkRefused(cfg: Config, x: System, side: Side)
    requires cfg.Valid() && Talk(cfg, x) && Refuse(x, side).Some?
    ensures Stage(cfg, x)
  {}

  // ----- Every step keeps the turns

  lemma OverStep(cfg: Config, x: System, side: Side)
    requires cfg.Valid() && Over(x) && Step(Behaviour(cfg), x, side).Some?
    ensures Over(Step(Behaviour(cfg), x, side).value)
  {
    var p := if side.Left? then x.left else x.right;
    assert !p.phase.Stopped?;
    HearsClose(cfg, p);
  }

  lemma HearsClose(cfg: Config, p: Peer)
    requires cfg.Valid() && p.outbox == [] && p.buffer == [] && !p.phase.Stopped? && !p.phase.Answering?
    ensures React(cfg, p, None).phase.Stopped? && React(cfg, p, None).outbox == []
  {
    assert cfg.json.decode(FileListResponse, []).None? && cfg.json.decode(PinSendingResponse, []).None?;
    hide AskUser, SendStream, Choose, OnGuess;
  }

  /** The sender's user is asked, or has left. */
  lemma GuessAsked(cfg: Config, x: System, p: Peer)
    requires p.outbox == [] && p.buffer == [] && !p.phase.Stopped? && p.files == cfg.files
    requires x.left == AskUser(cfg, p, cfg.senderGuesses, SenderGuessing)
    requires x.toLeft == [] && x.toRight == [] && x.right.outbox == [] && x.right.buffer == []
    requires x.right.phase.ReceiverVerifying? && cfg.receiverPin.Some?
    ensures Talk(cfg, x)
  {
    if p.used >= |cfg.senderGuesses| {
      assert Over(x);
    } else {
      var pin := Pin(cfg.senderGuesses[p.used]);
      NothingBefore([cfg.json.Text(pin)]);
      assert ToRightOnly(x, [cfg.json.Text(pin)]) && Asks(cfg, x.left, x.right, pin);
    }
  }

  /** So for the receiver's. */
  lemma GuessAskedBack(cfg: Config, x: System, p: Peer)
    requires p.outbox == [] && p.buffer == [] && !p.phase.Stopped?
    requires x.right == AskUser(cfg, p, cfg.receiverGuesses, ReceiverGuessing)
    requires x.toLeft == [] && x.toRight == []
    requires x.left.outbox == [] && x.left.buffer == [] && x.left.files == cfg.files
    requires x.left.phase.SenderVerifying? && cfg.senderPin.Some?
    ensures Talk(cfg, x)
  {
    if p.used >= |cfg.receiverGuesses| {
      assert Over(x);
    } else {
      var pin := Pin(cfg.receiverGuesses[p.used]);
      NothingBefore([cfg.json.Text(pin)]);
      assert ToLeftOnly(x, [cfg.json.Text(pin)]) && Replies(cfg, x.left, x.right, pin);
    }
  }

  /** The sender has said a frame to the receiver that waits for one. */
  lemma NoticeSaid(cfg: Config, x: System, notice: Notice)
    requires x.left.outbox == [] + NoticeMessages(cfg.json, true, notice)
    requires x.left.files == cfg.files && x.left.buffer == []
    requires if notice.PinRequired? then x.left.phase.SenderVerifying? && cfg.senderPin.Some? else x.left.phase.Stopped?
    requires x.toLeft == [] && x.toRight == [] && x.right.outbox == [] && x.right.buffer == []
    requires x.right.phase.ReceiverFiles? || x.right.phase.ReceiverGuessing?
    ensures Talk(cfg, x)
  {
    var data := cfg.json.encode(NoticePacket(true, notice));
    var pieces := Chunks.Split(data, Chunks.CHUNK_SIZE);
    Chunks.SplitIsSplit(data, Chunks.CHUNK_SIZE);
    assert [] + data == data && [] + x.left.outbox == x.left.outbox;
    NothingBefore(Frame(data));
    assert NoticeCrossing(cfg, x, pieces, notice);
  }

  lemma OfferSaid(cfg: Config, x: System, p: Peer)
    requires x.left == SendFileList(cfg, p) && p.outbox == [] && p.buffer == [] && p.files == cfg.files
    requires x.toLeft == [] && x.toRight == [] && x.right.outbox == [] && x.right.buffer == []
    requires x.right.phase.ReceiverFiles? || x.right.phase.ReceiverGuessing?
    requires cfg.Valid()
    ensures Talk(cfg, x)
  {
    NothingBefore(Frame(cfg.json.encode(SendingOk(cfg.files))));
    assert Offering(cfg, x);
    OfferStage(cfg, x);
  }

  /** The top of the sender's PIN loop, at the first pass or behind a guess. */
  lemma SenderChecked(cfg: Config, x: System, p: Peer, config: PinConfig, remotePin: string, first: bool)
    requires cfg.Valid() && cfg.senderPin == Some(config) && x.left == SenderCheck(cfg, p, config, remotePin, first)
    requires p.outbox == [] && p.buffer == [] && p.files == cfg.files && (first || p.tries > 0)
    requires x.toLeft == [] && x.toRight == [] && x.right.outbox == [] && x.right.buffer == []
    requires x.right.phase.ReceiverFiles? || x.right.phase.ReceiverGuessing?
    ensures Talk(cfg, x)
  {
    hide Talk, Frame;
    var check := CheckPin(config, remotePin, p.tries, first);
    if check.verdict == Some(Passed) {
      OfferSaid(cfg, x, p);
    } else {
      NoticeSaid(cfg, x, check.notice.value);
    }
  }

  lemma ChallengeBegun(cfg: Config, x: System, p: Peer)
    requires cfg.Valid() && x.left == SenderChallenge(cfg, p)
    requires p.outbox == [] && p.buffer == [] && p.files == cfg.files
    requires x.toLeft == [] && x.toRight == [] && x.right.outbox == [] && x.right.buffer == []
    requires x.right.phase.ReceiverFiles?
    ensures Talk(cfg, x)
  {
    hide Talk, Frame, SenderCheck, SendFileList;
    if cfg.senderPin.None? {
      OfferSaid(cfg, x, p);
    } else {
      SenderChecked(cfg, x, p, cfg.senderPin.value, "", true);
    }
  }

  lemma NoticeStep(cfg: Config, x: System, side: Side, pieces: seq<seq<byte>>, notice: Notice)
    requires cfg.Valid() && NoticeCrossing(cfg, x, pieces, notice) && Step(Behaviour(cfg), x, side).Some?
    ensures Talk(cfg, Step(Behaviour(cfg), x, side).value)
  {
    var next := Step(Behaviour(cfg), x, side).value;
    if side.Left? {
      assert next.toRight + next.left.outbox == x.toRight + x.left.outbox;
      assert NoticeCrossing(cfg, next, pieces, notice);
    } else {
      TakePiece(x.toRight, x.left.outbox, pieces, x.right.buffer);
      assert x.toLeft + [] == [];
      if pieces == [] {
        NoticeTaken(cfg, x, notice);
      } else {
        assert NoticeCrossing(cfg, next, pieces[1..], notice);
      }
    }
  }

  lemma NoticeTaken(cfg: Config, x: System, notice: Notice)
    requires cfg.Valid() && NoticeCrossing(cfg, x, [], notice) && x.toRight == [DELIMITER] && x.left.outbox == []
    requires Step(Behaviour(cfg), x, Right).Some?
    ensures Talk(cfg, Step(Behaviour(cfg), x, Right).value)
  {
    hide Talk, AskUser, Choose;
    var next, packet := Step(Behaviour(cfg), x, Right).value, NoticePacket(true, notice);
    var data, p := cfg.json.encode(packet), x.right.(buffer := []);
    assert x.right.buffer == data by { assert x.right.buffer + [] == x.right.buffer; }
    assert cfg.json.decode(packet.Kind(), data) == Some(packet);
    assert x.toLeft + [] == [];
    if notice.PinRequired? {
      assert next.right == AskUser(cfg, p, cfg.receiverGuesses, ReceiverGuessing);
      GuessAskedBack(cfg, next, p);
    } else {
      assert next.right == p.End(TooManyTries);
      OverTalk(cfg, next);
    }
  }

  lemma OverTalk(cfg: Config, x: System)
    requires Over(x)
    ensures Talk(cfg, x)
  {}

  /** The receiver has said one text. */
  lemma Replied(cfg: Config, x: System, p: Packet)
    requires x.right.outbox == [] + [cfg.json.Text(p)] && x.toLeft == [] && x.toRight == []
    requires x.left.outbox == [] && x.right.buffer == [] && Replies(cfg, x.left, x.right, p)
    ensures Talk(cfg, x)
  {
    NothingBefore([cfg.json.Text(p)]);
    assert ToLeftOnly(x, [cfg.json.Text(p)]);
  }

  lemma TextToRightRead(cfg: Config, x: System, p: Packet)
    requires ToRightOnly(x, [cfg.json.Text(p)]) && Asks(cfg, x.left, x.right, p)
    requires Step(Behaviour(cfg), x, Right).Some?
    ensures x.toRight == [cfg.json.Text(p)] && x.left.outbox == []
    ensures Step(Behaviour(cfg), x, Right).value
            == x.(right := React(cfg, x.right, Some(cfg.json.Text(p))), toRight := [])
  {
    hide React;
    assert x.toRight != [];
    assert x.toRight[0] == (x.toRight + x.left.outbox)[0] && |x.toRight| == 1;
    assert x.toLeft + [] == x.toLeft;
  }

  lemma TextToLeftRead(cfg: Config, x: System, p: Packet)
    requires ToLeftOnly(x, [cfg.json.Text(p)]) && Replies(cfg, x.left, x.right, p)
    requires Step(Behaviour(cfg), x, Left).Some?
    ensures x.toLeft == [cfg.json.Text(p)] && x.right.outbox == []
    ensures Step(Behaviour(cfg), x, Left).value
            == x.(left := React(cfg, x.left, Some(cfg.json.Text(p))), toLeft := [])
  {
    hide React;
    assert x.toLeft != [];
    assert x.toLeft[0] == (x.toLeft + x.right.outbox)[0] && |x.toLeft| == 1;
    assert x.toRight + [] == x.toRight;
  }

  /** The receiver answers the sender's token. */
  lemma TokenAnswered(cfg: Config, x: System, r: Peer)
    requires cfg.Valid() && !SpeaksUnasked(cfg) && x.right == AnswerToken(cfg, r, TokenOfSender(cfg))
    requires r.outbox == [] && r.buffer == [] && r.nonce == AgreedNonce(cfg) && r.tries == 0
    requires x.toLeft == [] && x.toRight == []
    requires x.left.outbox == [] && x.left.buffer == [] && x.left.files == cfg.files
    requires Judging(cfg, x.left)
    ensures Talk(cfg, x)
  {
    TrustExactly(cfg);
    hide Talk, Generate, OwnTokenBinds;
    HonestTokensDoNotPanic(cfg, cfg.receiverExpects, cfg.senderKey, AgreedNonce(cfg));
    var answer := TokenOfReceiver(cfg);
    if !ReceiverTrusts(cfg) {
      Replied(cfg, x, TokenInvalidSignature);
    } else if cfg.receiverPin.None? {
      Replied(cfg, x, TokenOk(answer));
    } else {
      Replied(cfg, x, TokenPinRequired(answer));
    }
  }

  /** The receiver answers a guess. */
  lemma GuessAnswered(cfg: Config, x: System, r: Peer, guess: string)
    requires cfg.receiverPin.Some? && x.right == ReceiverCheck(cfg, r, cfg.receiverPin.value, guess)
    requires r.outbox == [] && r.buffer == [] && r.tries > 0 && r.phase.ReceiverVerifying?
    requires x.toLeft == [] && x.toRight == []
    requires x.left.outbox == [] && x.left.buffer == [] && x.left.files == cfg.files
    requires x.left.phase.SenderGuessing?
    ensures Talk(cfg, x)
  {
    hide Talk;
    var check := CheckPin(cfg.receiverPin.value, guess, r.tries, false);
    Replied(cfg, x, if check.verdict == Some(Passed) then ReceivingOk else NoticePacket(false, check.notice.value));
  }

  lemma AskedStep(cfg: Config, x: System, side: Side, p: Packet)
    requires cfg.Valid() && !SpeaksUnasked(cfg) && Step(Behaviour(cfg), x, side).Some?
    requires ToRightOnly(x, [cfg.json.Text(p)]) && Asks(cfg, x.left, x.right, p)
    ensures Talk(cfg, Step(Behaviour(cfg), x, side).value)
  {
    if side.Left? {
      AskedSent(cfg, x, p);
    } else {
      AskedAnswered(cfg, x, p);
    }
  }

  lemma AskedAnswered(cfg: Config, x: System, p: Packet)
    requires cfg.Valid() && !SpeaksUnasked(cfg) && Step(Behaviour(cfg), x, Right).Some?
    requires ToRightOnly(x, [cfg.json.Text(p)]) && Asks(cfg, x.left, x.right, p)
    ensures Talk(cfg, Step(Behaviour(cfg), x, Right).value)
  {
    var next := Step(Behaviour(cfg), x, Right).value;
    hide Talk, Step, AnswerToken, ReceiverCheck, SpeaksUnasked;
    TextToRightRead(cfg, x, p);
    match p
    case Nonce(_) =>
      NonceToReceiver(cfg, x.right);
      NothingBefore([cfg.json.Text(NoncePacket(cfg.receiverNonce))]);
      Replied(cfg, next, NoncePacket(cfg.receiverNonce));
    case TokenRequest(token) =>
      TokenRead(cfg, x.right, token);
      TokenAnswered(cfg, next, x.right);
    case Pin(guess) =>
      GuessRead(cfg, x.right, guess);
      GuessAnswered(cfg, next, x.right.(tries := x.right.tries + 1), guess);
  }

  lemma AskedSent(cfg: Config, x: System, p: Packet)
    requires ToRightOnly(x, [cfg.json.Text(p)]) && Asks(cfg, x.left, x.right, p) && Step(Behaviour(cfg), x, Left).Some?
    ensures Talk(cfg, Step(Behaviour(cfg), x, Left).value)
  {
    hide Stage;
    var next := Step(Behaviour(cfg), x, Left).value;
    assert next.toRight + next.left.outbox == x.toRight + x.left.outbox;
    assert ToRightOnly(next, [cfg.json.Text(p)]) && Asks(cfg, next.left, next.right, p);
  }

  lemma RepliedSent(cfg: Config, x: System, p: Packet)
    requires ToLeftOnly(x, [cfg.json.Text(p)]) && Replies(cfg, x.left, x.right, p)
    requires Step(Behaviour(cfg), x, Right).Some?
    ensures Talk(cfg, Step(Behaviour(cfg), x, Right).value)
  {
    hide Stage;
    var next := Step(Behaviour(cfg), x, Right).value;
    assert next.toLeft + next.right.outbox == x.toLeft + x.right.outbox;
    assert ToLeftOnly(next, [cfg.json.Text(p)]) && Replies(cfg, next.left, next.right, p);
  }

  lemma GuessRead(cfg: Config, r: Peer, guess: string)
    requires cfg.Valid() && r.phase.ReceiverVerifying? && cfg.receiverPin.Some?
    ensures React(cfg, r, Some(cfg.json.Text(Pin(guess))))
            == ReceiverCheck(cfg, r.(tries := r.tries + 1), cfg.receiverPin.value, guess)
  {
    assert cfg.json.decode(Pin(guess).Kind(), cfg.json.encode(Pin(guess))) == Some(Pin(guess));
  }

  lemma GuessReadBack(cfg: Config, l: Peer, guess: string)
    requires cfg.Valid() && l.phase.SenderVerifying? && cfg.senderPin.Some?
    ensures React(cfg, l, Some(cfg.json.Text(Pin(guess))))
            == SenderCheck(cfg, l.(tries := l.tries + 1), cfg.senderPin.value, guess, false)
  {
    assert cfg.json.decode(Pin(guess).Kind(), cfg.json.encode(Pin(guess))) == Some(Pin(guess));
  }

  lemma ResponseRead(cfg: Config, l: Peer, response: Packet)
    requires cfg.Valid() && l.phase.SenderToken?
    requires response.TokenOk? || response.TokenPinRequired? || response.TokenInvalidSignature?
    ensures React(cfg, l, Some(cfg.json.Text(response)))
            == if response.TokenInvalidSignature? then l.End(InvalidSignature)
               else JudgeToken(cfg, l, response.token, response.TokenPinRequired?)
  {
    assert cfg.json.decode(response.Kind(), cfg.json.encode(response)) == Some(response);
    hide JudgeToken;
  }

  lemma ReplyTaken(cfg: Config, l: Peer, reply: Packet)
    requires cfg.Valid() && l.phase.SenderGuessing?
    requires reply.ReceivingOk? || reply.ReceivingPinRequired? || reply.ReceivingTooManyAttempts?
    ensures React(cfg, l, Some(cfg.json.Text(reply)))
            == if reply.ReceivingOk? then SenderChallenge(cfg, l)
               else if reply.ReceivingPinRequired? then AskUser(cfg, l, cfg.senderGuesses, SenderGuessing)
               else l.End(TooManyTries)
  {
    assert cfg.json.decode(reply.Kind(), cfg.json.encode(reply)) == Some(reply);
    hide SenderChallenge, AskUser;
  }

  /** The sender judges the receiver's token. */
  lemma TokenJudged(cfg: Config, x: System, l: Peer, pinRequired: bool)
    requires cfg.Valid() && x.left == JudgeToken(cfg, l, TokenOfReceiver(cfg), pinRequired)
    requires l.outbox == [] && l.buffer == [] && l.files == cfg.files && Judging(cfg, l)
    requires x.toLeft == [] && x.toRight == [] && x.right.outbox == [] && x.right.buffer == []
    requires if pinRequired then x.right.phase.ReceiverVerifying? && cfg.receiverPin.Some?
             else x.right.phase.ReceiverFiles?
    ensures Talk(cfg, x)
  {
    hide Talk, Generate, SenderChallenge, AskUser;
    HonestTokensDoNotPanic(cfg, cfg.senderExpects, cfg.receiverKey, AgreedNonce(cfg));
    if !SenderTrusts(cfg) {
      OverTalk(cfg, x);
    } else if pinRequired {
      GuessAsked(cfg, x, l);
    } else {
      ChallengeBegun(cfg, x, l);
    }
  }

  lemma RepliedStep(cfg: Config, x: System, side: Side, p: Packet)
    requires cfg.Valid() && Step(Behaviour(cfg), x, side).Some?
    requires ToLeftOnly(x, [cfg.json.Text(p)]) && Replies(cfg, x.left, x.right, p)
    ensures Talk(cfg, Step(Behaviour(cfg), x, side).value)
  {
    var next := Step(Behaviour(cfg), x, side).value;
    if side.Right? {
      RepliedSent(cfg, x, p);
    } else {
      hide Talk, Step, JudgeToken, SenderChallenge, SenderCheck, AskUser;
      TextToLeftRead(cfg, x, p);
      match p
      case Nonce(_) =>
        NonceToSender(cfg, x.left);
        TokenSaid(cfg, next);
      case TokenOk(_) =>
        ResponseRead(cfg, x.left, p);
        TokenJudged(cfg, next, x.left, false);
      case TokenPinRequired(_) =>
        ResponseRead(cfg, x.left, p);
        TokenJudged(cfg, next, x.left, true);
      case TokenInvalidSignature =>
        ResponseRead(cfg, x.left, p);
        OverTalk(cfg, next);
      case ReceivingOk =>
        ReplyTaken(cfg, x.left, p);
        ChallengeBegun(cfg, next, x.left);
      case ReceivingPinRequired =>
        ReplyTaken(cfg, x.left, p);
        GuessAsked(cfg, next, x.left);
      case ReceivingTooManyAttempts =>
        ReplyTaken(cfg, x.left, p);
        OverTalk(cfg, next);
      case Pin(guess) =>
        GuessReadBack(cfg, x.left, guess);
        SenderChecked(cfg, next, x.left.(tries := x.left.tries + 1), cfg.senderPin.value, guess, false);
    }
  }

  lemma TokenSaid(cfg: Config, x: System)
    requires x.left.outbox == [cfg.json.Text(TokenRequest(TokenOfSender(cfg)))]
    requires x.left.buffer == [] && x.left.files == cfg.files && Judging(cfg, x.left)
    requires x.toLeft == [] && x.toRight == [] && x.right.outbox == [] && x.right.buffer == []
    requires x.right.phase.ReceiverToken? && x.right.nonce == AgreedNonce(cfg) && x.right.tries == 0
    ensures Talk(cfg, x)
  {
    hide Stage, Over, Generate;
    var p := TokenRequest(TokenOfSender(cfg));
    NothingBefore([cfg.json.Text(p)]);
    assert ToRightOnly(x, [cfg.json.Text(p)]) && Asks(cfg, x.left, x.right, p);
  }

  lemma TalkStep(cfg: Config, x: System, side: Side)
    requires cfg.Valid() && !SpeaksUnasked(cfg) && Talk(cfg, x) && Step(Behaviour(cfg), x, side).Some?
    ensures Talk(cfg, Step(Behaviour(cfg), x, side).value)
  {
    hide Step, Stage, Over, NoticeCrossing, Asks, Replies, ToLeftOnly, ToRightOnly, SpeaksUnasked;
    if p :| ToRightOnly(x, [cfg.json.Text(p)]) && Asks(cfg, x.left, x.right, p) {
      AskedStep(cfg, x, side, p);
    } else if p :| ToLeftOnly(x, [cfg.json.Text(p)]) && Replies(cfg, x.left, x.right, p) {
      RepliedStep(cfg, x, side, p);
    } else if pieces, notice :| NoticeCrossing(cfg, x, pieces, notice) {
      NoticeStep(cfg, x, side, pieces, notice);
    } else if Over(x) {
      OverStep(cfg, x, side);
    } else {
      StageStep(cfg, x, side);
    }
  }

  lemma {:induction false} TalkRun(cfg: Config, x: System, schedule: seq<Side>)
    requires cfg.Valid() && !SpeaksUnasked(cfg) && Talk(cfg, x) && Run(Behaviour(cfg), x, schedule).Some?
    ensures Talk(cfg, Run(Behaviour(cfg), x, schedule).value)
    decreases |schedule|
  {
    hide Talk, Step, SpeaksUnasked;
    if schedule != [] {
      TalkStep(cfg, x, schedule[0]);
      TalkRun(cfg, Step(Behaviour(cfg), x, schedule[0]).value, schedule[1..]);
    }
  }

  lemma TalkBegins(cfg: Config)
    requires cfg.Valid()
    ensures Talk(cfg, Initial(cfg))
  {
    hide Stage, Over;
    var x, p := Initial(cfg), NoncePacket(cfg.senderNonce);
    NothingBefore([cfg.json.Text(p)]);
    assert ToRightOnly(x, [cfg.json.Text(p)]) && Asks(cfg, x.left, x.right, p);
  }

  /** Unless the receiver speaks unasked, the only send that can fail is that of a file's status. */
  lemma OnlyStatusesFail(cfg: Config, x: System, side: Side) returns (n: nat)
    requires cfg.Valid() && !SpeaksUnasked(cfg) && Reaches(Behaviour(cfg), Initial(cfg), x) && Refuse(x, side).Some?
    ensures cfg.selection.Some? && InStream(cfg, x, n)
  {
    hide SpeaksUnasked, Initial, Talk, InStream, Stage;
    var schedule :| Run(Behaviour(cfg), Initial(cfg), schedule) == Some(x);
    TalkBegins(cfg);
    TalkRun(cfg, Initial(cfg), schedule);
    TalkRefused(cfg, x, side);
    n := RefusedStatus(cfg, x, side);
  }

  /** In a session whose checks are passed, a failed send is that of a status behind the first. */
  lemma SuccessRefused(cfg: Config, x: System, side: Side)
    requires cfg.Valid() && Succeeds(cfg) && Reaches(Behaviour(cfg), Initial(cfg), x) && Refuse(x, side).Some?
    ensures cfg.selection.Some? && exists n :: Cuts(cfg, n) && ReportOf(Refuse(x, side).value) == CutReport(cfg, n)
  {
    SuccessIsAsked(cfg);
    hide Succeeds, SpeaksUnasked, Initial, Run, InStream, Cuts, CutReport, Refuse;
    var n := OnlyStatusesFail(cfg, x, side);
    StatusRefused(cfg, x, side, n);
  }

  lemma SuccessIsAsked(cfg: Config)
    ensures Succeeds(cfg) ==> !SpeaksUnasked(cfg)
  {}

  predicate CouldNotSend(x: System) {
    x.left.phase == Stopped(SendFailed) || x.right.phase == Stopped(SendFailed)
  }

  // ----- A receiver that speaks unasked

  /** The right process hears the next message of the left one. */
  lemma SayOne(cfg: Config, a: System, behind: seq<Message>)
    requires a.left.outbox != [] && a.left.outbox[1..] == behind && !a.left.phase.Answering?
    requires a.toRight == [] && a.right.outbox == [] && !a.right.phase.Stopped?
    ensures Reaches(Behaviour(cfg), a,
              a.(left := a.left.(outbox := behind), right := React(cfg, a.right, Some(a.left.outbox[0]))))
  {
    hide React;
    DeliverOne(Behaviour(cfg), a);
  }

  /** The left process hears the next message of the right one. */
  lemma HearOne(cfg: Config, a: System, behind: seq<Message>)
    requires a.right.outbox != [] && a.right.outbox[1..] == behind && !a.right.phase.Answering?
    requires a.toLeft == [] && a.left.outbox == [] && !a.left.phase.Stopped?
    ensures Reaches(Behaviour(cfg), a,
              a.(right := a.right.(outbox := behind), left := React(cfg, a.left, Some(a.right.outbox[0]))))
  {
    hide React;
    SayOne(cfg, Flip(a), behind);
    ReachesFlipped(Behaviour(cfg), a,
                   a.(right := a.right.(outbox := behind), left := React(cfg, a.left, Some(a.right.outbox[0]))));
  }

  function NoncesMet(cfg: Config): System {
    var x := Initial(cfg);
    x.(left := x.left.(nonce := AgreedNonce(cfg), phase := Phase.SenderToken,
                       outbox := [cfg.json.Text(TokenRequest(TokenOfSender(cfg)))]),
       right := x.right.(nonce := AgreedNonce(cfg), phase := Phase.ReceiverToken, outbox := []))
  }

  lemma NoncesExchanged(cfg: Config)
    requires cfg.Valid()
    ensures Reaches(Behaviour(cfg), Initial(cfg), NoncesMet(cfg))
  {
    hide Generate, React;
    var x, m := Initial(cfg), cfg.json.Text(NoncePacket(cfg.receiverNonce));
    NothingBefore([cfg.json.Text(NoncePacket(cfg.senderNonce))]);
    NonceToReceiver(cfg, x.right);
    var y := x.(left := x.left.(outbox := []),
                right := x.right.(nonce := AgreedNonce(cfg), phase := Phase.ReceiverToken, outbox := [m]));
    SayOne(cfg, x, []);
    NonceToSender(cfg, y.left);
    HearOne(cfg, y, []);
    ReachesTransitive(Behaviour(cfg), x, y, NoncesMet(cfg));
  }

  /** What the receiver says behind its request for a guess. */
  function SaidUnasked(cfg: Config): Packet
    requires cfg.receiverPin.Some?
  {
    if cfg.receiverPin.value.pin == "" then ReceivingOk else ReceivingTooManyAttempts
  }

  /** The sender has judged the receiver's token; what the receiver said unasked is still to be sent. */
  ghost predicate Unheard(cfg: Config, x: System, l: Peer)
    requires cfg.receiverPin.Some?
  {
    && x.toLeft == [] && x.toRight == [] && x.right.outbox == [cfg.json.Text(SaidUnasked(cfg))]
    && x.right.buffer == []
    && (if cfg.receiverPin.value.pin == "" then x.right.phase.ReceiverFiles?
        else x.right.phase == Stopped(TooManyTries))
    && l.outbox == [] && l.buffer == [] && l.used == 0
    && x.left == if SenderTrusts(cfg) then AskUser(cfg, l, cfg.senderGuesses, SenderGuessing) else l.End(Mistrusted)
  }

  lemma AnswerOutbox(cfg: Config, p: Peer)
    requires cfg.Valid() && SpeaksUnasked(cfg) && p.outbox == [] && p.tries == 0
    ensures var r := AnswerToken(cfg, p, TokenOfSender(cfg));
            && p.nonce == AgreedNonce(cfg) ==>
              && r.outbox == [cfg.json.Text(TokenPinRequired(TokenOfReceiver(cfg)))] + [cfg.json.Text(SaidUnasked(cfg))]
              && r.buffer == p.buffer
              && r.phase == if cfg.receiverPin.value.pin == "" then ReceiverFiles else Stopped(TooManyTries)
  {
    TrustExactly(cfg);
    hide Generate, OwnTokenBinds;
    NothingBefore([cfg.json.Text(TokenPinRequired(TokenOfReceiver(cfg)))]);
  }

  lemma UnheardReached(cfg: Config) returns (x: System, l: Peer)
    requires cfg.Valid() && SpeaksUnasked(cfg)
    ensures Reaches(Behaviour(cfg), Initial(cfg), x) && Unheard(cfg, x, l)
  {
    hide Generate, React, AnswerToken, AskUser;
    var a := NoncesMet(cfg);
    var answer, last := cfg.json.Text(TokenPinRequired(TokenOfReceiver(cfg))), [cfg.json.Text(SaidUnasked(cfg))];
    NoncesExchanged(cfg);
    TokenRead(cfg, a.right, TokenOfSender(cfg));
    AnswerOutbox(cfg, a.right);
    var b := a.(left := a.left.(outbox := []), right := AnswerToken(cfg, a.right, TokenOfSender(cfg)));
    SayOne(cfg, a, []);
    ResponseRead(cfg, b.left, TokenPinRequired(TokenOfReceiver(cfg)));
    HonestTokensDoNotPanic(cfg, cfg.senderExpects, cfg.receiverKey, AgreedNonce(cfg));
    assert b.right.outbox[1..] == last && b.right.outbox[0] == answer;
    HearOne(cfg, b, last);
    l := b.left;
    x := b.(right := b.right.(outbox := last), left := JudgeToken(cfg, l, TokenOfReceiver(cfg), true));
    ReachesTransitive(Behaviour(cfg), Initial(cfg), a, b);
    ReachesTransitive(Behaviour(cfg), Initial(cfg), b, x);
  }

  /** Some run from here ends with a process that could not send. */
  ghost predicate CanFail(cfg: Config, x: System) {
    exists y, side ::
      Reaches(Behaviour(cfg), x, y) && Refuse(y, side).Some? && CouldNotSend(Refuse(y, side).value)
  }

  lemma CanFailLater(cfg: Config, x: System, y: System)
    requires Reaches(Behaviour(cfg), x, y) && CanFail(cfg, y)
    ensures CanFail(cfg, x)
  {
    hide Refuse, CouldNotSend;
    var z, side :| Reaches(Behaviour(cfg), y, z) && Refuse(z, side).Some? && CouldNotSend(Refuse(z, side).value);
    ReachesTransitive(Behaviour(cfg), x, y, z);
  }

  lemma CanFailNow(cfg: Config, x: System, side: Side)
    requires Refuse(x, side).Some? && !x.left.phase.Answering? && !x.right.phase.Answering?
    ensures CanFail(cfg, x)
  {
    ReachesItself(Behaviour(cfg), x);
    assert CouldNotSend(Refuse(x, side).value);
  }

  /** The sender leaves, or sends a guess to a receiver that leaves. */
  lemma UnheardFails(cfg: Config, x: System, l: Peer)
    requires cfg.Valid() && cfg.receiverPin.Some? && Unheard(cfg, x, l)
    ensures CanFail(cfg, x)
  {
    hide SenderTrusts, React, Run;
    if !SenderTrusts(cfg) || cfg.senderGuesses == [] {
      CanFailNow(cfg, x, Right);
    } else {
      var guess := Pin(cfg.senderGuesses[0]);
      NothingBefore([cfg.json.Text(guess)]);
      if cfg.receiverPin.value.pin == "" {
        MistakenFails(cfg, x, guess.pin);
      } else {
        var y := x.(right := x.right.(outbox := []), toLeft := x.right.outbox);
        assert x.right.outbox[1..] == [] && [] + x.right.outbox == x.right.outbox;
        ReachesByStep(Behaviour(cfg), x, Right, y);
        CanFailNow(cfg, y, Left);
        CanFailLater(cfg, x, y);
      }
    }
  }

  /** The receiver takes the guess for a file list and leaves while the sender goes on. */
  lemma MistakenFails(cfg: Config, x: System, guess: string)
    requires cfg.Valid() && x.toLeft == [] && x.toRight == [] && x.right.outbox == [cfg.json.Text(ReceivingOk)]
    requires x.right.phase.ReceiverFiles? && x.right.buffer == []
    requires x.left.phase.SenderGuessing? && x.left.outbox == [cfg.json.Text(Pin(guess))]
    ensures CanFail(cfg, x)
  {
    hide React, SenderChallenge;
    var ok := cfg.json.Text(ReceivingOk);
    var y := x.(right := x.right.(outbox := []), toLeft := [ok]);
    assert [] + [ok] == [ok] && [ok][1..] == [];
    ReachesByStep(Behaviour(cfg), x, Right, y);
    GuessGarbles(cfg, y.right, guess);
    SayOne(cfg, y, []);
    var z := y.(left := y.left.(outbox := []), right := y.right.End(Garbled));
    ReplyTaken(cfg, z.left, ReceivingOk);
    var w := z.(left := SenderChallenge(cfg, z.left), toLeft := []);
    assert z.toRight + [] == z.toRight;
    ReachesByStep(Behaviour(cfg), z, Left, w);
    ChallengeSpeaks(cfg, z.left);
    CanFailNow(cfg, w, Left);
    CanFailLater(cfg, z, w);
    CanFailLater(cfg, y, z);
    CanFailLater(cfg, x, y);
  }

  lemma GuessGarbles(cfg: Config, r: Peer, guess: string)
    requires cfg.Valid() && r.phase.ReceiverFiles? && r.buffer == []
    ensures React(cfg, r, Some(cfg.json.Text(Pin(guess)))) == r.End(Garbled)
  {
    assert cfg.json.decode(PinSendingResponse, []).None?;
    assert r.(buffer := []) == r;
  }

  lemma ChallengeSpeaks(cfg: Config, l: Peer)
    ensures var q := SenderChallenge(cfg, l); q.outbox != [] && !q.phase.Answering?
  {}

  /** A receiver that speaks unasked makes a send fail in some run. */
  lemma UnaskedCanFail(cfg: Config)
    requires cfg.Valid() && SpeaksUnasked(cfg)
    ensures CanFail(cfg, Initial(cfg))
  {
    assert cfg.receiverPin.Some?;
    hide SpeaksUnasked, Initial, Unheard, CanFail;
    var x, l := UnheardReached(cfg);
    UnheardFails(cfg, x, l);
    CanFailLater(cfg, Initial(cfg), x);
  }
}
