/** What makes each of the two processes go on, whatever its peer sends. */
module Gates {
  import opened Prelude
  import opened Packets
  import opened PinChallenge
  import opened Tokens
  import opened Peers
  import Base64
  import FileStream
  import Strings

  /** A process after it has read these messages, sending what it says before each next one. */
  function Hears(cfg: Config, p: Peer, ms: seq<Message>): Peer
    decreases |ms|
  {
    if ms == [] then p else Hears(cfg, React(cfg, p.(outbox := []), Some(ms[0])), ms[1..])
  }

  // ----- Nonces and tokens

  /** A text that carries this nonce, of 16 to 128 bytes, in base64. */
  ghost predicate CarriesNonce(cfg: Config, m: Message, nonce: seq<byte>) {
    && m.Text? && cfg.json.decode(NonceMessage, m.data) == Some(Nonce(Base64.Encode(nonce)))
    && 16 <= |nonce| <= 128
  }

  /** A text that carries a nonce of another size. */
  ghost predicate WrongSize(cfg: Config, m: Message) {
    && m.Text?
    && exists nonce :: cfg.json.decode(NonceMessage, m.data) == Some(Nonce(Base64.Encode(nonce)))
         && !(16 <= |nonce| <= 128)
  }

  /** Nothing is expected, or the token binds the expected key and the nonce. */
  ghost predicate Trustworthy(cfg: Config, expects: Option<VerifyingKey>, token: string, nonce: seq<byte>) {
    expects.Some? ==> Binds(cfg.crypto, expects.value, Strings.Split(token, '.'), nonce)
  }

  lemma ReadNonceExactly(cfg: Config, data: seq<byte>)
    ensures forall nonce ::
              ReadNonce(cfg.json, data).0 == Some(nonce) <==> CarriesNonce(cfg, Message.Text(data), nonce)
    ensures ReadNonce(cfg.json, data).0.None? ==>
              ReadNonce(cfg.json, data).1 == if WrongSize(cfg, Message.Text(data)) then InvalidNonce else Garbled
  {
    WrongSizeExactly(cfg, data);
    forall nonce
      ensures ReadNonce(cfg.json, data).0 == Some(nonce) <==> CarriesNonce(cfg, Message.Text(data), nonce)
    {
      match cfg.json.decode(NonceMessage, data)
      case Some(Nonce(text)) => Base64.Canonical(text, nonce);
      case _ =>
    }
  }

  lemma WrongSizeExactly(cfg: Config, data: seq<byte>)
    ensures ReadNonce(cfg.json, data).0.None? ==>
              ReadNonce(cfg.json, data).1 == if WrongSize(cfg, Message.Text(data)) then InvalidNonce else Garbled
  {
    match cfg.json.decode(NonceMessage, data)
    case Some(Nonce(text)) =>
      forall nonce ensures Base64.Decode(text) == Some(nonce) <==> text == Base64.Encode(nonce) {
        Base64.Canonical(text, nonce);
      }
    case _ =>
  }

  lemma CheckTokenExactly(cfg: Config, expects: Option<VerifyingKey>, token: string, nonce: seq<byte>)
    ensures CheckToken(cfg, expects, token, nonce) == Accepted <==> Trustworthy(cfg, expects, token, nonce)
    ensures CheckToken(cfg, expects, token, nonce) == Panicked <==> expects.Some? && Strings.Count(token, '.') < 4
  {
    hide VerifyNonce, Binds;
    if expects.Some? {
      AcceptedExactlyWhenBound(cfg.crypto, expects.value, token, nonce);
      PanicsExactlyWhenShort(cfg.crypto, expects.value, token, nonce);
    }
  }

  /** The nonce of a message, or why there is none. */
  function NonceOf(cfg: Config, m: Message): (Option<seq<byte>>, Stop) {
    if m.Text? then ReadNonce(cfg.json, m.data) else (None, Garbled)
  }

  lemma NonceOfExactly(cfg: Config, m: Message)
    ensures forall nonce :: NonceOf(cfg, m).0 == Some(nonce) <==> CarriesNonce(cfg, m, nonce)
    ensures NonceOf(cfg, m).0.None? <==> forall nonce :: !CarriesNonce(cfg, m, nonce)
    ensures NonceOf(cfg, m).0.None? ==> NonceOf(cfg, m).1 == if WrongSize(cfg, m) then InvalidNonce else Garbled
  {
    ReadNonceExactly(cfg, m.data);
    hide ReadNonce;
    assert NonceOf(cfg, m).0.Some? ==> CarriesNonce(cfg, m, NonceOf(cfg, m).0.value);
  }

  lemma SenderReadsNonce(cfg: Config, p: Peer, m: Message)
    requires p.phase.SenderNonce? && p.outbox == []
    ensures React(cfg, p, Some(m))
            == match NonceOf(cfg, m).0
               case None => p.(phase := Stopped(NonceOf(cfg, m).1))
               case Some(nonce) =>
                 p.(phase := SenderToken, nonce := cfg.senderNonce + nonce,
                    outbox := [cfg.json.Text(TokenRequest(
                                 Generate(cfg.crypto, cfg.senderKey, cfg.senderNonce + nonce)))])
  {
    hide Generate, ReadNonce;
  }

  lemma ReceiverReadsNonce(cfg: Config, p: Peer, m: Message)
    requires p.phase.ReceiverNonce? && p.outbox == []
    ensures React(cfg, p, Some(m))
            == match NonceOf(cfg, m).0
               case None => p.(phase := Stopped(NonceOf(cfg, m).1))
               case Some(nonce) =>
                 p.(phase := ReceiverToken, nonce := nonce + cfg.receiverNonce,
                    outbox := [cfg.json.Text(Nonce(Base64.Encode(cfg.receiverNonce)))])
  {
    hide ReadNonce;
  }

  /** The sender's answer to any first message: with a valid nonce it goes on with both nonces and says
      its token over them; otherwise it stops. */
  lemma SenderTakesNonce(cfg: Config, p: Peer, m: Message)
    requires p.phase.SenderNonce? && p.outbox == []
    ensures var q := React(cfg, p, Some(m));
            && (forall nonce :: CarriesNonce(cfg, m, nonce) ==>
                  q == p.(phase := SenderToken, nonce := cfg.senderNonce + nonce,
                          outbox := [cfg.json.Text(TokenRequest(
                                       Generate(cfg.crypto, cfg.senderKey, cfg.senderNonce + nonce)))]))
            && ((forall nonce :: !CarriesNonce(cfg, m, nonce)) ==>
                  q == p.(phase := Stopped(if WrongSize(cfg, m) then InvalidNonce else Garbled)))
  {
    SenderReadsNonce(cfg, p, m);
    NonceOfExactly(cfg, m);
    hide React, Generate, NonceOf, CarriesNonce, WrongSize;
  }

  lemma ReceiverTakesNonce(cfg: Config, p: Peer, m: Message)
    requires p.phase.ReceiverNonce? && p.outbox == []
    ensures var q := React(cfg, p, Some(m));
            && (forall nonce :: CarriesNonce(cfg, m, nonce) ==>
                  q == p.(phase := ReceiverToken, nonce := nonce + cfg.receiverNonce,
                          outbox := [cfg.json.Text(Nonce(Base64.Encode(cfg.receiverNonce)))]))
            && ((forall nonce :: !CarriesNonce(cfg, m, nonce)) ==>
                  q == p.(phase := Stopped(if WrongSize(cfg, m) then InvalidNonce else Garbled)))
  {
    ReceiverReadsNonce(cfg, p, m);
    NonceOfExactly(cfg, m);
    hide React, NonceOf, CarriesNonce, WrongSize;
  }

  /** A text of the receiver that carries a token. */
  ghost predicate Responds(cfg: Config, m: Message, token: string, pinRequired: bool) {
    && m.Text?
    && cfg.json.decode(TokenResponse, m.data) == Some(if pinRequired then TokenPinRequired(token) else TokenOk(token))
  }

  /** The receiver says that the sender's token is invalid. */
  ghost predicate Refuses(cfg: Config, m: Message) {
    m.Text? && cfg.json.decode(TokenResponse, m.data) == Some(TokenInvalidSignature)
  }

  /** What a token that is not trusted leads to. */
  function Distrust(token: string): Stop {
    if Strings.Count(token, '.') < 4 then TokenPanic else Mistrusted
  }

  /** Behind the token check the sender can only be left by its user or refuse for want of tries. */
  ghost predicate SenderGoesOn(q: Peer) {
    || q.phase.SenderGuessing? || q.phase.SenderVerifying? || q.phase.SenderList?
    || q.phase == Stopped(NoGuess) || q.phase == Stopped(TooManyTries)
  }

  /** The sender goes on exactly with a token that binds what it expects. */
  lemma SenderTrustsExactly(cfg: Config, p: Peer, m: Message)
    requires p.phase.SenderToken?
    ensures var q := React(cfg, p, Some(m));
            && (SenderGoesOn(q) <==>
                  exists token, pinRequired ::
                    Responds(cfg, m, token, pinRequired) && Trustworthy(cfg, cfg.senderExpects, token, p.nonce))
            && (!SenderGoesOn(q) ==>
                  && q.outbox == p.outbox
                  && ((forall token, pinRequired :: !Responds(cfg, m, token, pinRequired)) ==>
                        q.phase == Stopped(if Refuses(cfg, m) then InvalidSignature else Garbled)))
            && (forall token, pinRequired ::
                  Responds(cfg, m, token, pinRequired) && !Trustworthy(cfg, cfg.senderExpects, token, p.nonce) ==>
                    q.phase == Stopped(Distrust(token)))
  {
    hide Trustworthy, Frame, NoticeMessages;
    if m.Text? {
      match cfg.json.decode(TokenResponse, m.data) {
        case Some(TokenOk(token)) =>
          CheckTokenExactly(cfg, cfg.senderExpects, token, p.nonce);
          assert Responds(cfg, m, token, false);
        case Some(TokenPinRequired(token)) =>
          CheckTokenExactly(cfg, cfg.senderExpects, token, p.nonce);
          assert Responds(cfg, m, token, true);
        case _ =>
      }
    }
  }

  ghost predicate Requests(cfg: Config, m: Message, token: string) {
    m.Text? && cfg.json.decode(TokenRequestMessage, m.data) == Some(TokenRequest(token))
  }

  ghost predicate ReceiverGoesOn(q: Peer) {
    q.phase.ReceiverFiles? || q.phase.ReceiverVerifying? || q.phase == Stopped(TooManyTries)
  }

  /** So does the receiver, which says so when it does not trust a token. */
  lemma ReceiverTrustsExactly(cfg: Config, p: Peer, m: Message)
    requires p.phase.ReceiverToken?
    ensures var q := React(cfg, p, Some(m));
            && (ReceiverGoesOn(q) <==>
                  exists token :: Requests(cfg, m, token) && Trustworthy(cfg, cfg.receiverExpects, token, p.nonce))
            && (!ReceiverGoesOn(q) ==>
                  if q.phase == Stopped(Mistrusted) then q.outbox == p.outbox + [cfg.json.Text(TokenInvalidSignature)]
                  else q.outbox == p.outbox)
            && ((forall token :: !Requests(cfg, m, token)) ==> q.phase == Stopped(Garbled))
            && (forall token :: Requests(cfg, m, token) && !Trustworthy(cfg, cfg.receiverExpects, token, p.nonce) ==>
                  q.phase == Stopped(Distrust(token)))
  {
    hide Trustworthy, NoticeMessages, Generate;
    if m.Text? {
      match cfg.json.decode(TokenRequestMessage, m.data) {
        case Some(TokenRequest(token)) =>
          CheckTokenExactly(cfg, cfg.receiverExpects, token, p.nonce);
          assert Requests(cfg, m, token);
        case _ =>
      }
    }
  }

  // ----- The PIN loops of the processes

  /** One turn of the sender's loop: a right guess is answered with the file list, a wrong one with a
      notice as long as there are tries left, and anything else ends it. */
  lemma SenderTakesGuess(cfg: Config, p: Peer, m: Message)
    requires p.phase.SenderVerifying? && p.outbox == [] && cfg.senderPin.Some?
    ensures var q, config, guess := React(cfg, p, Some(m)), cfg.senderPin.value, GuessIn(cfg.json, m);
            var counted := p.(tries := p.tries + 1);
            q == if guess.None? then p.End(Garbled)
                 else if guess.value == config.pin then
                   counted.(phase := SenderList, outbox := Frame(cfg.json.encode(SendingOk(cfg.files))))
                 else if p.tries + 1 >= config.maxTries then
                   counted.(phase := Stopped(TooManyTries), outbox := Frame(cfg.json.encode(SendingTooManyAttempts)))
                 else counted.(outbox := Frame(cfg.json.encode(SendingPinRequired)))
  {
    hide Frame;
    NothingBefore(Frame(cfg.json.encode(SendingOk(cfg.files))));
    NothingBefore(Frame(cfg.json.encode(SendingPinRequired)));
    NothingBefore(Frame(cfg.json.encode(SendingTooManyAttempts)));
  }

  lemma ReceiverTakesGuess(cfg: Config, p: Peer, m: Message)
    requires p.phase.ReceiverVerifying? && p.outbox == [] && cfg.receiverPin.Some?
    ensures var q, config, guess := React(cfg, p, Some(m)), cfg.receiverPin.value, GuessIn(cfg.json, m);
            var counted := p.(tries := p.tries + 1);
            q == if guess.None? then p.End(Garbled)
                 else if guess.value == config.pin then
                   counted.(phase := ReceiverFiles, outbox := [cfg.json.Text(ReceivingOk)])
                 else if p.tries + 1 >= config.maxTries then
                   counted.(phase := Stopped(TooManyTries), outbox := [cfg.json.Text(ReceivingTooManyAttempts)])
                 else counted.(outbox := [cfg.json.Text(ReceivingPinRequired)])
  {
    NothingBefore([cfg.json.Text(ReceivingOk)]);
    NothingBefore([cfg.json.Text(ReceivingPinRequired)]);
    NothingBefore([cfg.json.Text(ReceivingTooManyAttempts)]);
  }

  lemma NothingBefore(ms: seq<Message>)
    ensures [] + ms == ms
  {}

  // ----- The receiver's gate

  /** The receiver has just passed its checks and waits for the file list. */
  predicate Admitted(q: Peer) {
    q.phase.ReceiverFiles? && q.outbox != []
  }

  /** Behind the gate, and behind a stop, there is no way back to it. */
  lemma {:induction false} AdmittedOnce(cfg: Config, p: Peer, ms: seq<Message>)
    requires p.phase.ReceiverFiles? || p.phase.ReceiverGuessing? || p.phase.Receiving? || p.phase.Answering?
             || p.phase.Stopped?
    requires ms != []
    ensures !Admitted(Hears(cfg, p, ms))
    decreases |ms|
  {
    hide FileStream.OnMessage, FileStream.NextStatus, Frame;
    if |ms| > 1 {
      AdmittedOnce(cfg, React(cfg, p.(outbox := []), Some(ms[0])), ms[1..]);
    }
  }

  /** The guesses that pass the receiver's challenge with `t` counted before. */
  ghost predicate PassedBy(json: Json, config: PinConfig, ms: seq<Message>, t: nat) {
    && 0 < |ms| && t + |ms| <= config.maxTries
    && WrongTo(json, config, ms, |ms| - 1) && GuessIn(json, ms[|ms| - 1]) == Some(config.pin)
  }

  lemma PassedByTail(json: Json, config: PinConfig, ms: seq<Message>, t: nat)
    requires |ms| > 1
    ensures PassedBy(json, config, ms, t) <==>
              && GuessIn(json, ms[0]).Some? && GuessIn(json, ms[0]).value != config.pin
              && PassedBy(json, config, ms[1..], t + 1)
  {
    if PassedBy(json, config, ms, t) {
      assert forall i :: 0 <= i < |ms| - 2 ==> ms[1..][i] == ms[i + 1];
    }
    if PassedBy(json, config, ms[1..], t + 1) && GuessIn(json, ms[0]).Some?
      && GuessIn(json, ms[0]).value != config.pin {
      forall i | 0 <= i < |ms| - 1 ensures GuessIn(json, ms[i]).Some? && GuessIn(json, ms[i]).value != config.pin {
        if i > 0 {
          assert ms[1..][i - 1] == ms[i];
        }
      }
    }
  }

  lemma {:induction false} ReceiverLoop(cfg: Config, p: Peer, ms: seq<Message>)
    requires p.phase.ReceiverVerifying? && cfg.receiverPin.Some? && p.tries < cfg.receiverPin.value.maxTries
    ensures Admitted(Hears(cfg, p, ms)) <==> PassedBy(cfg.json, cfg.receiverPin.value, ms, p.tries)
    decreases |ms|
  {
    hide React, GuessIn;
    if ms != [] {
      var q, config := React(cfg, p.(outbox := []), Some(ms[0])), cfg.receiverPin.value;
      ReceiverTakesGuess(cfg, p.(outbox := []), ms[0]);
      if |ms| == 1 {
        assert ms[1..] == [];
      } else {
        PassedByTail(cfg.json, config, ms, p.tries);
        if q.phase.ReceiverVerifying? {
          ReceiverLoop(cfg, q, ms[1..]);
        } else {
          AdmittedOnce(cfg, q, ms[1..]);
        }
      }
    }
  }

  /** The PIN challenge of the receiver is passed by these messages. */
  ghost predicate PassesReceiverPin(cfg: Config, ms: seq<Message>) {
    match cfg.receiverPin
    case None => ms == []
    case Some(config) => Convinces(cfg.json, config, ms, |ms|)
  }

  lemma StoppedIsNotAdmitted(cfg: Config, p: Peer, ms: seq<Message>)
    requires p.phase.Stopped?
    ensures !Admitted(Hears(cfg, p, ms))
  {
    if ms != [] {
      AdmittedOnce(cfg, p, ms);
    }
  }

  lemma ConvincesAll(json: Json, config: PinConfig, ms: seq<Message>)
    ensures config.pin != "" ==> (Convinces(json, config, ms, |ms|) <==> PassedBy(json, config, ms, 0))
  {}

  /** From the token on. */
  lemma ReceiverFromToken(cfg: Config, p: Peer, ms: seq<Message>, token: string)
    requires p.phase.ReceiverToken? && p.tries == 0 && ms != [] && Requests(cfg, ms[0], token)
    requires Trustworthy(cfg, cfg.receiverExpects, token, p.nonce)
    ensures Admitted(Hears(cfg, p, ms)) <==> PassesReceiverPin(cfg, ms[1..])
  {
    hide Trustworthy, Generate, CheckToken;
    var q, rest := React(cfg, p.(outbox := []), Some(ms[0])), ms[1..];
    CheckTokenExactly(cfg, cfg.receiverExpects, token, p.nonce);
    assert q == AnswerToken(cfg, p.(outbox := []), token);
    if cfg.receiverPin.None? || cfg.receiverPin.value.pin == "" {
      assert Admitted(q);
      if rest != [] {
        AdmittedOnce(cfg, q, rest);
      }
    } else {
      ConvincesAll(cfg.json, cfg.receiverPin.value, rest);
      if cfg.receiverPin.value.maxTries == 0 {
        StoppedIsNotAdmitted(cfg, q, rest);
      } else {
        ReceiverLoop(cfg, q, rest);
      }
    }
  }

  /** A valid nonce, a token that binds what is expected to the two nonces, and guesses that pass the
      receiver's PIN. */
  ghost predicate PassesReceiver(cfg: Config, ms: seq<Message>, nonce: seq<byte>, token: string) {
    && |ms| >= 2 && CarriesNonce(cfg, ms[0], nonce) && Requests(cfg, ms[1], token)
    && Trustworthy(cfg, cfg.receiverExpects, token, nonce + cfg.receiverNonce)
    && PassesReceiverPin(cfg, ms[2..])
  }

  lemma OneNonce(cfg: Config, m: Message, a: seq<byte>, b: seq<byte>)
    requires CarriesNonce(cfg, m, a) && CarriesNonce(cfg, m, b)
    ensures a == b
  {
    Base64.RoundTrip(a);
    Base64.RoundTrip(b);
  }

  /** Whatever its peer sends, the receiver comes to wait for the file list exactly behind that. */
  lemma ReceiverGate(cfg: Config, ms: seq<Message>)
    ensures Admitted(Hears(cfg, StartReceiver(cfg), ms))
            <==> exists nonce, token :: PassesReceiver(cfg, ms, nonce, token)
  {
    hide React, CarriesNonce, Requests, Trustworthy, PassesReceiverPin, AnswerToken;
    if ms != [] {
      var start := StartReceiver(cfg);
      var q := React(cfg, start.(outbox := []), Some(ms[0]));
      ReceiverTakesNonce(cfg, start, ms[0]);
      assert start.(outbox := []) == start;
      if nonce :| CarriesNonce(cfg, ms[0], nonce) {
        forall other | CarriesNonce(cfg, ms[0], other) ensures other == nonce {
          OneNonce(cfg, ms[0], nonce, other);
        }
        if |ms| > 1 {
          ReceiverSecond(cfg, q, ms[1..]);
          assert ms[1..][0] == ms[1] && ms[1..][1..] == ms[2..];
          assert Admitted(Hears(cfg, start, ms)) == Admitted(Hears(cfg, q, ms[1..]));
          if token :| Requests(cfg, ms[1], token) && Trustworthy(cfg, cfg.receiverExpects, token, q.nonce)
                      && PassesReceiverPin(cfg, ms[2..]) {
            assert PassesReceiver(cfg, ms, nonce, token);
          }
        }
      } else {
        StoppedIsNotAdmitted(cfg, q, ms[1..]);
      }
    }
  }

  lemma ReceiverSecond(cfg: Config, q: Peer, ms: seq<Message>)
    requires q.phase.ReceiverToken? && q.tries == 0 && ms != []
    ensures Admitted(Hears(cfg, q, ms)) <==>
              exists token :: Requests(cfg, ms[0], token) && Trustworthy(cfg, cfg.receiverExpects, token, q.nonce)
                              && PassesReceiverPin(cfg, ms[1..])
  {
    hide React, Requests, Trustworthy, PassesReceiverPin;
    var p := q.(outbox := []);
    ReceiverTrustsExactly(cfg, p, ms[0]);
    if token :| Requests(cfg, ms[0], token) && Trustworthy(cfg, cfg.receiverExpects, token, q.nonce) {
      ReceiverFromToken(cfg, q, ms, token);
    } else {
      StoppedIsNotAdmitted(cfg, React(cfg, p, Some(ms[0])), ms[1..]);
    }
  }

  // ----- The sender's gate

  /** The sender has just passed its checks and says its file list. */
  predicate Offers(q: Peer) {
    q.phase.SenderList? && q.outbox != []
  }

  lemma {:induction false} OffersOnce(cfg: Config, p: Peer, ms: seq<Message>)
    requires p.phase.SenderList? || p.phase.SenderLast? || p.phase.Stopped?
    requires ms != []
    ensures !Offers(Hears(cfg, p, ms))
    decreases |ms|
  {
    hide FileStream.Stream;
    if |ms| > 1 {
      OffersOnce(cfg, React(cfg, p.(outbox := []), Some(ms[0])), ms[1..]);
    }
  }

  lemma StoppedDoesNotOffer(cfg: Config, p: Peer, ms: seq<Message>)
    requires p.phase.Stopped?
    ensures !Offers(Hears(cfg, p, ms))
  {
    if ms != [] {
      OffersOnce(cfg, p, ms);
    }
  }

  lemma {:induction false} SenderLoop(cfg: Config, p: Peer, ms: seq<Message>)
    requires p.phase.SenderVerifying? && cfg.senderPin.Some? && p.tries < cfg.senderPin.value.maxTries
    ensures Offers(Hears(cfg, p, ms)) <==> PassedBy(cfg.json, cfg.senderPin.value, ms, p.tries)
    decreases |ms|
  {
    hide React, GuessIn;
    if ms != [] {
      var q, config := React(cfg, p.(outbox := []), Some(ms[0])), cfg.senderPin.value;
      SenderTakesGuess(cfg, p.(outbox := []), ms[0]);
      if |ms| == 1 {
        assert ms[1..] == [];
      } else {
        PassedByTail(cfg.json, config, ms, p.tries);
        if q.phase.SenderVerifying? {
          SenderLoop(cfg, q, ms[1..]);
        } else {
          OffersOnce(cfg, q, ms[1..]);
        }
      }
    }
  }

  /** The sender's own PIN is passed by these messages; an empty one is none. */
  ghost predicate PassesSenderPin(cfg: Config, ms: seq<Message>) {
    match cfg.senderPin
    case None => ms == []
    case Some(config) => Convinces(cfg.json, config, ms, |ms|)
  }

  lemma SenderFromChallenge(cfg: Config, p: Peer, ms: seq<Message>)
    requires p.outbox == [] && p.tries == 0
    ensures Offers(Hears(cfg, SenderChallenge(cfg, p), ms)) <==> PassesSenderPin(cfg, ms)
  {
    hide Frame;
    var q := SenderChallenge(cfg, p);
    if cfg.senderPin.None? || cfg.senderPin.value.pin == "" {
      OfferIsSaid(cfg, p);
      if ms != [] {
        OffersOnce(cfg, q, ms);
      }
    } else {
      ConvincesAll(cfg.json, cfg.senderPin.value, ms);
      if cfg.senderPin.value.maxTries == 0 {
        StoppedDoesNotOffer(cfg, q, ms);
      } else {
        SenderLoop(cfg, q, ms);
      }
    }
  }

  lemma OfferIsSaid(cfg: Config, p: Peer)
    ensures SendFileList(cfg, p).outbox != []
  {}

  /** The `i`-th of the messages is a text reply of this kind. */
  ghost predicate IsReply(cfg: Config, m: Message, reply: Packet) {
    m.Text? && cfg.json.decode(PinReceivingResponse, m.data) == Some(reply)
  }

  /** `a` guesses, with `u` made before, are answered by requests to try again and then an approval. */
  ghost predicate Approved(cfg: Config, ms: seq<Message>, a: nat, u: nat) {
    && 0 < a <= |ms| && u + a <= |cfg.senderGuesses|
    && (forall i :: 0 <= i < a - 1 ==> IsReply(cfg, ms[i], ReceivingPinRequired))
    && IsReply(cfg, ms[a - 1], ReceivingOk)
  }

  lemma SenderTakesReply(cfg: Config, p: Peer, m: Message)
    requires p.phase.SenderGuessing?
    ensures var q := React(cfg, p, Some(m));
            q == if IsReply(cfg, m, ReceivingOk) then SenderChallenge(cfg, p)
                 else if IsReply(cfg, m, ReceivingPinRequired) then AskUser(cfg, p, cfg.senderGuesses, SenderGuessing)
                 else if IsReply(cfg, m, ReceivingTooManyAttempts) then p.End(TooManyTries)
                 else p.End(Garbled)
  {
    hide SenderChallenge, AskUser;
  }

  ghost predicate GuessesThrough(cfg: Config, ms: seq<Message>, u: nat) {
    exists a: nat :: Approved(cfg, ms, a, u) && PassesSenderPin(cfg, ms[a..])
  }

  lemma ApprovedTail(cfg: Config, ms: seq<Message>, u: nat)
    requires ms != [] && u < |cfg.senderGuesses|
    ensures GuessesThrough(cfg, ms, u) <==>
              || (IsReply(cfg, ms[0], ReceivingOk) && PassesSenderPin(cfg, ms[1..]))
              || (IsReply(cfg, ms[0], ReceivingPinRequired) && GuessesThrough(cfg, ms[1..], u + 1))
  {
    hide IsReply, PassesSenderPin;
    if a: nat :| Approved(cfg, ms, a, u) && PassesSenderPin(cfg, ms[a..]) {
      if a > 1 {
        assert ms[1..][a - 1..] == ms[a..] && ms[1..][a - 2] == ms[a - 1];
        assert forall i :: 0 <= i < a - 2 ==> ms[1..][i] == ms[i + 1];
        assert Approved(cfg, ms[1..], a - 1, u + 1);
      }
    }
    if IsReply(cfg, ms[0], ReceivingOk) && PassesSenderPin(cfg, ms[1..]) {
      assert Approved(cfg, ms, 1, u);
    }
    if IsReply(cfg, ms[0], ReceivingPinRequired) && GuessesThrough(cfg, ms[1..], u + 1) {
      var a: nat :| Approved(cfg, ms[1..], a, u + 1) && PassesSenderPin(cfg, ms[1..][a..]);
      assert ms[1..][a..] == ms[a + 1..] && ms[1..][a - 1] == ms[a];
      forall i | 0 <= i < a ensures IsReply(cfg, ms[i], ReceivingPinRequired) {
        if i > 0 {
          assert ms[1..][i - 1] == ms[i];
        }
      }
      assert Approved(cfg, ms, a + 1, u);
    }
  }

  lemma {:induction false} SenderGuesses(cfg: Config, p: Peer, ms: seq<Message>)
    requires p.tries == 0 && !p.phase.SenderList?
    ensures Offers(Hears(cfg, AskUser(cfg, p, cfg.senderGuesses, SenderGuessing), ms))
            <==> GuessesThrough(cfg, ms, p.used)
    decreases |ms|
  {
    hide React, IsReply, SenderChallenge, PassesSenderPin;
    var q := AskUser(cfg, p, cfg.senderGuesses, SenderGuessing);
    if p.used >= |cfg.senderGuesses| {
      StoppedDoesNotOffer(cfg, q, ms);
    } else if ms != [] {
      ApprovedTail(cfg, ms, p.used);
      var r := q.(outbox := []);
      SenderTakesReply(cfg, r, ms[0]);
      if IsReply(cfg, ms[0], ReceivingOk) {
        SenderFromChallenge(cfg, r, ms[1..]);
        OneReply(cfg, ms[0]);
      } else if IsReply(cfg, ms[0], ReceivingPinRequired) {
        SenderGuesses(cfg, r, ms[1..]);
      } else {
        StoppedDoesNotOffer(cfg, React(cfg, r, Some(ms[0])), ms[1..]);
      }
    }
  }

  lemma OneReply(cfg: Config, m: Message)
    ensures !(IsReply(cfg, m, ReceivingOk) && IsReply(cfg, m, ReceivingPinRequired))
  {}

  lemma ResponseAlone(cfg: Config, m: Message, a: string, b: string, x: bool, y: bool)
    requires Responds(cfg, m, a, x) && Responds(cfg, m, b, y)
    ensures a == b && x == y
  {}

  /** From the token on. */
  ghost predicate PassesFromToken(cfg: Config, nonce: seq<byte>, ms: seq<Message>, token: string, pinRequired: bool) {
    && ms != [] && Responds(cfg, ms[0], token, pinRequired) && Trustworthy(cfg, cfg.senderExpects, token, nonce)
    && if pinRequired then GuessesThrough(cfg, ms[1..], 0) else PassesSenderPin(cfg, ms[1..])
  }

  lemma SenderFromToken(cfg: Config, p: Peer, ms: seq<Message>)
    requires p.phase.SenderToken? && p.tries == 0 && p.used == 0
    ensures Offers(Hears(cfg, p, ms)) <==>
              exists token, pinRequired :: PassesFromToken(cfg, p.nonce, ms, token, pinRequired)
  {
    hide React, Trustworthy, Responds, GuessesThrough, PassesSenderPin;
    if ms != [] {
      var r := p.(outbox := []);
      var q := React(cfg, r, Some(ms[0]));
      SenderTrustsExactly(cfg, r, ms[0]);
      if token, pinRequired :|
           Responds(cfg, ms[0], token, pinRequired) && Trustworthy(cfg, cfg.senderExpects, token, p.nonce) {
        forall other, b | Responds(cfg, ms[0], other, b) ensures other == token && b == pinRequired {
          ResponseAlone(cfg, ms[0], token, other, pinRequired, b);
        }
        SenderJudges(cfg, r, ms[0], token, pinRequired);
        if pinRequired {
          SenderGuesses(cfg, r, ms[1..]);
        } else {
          SenderFromChallenge(cfg, r, ms[1..]);
        }
        assert Offers(Hears(cfg, p, ms)) ==> PassesFromToken(cfg, p.nonce, ms, token, pinRequired);
      } else {
        StoppedDoesNotOffer(cfg, q, ms[1..]);
      }
    }
  }

  lemma SenderJudges(cfg: Config, p: Peer, m: Message, token: string, pinRequired: bool)
    requires p.phase.SenderToken? && Responds(cfg, m, token, pinRequired)
    requires Trustworthy(cfg, cfg.senderExpects, token, p.nonce)
    ensures React(cfg, p, Some(m)) == if pinRequired then AskUser(cfg, p, cfg.senderGuesses, SenderGuessing)
                                      else SenderChallenge(cfg, p)
  {
    hide Trustworthy, AskUser, SenderChallenge, CheckToken;
    CheckTokenExactly(cfg, cfg.senderExpects, token, p.nonce);
  }

  /** A valid nonce, a token that binds what is expected to the two nonces, approval of the sender's
      guesses if a PIN is required, and guesses that pass its own PIN. */
  ghost predicate PassesSender(cfg: Config, ms: seq<Message>, nonce: seq<byte>, token: string, pinRequired: bool) {
    && ms != [] && CarriesNonce(cfg, ms[0], nonce)
    && PassesFromToken(cfg, cfg.senderNonce + nonce, ms[1..], token, pinRequired)
  }

  /** Whatever its peer sends, the sender says its file list exactly behind that. */
  lemma SenderGate(cfg: Config, ms: seq<Message>)
    ensures Offers(Hears(cfg, StartSender(cfg), ms))
            <==> exists nonce, token, pinRequired :: PassesSender(cfg, ms, nonce, token, pinRequired)
  {
    hide React, CarriesNonce, PassesFromToken;
    if ms != [] {
      var start := StartSender(cfg);
      var r := start.(outbox := []);
      var q := React(cfg, r, Some(ms[0]));
      SenderTakesNonce(cfg, r, ms[0]);
      if nonce :| CarriesNonce(cfg, ms[0], nonce) {
        forall other | CarriesNonce(cfg, ms[0], other) ensures other == nonce {
          OneNonce(cfg, ms[0], nonce, other);
        }
        SenderFromToken(cfg, q, ms[1..]);
        assert Offers(Hears(cfg, start, ms)) == Offers(Hears(cfg, q, ms[1..]));
        if token, pinRequired :| PassesFromToken(cfg, q.nonce, ms[1..], token, pinRequired) {
          assert PassesSender(cfg, ms, nonce, token, pinRequired);
        }
      } else {
        StoppedDoesNotOffer(cfg, q, ms[1..]);
      }
    }
  }

  // ----- Behind the gates

  /** The end of a frame, or of the messages, at the sender: only tokens make it send its files. */
  lemma SenderTakesFrame(cfg: Config, p: Peer, input: Option<Message>)
    requires p.phase.SenderList? && p.outbox == [] && (input.Some? ==> input.value.Text?)
    ensures var q, answer := React(cfg, p, input), cfg.json.decode(FileListResponse, p.buffer);
            && (forall tokens :: answer == Some(ListOk(tokens)) ==>
                  q == p.(buffer := [], phase := SenderLast(tokens),
                          outbox := FileStream.Stream(cfg.json, tokens, cfg.outgoing) + [DELIMITER]))
            && (q.phase == Stopped(Declined) <==> answer == Some(ListDeclined))
            && (q.phase == Stopped(InvalidSignature) <==> answer == Some(ListInvalidSignature))
            && (q.phase == Stopped(Pairing) <==> answer.Some? && answer.value.ListPair?)
            && (!q.phase.Stopped? <==> answer.Some? && answer.value.ListOk?)
            && (q.phase.Stopped? ==>
                  q.outbox == [] && q.phase.stop in {Declined, InvalidSignature, Pairing, Garbled, Closed})
            && (q.phase == Stopped(Closed) ==> input.None?) && (q.phase == Stopped(Garbled) ==> input.Some?)
  {
    hide FileStream.Stream;
    if answer :| cfg.json.decode(FileListResponse, p.buffer) == Some(answer) && answer.ListOk? {
      NothingBefore(FileStream.Stream(cfg.json, answer.tokens, cfg.outgoing) + [DELIMITER]);
    }
  }

  /** So at the receiver: only a file list makes it ask its user, whose choice it answers, and only a
      request makes it say a guess. */
  lemma ReceiverTakesFrame(cfg: Config, p: Peer, input: Option<Message>)
    requires (p.phase.ReceiverFiles? || p.phase.ReceiverGuessing?) && p.outbox == []
    requires input.Some? ==> input.value.Text?
    ensures var q, offer := React(cfg, p, input), cfg.json.decode(PinSendingResponse, p.buffer);
            && (forall files :: offer == Some(SendingOk(files)) ==>
                  q == if cfg.selection.None? then
                         p.(buffer := [], files := files, phase := Stopped(Declined),
                            outbox := Frame(cfg.json.encode(ListDeclined)))
                       else
                         p.(buffer := [], files := files,
                            phase := Receiving(cfg.FileTokens(), FileStream.Begin(cfg.results)),
                            outbox := Frame(cfg.json.encode(ListOk(cfg.FileTokens())))))
            && (offer == Some(SendingPinRequired) ==>
                  q == if p.used < |cfg.receiverGuesses| then
                         p.(buffer := [], used := p.used + 1, phase := ReceiverGuessing,
                            outbox := [cfg.json.Text(Pin(cfg.receiverGuesses[p.used]))])
                       else p.(buffer := [], phase := Stopped(NoGuess)))
            && (q.phase == Stopped(TooManyTries) <==> offer == Some(SendingTooManyAttempts))
            && ((offer.None? || offer.value.Kind() != PinSendingResponse) ==>
                  q == p.(buffer := [], phase := Stopped(if input.None? then Closed else Garbled)))
  {
    hide Frame;
    NothingBefore(Frame(cfg.json.encode(ListDeclined)));
    if cfg.selection.Some? {
      NothingBefore(Frame(cfg.json.encode(ListOk(cfg.FileTokens()))));
    }
    if p.used < |cfg.receiverGuesses| {
      NothingBefore([cfg.json.Text(Pin(cfg.receiverGuesses[p.used]))]);
    }
  }

  /** Binary messages are collected for the frame. */
  lemma FramesCollect(cfg: Config, p: Peer, data: seq<byte>)
    requires p.phase.ReadsFrame()
    ensures React(cfg, p, Some(Binary(data))) == p.(buffer := p.buffer + data)
  {}

  /** The user's choice: one fresh token for every picked file and for no other. */
  lemma TokensOfChoice(cfg: Config)
    requires cfg.selection.Some?
    ensures forall id :: id in cfg.FileTokens() <==> id in cfg.selection.value
    ensures forall id :: id in cfg.FileTokens() ==> cfg.FileTokens()[id] == cfg.freshToken(id)
  {}

  /** A process that waits for a text and hears a binary message, or that nothing more will come, stops. */
  lemma WaitsForText(cfg: Config, p: Peer, data: seq<byte>)
    requires p.phase.SenderNonce? || p.phase.SenderToken? || p.phase.SenderGuessing? || p.phase.ReceiverNonce?
             || p.phase.ReceiverToken?
    ensures React(cfg, p, Some(Binary(data))) == p.(phase := Stopped(Garbled))
    ensures React(cfg, p, None) == p.(phase := Stopped(Closed))
  {}

  /** A PIN loop takes guesses from either kind of message, and stops when nothing more will come. */
  lemma LoopHearsClose(cfg: Config, p: Peer)
    requires p.phase.SenderVerifying? || p.phase.ReceiverVerifying?
    ensures React(cfg, p, None) == p.(phase := Stopped(Closed))
  {}
}
