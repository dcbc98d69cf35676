/** `verify_pin` and `handle_pin`, the two ends of a PIN challenge. */
module PinChallenge {
  import opened Prelude
  import opened Packets

  datatype PinConfig = PinConfig(pin: string, maxTries: u8)

  // ----- The verifying end

  datatype Notice = PinRequired | TooManyAttempts

  datatype PinVerdict = Passed | TooMany | NotReceived | ParseFailed

  /** One pass over the top of the loop: the verdict reached, if any, and the notice sent. */
  datatype Check = Check(verdict: Option<PinVerdict>, notice: Option<Notice>)

  function CheckPin(config: PinConfig, remotePin: string, tries: nat, initialNotice: bool): Check {
    if remotePin == config.pin then Check(Some(Passed), None)
    else if tries >= config.maxTries then Check(Some(TooMany), Some(TooManyAttempts))
    else Check(None, if initialNotice || tries > 0 then Some(PinRequired) else None)
  }

  /** The sending peer answers in framed chunks, the receiving peer in plain texts. */
  function NoticePacket(inChunks: bool, notice: Notice): Packet {
    if inChunks then (if notice.PinRequired? then SendingPinRequired else SendingTooManyAttempts)
    else if notice.PinRequired? then ReceivingPinRequired
    else ReceivingTooManyAttempts
  }

  function NoticeMessages(json: Json, inChunks: bool, notice: Notice): seq<Message> {
    if inChunks then Frame(json.encode(if notice.PinRequired? then SendingPinRequired else SendingTooManyAttempts))
    else [json.Text(if notice.PinRequired? then ReceivingPinRequired else ReceivingTooManyAttempts)]
  }

  function Told(json: Json, inChunks: bool, notices: seq<Notice>): seq<Message> {
    if notices == [] then []
    else Told(json, inChunks, notices[..|notices| - 1]) + NoticeMessages(json, inChunks, notices[|notices| - 1])
  }

  lemma ToldOneMore(json: Json, inChunks: bool, notices: seq<Notice>, notice: Notice)
    ensures Told(json, inChunks, notices + [notice]) == Told(json, inChunks, notices)
            + NoticeMessages(json, inChunks, notice)
  {
    assert (notices + [notice])[..|notices|] == notices;
  }

  /** The loop variables, the notices sent so far and the messages still to come. */
  datatype Loop = Loop(remotePin: string, tries: nat, initialNotice: bool, notices: seq<Notice>, pending: seq<Message>)

  datatype Challenge = Challenge(verdict: PinVerdict, tries: nat, notices: seq<Notice>, unread: seq<Message>)

  function Verify(json: Json, config: PinConfig, at: Loop): (c: Challenge)
    requires at.tries <= config.maxTries
    ensures at.tries <= c.tries <= config.maxTries
    decreases |at.pending|
  {
    var check := CheckPin(config, at.remotePin, at.tries, at.initialNotice);
    var notices := if check.notice.Some? then at.notices + [check.notice.value] else at.notices;
    if check.verdict.Some? then Challenge(check.verdict.value, at.tries, notices, at.pending)
    else if at.pending == [] then Challenge(NotReceived, at.tries, notices, [])
    else
      match json.decode(PinMessage, at.pending[0].data)
      case Some(Pin(pin)) => Verify(json, config, Loop(pin, at.tries + 1, false, notices, at.pending[1..]))
      case _ => Challenge(ParseFailed, at.tries, notices, at.pending[1..])
  }

  method SendNotice(json: Json, channel: DataChannel, inChunks: bool, notice: Notice, ghost notices: seq<Notice>,
                    ghost before: seq<Message>)
    returns (ghost more: seq<Notice>)
    requires channel.sent == before + Told(json, inChunks, notices)
    modifies channel`sent
    ensures more == notices + [notice] && channel.sent == before + Told(json, inChunks, more)
  {
    hide Frame, Told;
    more := notices + [notice];
    ToldOneMore(json, inChunks, notices, notice);
    Associative(before, Told(json, inChunks, notices), NoticeMessages(json, inChunks, notice));
    if inChunks {
      channel.SendString(json.encode(if notice.PinRequired? then SendingPinRequired else SendingTooManyAttempts));
    } else {
      channel.Send(json.Text(if notice.PinRequired? then ReceivingPinRequired else ReceivingTooManyAttempts));
    }
  }

  /** The loop on a data channel. The counter is a u8 and never overflows. */
  method VerifyPin(json: Json, config: PinConfig, channel: DataChannel, sendInitialNotice: bool, inChunks: bool)
    returns (verdict: PinVerdict, pinTry: u8)
    modifies channel
    ensures var c := Verify(json, config, Loop("", 0, sendInitialNotice, [], old(channel.pending)));
            && verdict == c.verdict && pinTry == c.tries && channel.pending == c.unread
            && channel.sent == old(channel.sent) + Told(json, inChunks, c.notices)
  {
    var remotePin := "";
    pinTry := 0;
    var initialNotice := sendInitialNotice;
    ghost var notices: seq<Notice> := [];
    ghost var challenge := Verify(json, config, Loop("", 0, sendInitialNotice, [], channel.pending));
    while true
      invariant pinTry <= config.maxTries
      invariant challenge == Verify(json, config, Loop(remotePin, pinTry, initialNotice, notices, channel.pending))
      invariant channel.sent == old(channel.sent) + Told(json, inChunks, notices)
      decreases |channel.pending|
    {
      if remotePin == config.pin {
        return Passed, pinTry;
      }
      if pinTry >= config.maxTries {
        notices := SendNotice(json, channel, inChunks, TooManyAttempts, notices, old(channel.sent));
        return TooMany, pinTry;
      }
      if initialNotice || pinTry > 0 {
        initialNotice := false;
        notices := SendNotice(json, channel, inChunks, PinRequired, notices, old(channel.sent));
      }
      var m := channel.Receive();
      if m.None? {
        return NotReceived, pinTry;
      }
      var request := json.decode(PinMessage, m.value.data);
      if request.None? || !request.value.Pin? {
        return ParseFailed, pinTry;
      }
      remotePin := request.value.pin;
      pinTry := pinTry + 1;
    }
  }

  /** The honest guesser's messages. */
  function Guesses(json: Json, guesses: seq<string>): (ms: seq<Message>)
    ensures |ms| == |guesses|
  {
    seq(|guesses|, i requires 0 <= i < |guesses| => json.Text(Pin(guesses[i])))
  }

  /** Position of the first right guess, or the number of guesses when there is none. */
  function FirstRight(pin: string, guesses: seq<string>): (k: nat)
    ensures k <= |guesses|
    ensures k < |guesses| ==> guesses[k] == pin
    ensures forall i :: 0 <= i < k ==> guesses[i] != pin
  {
    if guesses == [] || guesses[0] == pin then 0 else 1 + FirstRight(pin, guesses[1..])
  }

  lemma {:induction false} VerifyGuesses(json: Json, config: PinConfig, at: Loop, guesses: seq<string>)
    requires json.Lawful() && at.pending == Guesses(json, guesses)
    requires at.remotePin != config.pin && at.tries <= config.maxTries
    ensures var c := Verify(json, config, at);
            var k := FirstRight(config.pin, guesses);
            var waits := c.tries - at.tries + if c.verdict == NotReceived then 1 else 0;
            && c.verdict != ParseFailed
            && (c.verdict == Passed <==> k < |guesses| && at.tries + k < config.maxTries)
            && (c.verdict == TooMany <==> config.maxTries <= at.tries + k)
            && (c.verdict == Passed ==> c.tries == at.tries + k + 1)
            && (c.verdict == TooMany ==> c.tries == config.maxTries)
            && |c.notices| == |at.notices| + waits
                              - (if waits > 0 && at.tries == 0 && !at.initialNotice then 1 else 0)
                              + (if c.verdict == TooMany then 1 else 0)
    decreases |guesses|
  {
    if at.tries < config.maxTries && guesses != [] {
      var notices := if at.initialNotice || at.tries > 0 then at.notices + [PinRequired] else at.notices;
      var next := Loop(guesses[0], at.tries + 1, false, notices, at.pending[1..]);
      assert json.decode(PinMessage, at.pending[0].data) == Some(Pin(guesses[0])) by {
        assert Pin(guesses[0]).Kind() == PinMessage;
      }
      assert Verify(json, config, at) == Verify(json, config, next);
      if guesses[0] != config.pin {
        VerifyGuesses(json, config, next, guesses[1..]);
      }
    }
  }

  /** A non-empty PIN is accepted exactly when it is among the first `maxTries` guesses; the k-th
      guess is then the last one read, after k-1 retry notices. */
  lemma VerdictExact(json: Json, config: PinConfig, sendInitialNotice: bool, guesses: seq<string>)
    requires json.Lawful() && config.pin != ""
    ensures var c := Verify(json, config, Loop("", 0, sendInitialNotice, [], Guesses(json, guesses)));
            && (c.verdict == Passed <==>
                  exists i :: 0 <= i < |guesses| && i < config.maxTries && guesses[i] == config.pin)
            && (c.verdict == Passed ==>
                  && 0 < c.tries <= |guesses|
                  && guesses[c.tries - 1] == config.pin && config.pin !in guesses[..c.tries - 1]
                  && |c.notices| == c.tries - 1 + if sendInitialNotice then 1 else 0)
  {
    VerifyGuesses(json, config, Loop("", 0, sendInitialNotice, [], Guesses(json, guesses)), guesses);
  }

  // ----- The verdict on any messages at all

  /** The PIN a message carries, text or binary, if it is a PIN message. */
  function GuessIn(json: Json, m: Message): Option<string> {
    match json.decode(PinMessage, m.data)
    case Some(Pin(pin)) => Some(pin)
    case _ => None
  }

  /** The first `k` messages are guesses, and all are wrong. */
  ghost predicate WrongTo(json: Json, config: PinConfig, ms: seq<Message>, k: nat) {
    k <= |ms| && forall i :: 0 <= i < k ==> GuessIn(json, ms[i]).Some? && GuessIn(json, ms[i]).value != config.pin
  }

  /** The first `k` messages make the verifier accept: none for an empty PIN, else wrong guesses and
      then the right one, within the tries. */
  ghost predicate Convinces(json: Json, config: PinConfig, ms: seq<Message>, k: nat) {
    if config.pin == "" then k == 0
    else 0 < k <= config.maxTries && WrongTo(json, config, ms, k - 1) && k <= |ms|
         && GuessIn(json, ms[k - 1]) == Some(config.pin)
  }

  /** They make it fail to parse: wrong guesses and then no guess, while tries are left. */
  ghost predicate Confuses(json: Json, config: PinConfig, ms: seq<Message>, k: nat) {
    && config.pin != "" && 0 < k <= config.maxTries
    && WrongTo(json, config, ms, k - 1) && k <= |ms| && GuessIn(json, ms[k - 1]) == None
  }

  /** They make it refuse: as many wrong guesses as it allows. */
  ghost predicate Exhausts(json: Json, config: PinConfig, ms: seq<Message>, k: nat) {
    config.pin != "" && k == config.maxTries && WrongTo(json, config, ms, k)
  }

  /** They are all there are and leave it waiting: wrong guesses only, with tries left. */
  ghost predicate LeavesWaiting(json: Json, config: PinConfig, ms: seq<Message>, k: nat) {
    config.pin != "" && k == |ms| && k < config.maxTries && WrongTo(json, config, ms, k)
  }

  /** The verdict and the count that go with the `k` messages read. */
  ghost predicate Reached(json: Json, config: PinConfig, c: Challenge, ms: seq<Message>, k: nat) {
    && k <= |ms| && c.unread == ms[k..]
    && match c.verdict
       case Passed => Convinces(json, config, ms, k) && c.tries == k
       case ParseFailed => Confuses(json, config, ms, k) && c.tries == k - 1
       case TooMany => Exhausts(json, config, ms, k) && c.tries == k
       case NotReceived => LeavesWaiting(json, config, ms, k) && c.tries == k
  }

  /** One turn of the loop behind a wrong guess, or the first. */
  lemma VerifyTurn(json: Json, config: PinConfig, at: Loop)
    requires at.tries <= config.maxTries && at.remotePin != config.pin
    ensures var c := Verify(json, config, at);
            if at.tries == config.maxTries then
              c.verdict == TooMany && c.tries == at.tries && c.unread == at.pending
            else if at.pending == [] then
              c.verdict == NotReceived && c.tries == at.tries && c.unread == []
            else
              match GuessIn(json, at.pending[0])
              case None => c.verdict == ParseFailed && c.tries == at.tries && c.unread == at.pending[1..]
              case Some(pin) =>
                var notices := if at.initialNotice || at.tries > 0 then at.notices + [PinRequired] else at.notices;
                c == Verify(json, config, Loop(pin, at.tries + 1, false, notices, at.pending[1..]))
                && (pin == config.pin ==> c.verdict == Passed && c.tries == at.tries + 1 && c.unread == at.pending[1..])
  {}

  lemma {:induction false} VerifyReads(json: Json, config: PinConfig, at: Loop, ms: seq<Message>) returns (k: nat)
    requires at.tries <= |ms| && at.tries <= config.maxTries && at.remotePin != config.pin && config.pin != ""
    requires at.pending == ms[at.tries..] && WrongTo(json, config, ms, at.tries)
    ensures Reached(json, config, Verify(json, config, at), ms, k)
    decreases |at.pending|
  {
    hide Verify, GuessIn;
    VerifyTurn(json, config, at);
    k := at.tries;
    if at.tries < config.maxTries && at.pending != [] {
      var m, rest := at.pending[0], at.pending[1..];
      assert m == ms[at.tries] && rest == ms[at.tries + 1..];
      k := at.tries + 1;
      if GuessIn(json, m).Some? && GuessIn(json, m).value != config.pin {
        var notices := if at.initialNotice || at.tries > 0 then at.notices + [PinRequired] else at.notices;
        k := VerifyReads(json, config, Loop(GuessIn(json, m).value, at.tries + 1, false, notices, rest), ms);
      }
    }
  }

  ghost predicate Decides(json: Json, config: PinConfig, ms: seq<Message>, k: nat) {
    || Convinces(json, config, ms, k) || Confuses(json, config, ms, k)
    || Exhausts(json, config, ms, k) || LeavesWaiting(json, config, ms, k)
  }

  /** At most one number of messages decides, and in one way only. */
  lemma OneDecides(json: Json, config: PinConfig, ms: seq<Message>, j: nat, k: nat)
    requires Decides(json, config, ms, j) && Decides(json, config, ms, k)
    ensures j == k
    ensures Convinces(json, config, ms, k) ==>
              !Confuses(json, config, ms, k) && !Exhausts(json, config, ms, k) && !LeavesWaiting(json, config, ms, k)
    ensures Confuses(json, config, ms, k) ==> !Exhausts(json, config, ms, k) && !LeavesWaiting(json, config, ms, k)
    ensures Exhausts(json, config, ms, k) ==> !LeavesWaiting(json, config, ms, k)
  {}

  /** `verify_pin` on every message sequence, well-formed or not: it ends in each way exactly if some
      number of the messages decides so, and then with exactly those read and the guesses among them
      counted. */
  lemma VerifyExact(json: Json, config: PinConfig, sendInitialNotice: bool, ms: seq<Message>) returns (k: nat)
    ensures var c := Verify(json, config, Loop("", 0, sendInitialNotice, [], ms));
            && Reached(json, config, c, ms, k)
            && (c.verdict == Passed <==> exists n :: Convinces(json, config, ms, n))
            && (c.verdict == ParseFailed <==> exists n :: Confuses(json, config, ms, n))
            && (c.verdict == TooMany <==> exists n :: Exhausts(json, config, ms, n))
            && (c.verdict == NotReceived <==> exists n :: LeavesWaiting(json, config, ms, n))
  {
    assert ms[0..] == ms;
    if config.pin == "" {
      k := 0;
    } else {
      k := VerifyReads(json, config, Loop("", 0, sendInitialNotice, [], ms), ms);
    }
    assert Decides(json, config, ms, k);
    forall n: nat | Decides(json, config, ms, n)
      ensures n == k
    {
      OneDecides(json, config, ms, n, k);
    }
    OneDecides(json, config, ms, k, k);
    hide Verify, Convinces, Confuses, Exhausts, LeavesWaiting;
  }

  /** What the verifier has said by then: a request for each wait but an unannounced first one, and its
      refusal. */
  ghost predicate Says(initialNotice: bool, tries: nat, c: Challenge, said: seq<Notice>) {
    var waits := c.tries - tries + if c.verdict == NotReceived || c.verdict == ParseFailed then 1 else 0;
    var asked := if waits > 0 && !initialNotice && tries == 0 then waits - 1 else waits;
    && |said| == asked + (if c.verdict == TooMany then 1 else 0)
    && forall i :: 0 <= i < |said| ==> said[i] == if i < asked then PinRequired else TooManyAttempts
  }

  function Asked(at: Loop): seq<Notice> {
    if at.initialNotice || at.tries > 0 then [PinRequired] else []
  }

  /** The last turn of the loop. */
  lemma LastTurnSays(json: Json, config: PinConfig, at: Loop)
    requires at.tries <= config.maxTries
    requires at.remotePin == config.pin || at.tries == config.maxTries || at.pending == []
             || GuessIn(json, at.pending[0]).None?
    ensures var c := Verify(json, config, at);
            at.notices <= c.notices && Says(at.initialNotice, at.tries, c, c.notices[|at.notices|..])
  {
    var c := Verify(json, config, at);
    var said := c.notices[|at.notices|..];
    assert said == if c.verdict == Passed then [] else if c.verdict == TooMany then [TooManyAttempts] else Asked(at);
  }

  lemma SaysMore(at: Loop, c: Challenge, later: seq<Notice>)
    requires at.tries < c.tries && Says(false, at.tries + 1, c, later)
    ensures Says(at.initialNotice, at.tries, c, Asked(at) + later)
  {}

  lemma {:induction false} VerifySays(json: Json, config: PinConfig, at: Loop)
    requires at.tries <= config.maxTries
    ensures var c := Verify(json, config, at);
            at.notices <= c.notices && Says(at.initialNotice, at.tries, c, c.notices[|at.notices|..])
    decreases |at.pending|
  {
    if at.remotePin != config.pin && at.tries < config.maxTries && at.pending != []
       && GuessIn(json, at.pending[0]).Some? {
      var next := Loop(GuessIn(json, at.pending[0]).value, at.tries + 1, false, at.notices + Asked(at),
                       at.pending[1..]);
      assert at.notices + [] == at.notices;
      VerifyTurn(json, config, at);
      VerifySays(json, config, next);
      hide Verify, Says, Asked;
      var c := Verify(json, config, next);
      assert c.notices[|at.notices|..] == Asked(at) + c.notices[|next.notices|..];
      SaysMore(at, c, c.notices[|next.notices|..]);
    } else {
      LastTurnSays(json, config, at);
    }
  }

  // ----- The guessing end

  datatype Answer<T> = Solved(value: T) | Retry | TooManyGuesses | Unparsed

  datatype Outcome<T> = Done(value: T) | GaveUp | Refused | Broken

  datatype Guessing<T> = Guessing(outcome: Outcome<T>, used: nat, unread: seq<Message>)

  /** One reply: its bytes and what is left unread, or nothing when it is not a text or is missing. */
  function ReadReply(inChunks: bool, pending: seq<Message>): (Option<seq<byte>>, seq<Message>) {
    if inChunks then (Some(ReadFrame(pending).0), ReadFrame(pending).1)
    else if pending == [] then (None, [])
    else if pending[0].Binary? then (None, pending[1..])
    else (Some(pending[0].data), pending[1..])
  }

  /** The user supplies `guesses` one by one and leaves after the last. */
  function Guess<T>(guesses: seq<string>, used: nat, inChunks: bool, parse: seq<byte> -> Answer<T>,
                    pending: seq<Message>): Guessing<T>
    requires used <= |guesses|
    decreases |guesses| - used
  {
    if used == |guesses| then Guessing(GaveUp, used, pending)
    else
      var (reply, unread) := ReadReply(inChunks, pending);
      if reply.None? then Guessing(Broken, used + 1, unread)
      else
        match parse(reply.value)
        case Solved(value) => Guessing(Done(value), used + 1, unread)
        case Retry => Guess(guesses, used + 1, inChunks, parse, unread)
        case TooManyGuesses => Guessing(Refused, used + 1, unread)
        case Unparsed => Guessing(Broken, used + 1, unread)
  }

  method HandlePin<T>(json: Json, guesses: seq<string>, channel: DataChannel, inChunks: bool,
                      parse: seq<byte> -> Answer<T>)
    returns (outcome: Outcome<T>, used: nat)
    modifies channel
    ensures var g := Guess(guesses, 0, inChunks, parse, old(channel.pending));
            && outcome == g.outcome && used == g.used <= |guesses| && channel.pending == g.unread
            && channel.sent == old(channel.sent) + Guesses(json, guesses[..used])
  {
    used := 0;
    while used < |guesses|
      invariant used <= |guesses|
      invariant Guess(guesses, 0, inChunks, parse, old(channel.pending))
                == Guess(guesses, used, inChunks, parse, channel.pending)
      invariant channel.sent == old(channel.sent) + Guesses(json, guesses[..used])
    {
      channel.Send(json.Text(Pin(guesses[used])));
      used := used + 1;
      assert Guesses(json, guesses[..used]) == Guesses(json, guesses[..used - 1]) + [json.Text(Pin(guesses[used - 1]))];
      var bytes;
      if inChunks {
        bytes := channel.ReceiveString();
      } else {
        var reply := channel.Receive();
        if reply.None? || reply.value.Binary? {
          return Broken, used;
        }
        bytes := reply.value.data;
      }
      match parse(bytes) {
        case Solved(value) => return Done(value), used;
        case Retry =>
        case TooManyGuesses => return Refused, used;
        case Unparsed => return Broken, used;
      }
    }
    return GaveUp, used;
  }

  // ----- The guesser's outcome on any messages at all

  /** The `n`-th reply: a frame, or a text message. */
  function Reply(inChunks: bool, pending: seq<Message>, n: nat): Option<seq<byte>> {
    if inChunks then Some(ReadFrame(ReadFrames(pending, n).1).0)
    else if n < |pending| && pending[n].Text? then Some(pending[n].data)
    else None
  }

  /** What is behind the first `n` replies. */
  function Behind(inChunks: bool, pending: seq<Message>, n: nat): seq<Message> {
    if inChunks then ReadFrames(pending, n).1 else if n <= |pending| then pending[n..] else []
  }

  ghost predicate AllRetry<T(!new)>(inChunks: bool, parse: seq<byte> -> Answer<T>, pending: seq<Message>, n: nat) {
    forall i :: 0 <= i < n ==> Reply(inChunks, pending, i).Some? && parse(Reply(inChunks, pending, i).value) == Retry
  }

  lemma ReplyShift(inChunks: bool, pending: seq<Message>, n: nat)
    requires inChunks || pending != []
    ensures var (_, unread) := ReadReply(inChunks, pending);
            && Reply(inChunks, pending, n + 1) == Reply(inChunks, unread, n)
            && Behind(inChunks, pending, n + 1) == Behind(inChunks, unread, n)
  {}

  lemma FirstReply(inChunks: bool, pending: seq<Message>)
    ensures ReadReply(inChunks, pending) == (Reply(inChunks, pending, 0), Behind(inChunks, pending, 1))
  {
    assert inChunks ==> ReadFrames(pending, 1).1 == ReadFrames(ReadFrame(pending).1, 0).1;
  }

  /** With `left` guesses left, `n` replies asked for a retry, and the next one, or its absence, or the
      last guess decided. */
  ghost predicate Ended<T(!new)>(g: Guessing<T>, used: nat, left: nat, inChunks: bool, parse: seq<byte> -> Answer<T>,
                                 pending: seq<Message>, n: nat)
  {
    var last := Reply(inChunks, pending, n);
    var read := if g.outcome == GaveUp then n else n + 1;
    && AllRetry(inChunks, parse, pending, n)
    && read <= left && g.used == used + read && g.unread == Behind(inChunks, pending, read)
    && match g.outcome
       case GaveUp => n == left
       case Done(value) => last.Some? && parse(last.value) == Solved(value)
       case Refused => last.Some? && parse(last.value) == TooManyGuesses
       case Broken => last.None? || parse(last.value) == Unparsed
  }

  lemma EndedMore<T(!new)>(g: Guessing<T>, used: nat, left: nat, inChunks: bool, parse: seq<byte> -> Answer<T>,
                           pending: seq<Message>, n: nat)
    requires ReadReply(inChunks, pending).0.Some? && parse(ReadReply(inChunks, pending).0.value) == Retry
    requires Ended(g, used + 1, left, inChunks, parse, ReadReply(inChunks, pending).1, n)
    ensures Ended(g, used, left + 1, inChunks, parse, pending, n + 1)
  {
    hide ReadReply, Reply, Behind;
    FirstReply(inChunks, pending);
    SomeReply(inChunks, pending);
    var unread := ReadReply(inChunks, pending).1;
    forall i: nat
      ensures Reply(inChunks, pending, i + 1) == Reply(inChunks, unread, i)
      ensures Behind(inChunks, pending, i + 1) == Behind(inChunks, unread, i)
    {
      ReplyShift(inChunks, pending, i);
    }
    forall i | 0 <= i < n + 1
      ensures Reply(inChunks, pending, i).Some? && parse(Reply(inChunks, pending, i).value) == Retry
    {
      if i > 0 {
        assert Reply(inChunks, pending, (i - 1) + 1) == Reply(inChunks, unread, i - 1);
      }
    }
  }

  /** `handle_pin` on every message sequence. */
  lemma {:induction false} GuessExact<T(!new)>(guesses: seq<string>, used: nat, inChunks: bool,
                                               parse: seq<byte> -> Answer<T>, pending: seq<Message>)
    returns (n: nat)
    requires used <= |guesses|
    ensures Ended(Guess(guesses, used, inChunks, parse, pending), used, |guesses| - used, inChunks, parse, pending, n)
    decreases |guesses| - used
  {
    n := 0;
    var (reply, unread) := ReadReply(inChunks, pending);
    if used < |guesses| && reply.Some? && parse(reply.value) == Retry {
      var m := GuessExact(guesses, used + 1, inChunks, parse, unread);
      hide Ended;
      EndedMore(Guess(guesses, used + 1, inChunks, parse, unread), used, |guesses| - used - 1, inChunks, parse,
                pending, m);
      n := m + 1;
    } else {
      hide ReadReply, Reply, Behind;
      FirstReply(inChunks, pending);
      NothingBehind(inChunks, pending);
    }
  }

  lemma NothingBehind(inChunks: bool, pending: seq<Message>)
    ensures Behind(inChunks, pending, 0) == pending
  {}

  lemma SomeReply(inChunks: bool, pending: seq<Message>)
    requires ReadReply(inChunks, pending).0.Some?
    ensures inChunks || pending != []
  {}

  // ----- The two ends together

  /** How the sender reads a reply to its guess. */
  function ParseReceiving(json: Json): seq<byte> -> Answer<()> {
    (data: seq<byte>) =>
      match json.decode(PinReceivingResponse, data)
      case Some(ReceivingOk) => Solved(())
      case Some(ReceivingPinRequired) => Retry
      case Some(ReceivingTooManyAttempts) => TooManyGuesses
      case _ => Unparsed
  }

  /** How the receiver reads a reply to its guess: the approval is the file list. */
  function ParseSending(json: Json): seq<byte> -> Answer<seq<FileDto>> {
    (data: seq<byte>) =>
      match json.decode(PinSendingResponse, data)
      case Some(SendingOk(files)) => Solved(files)
      case Some(SendingPinRequired) => Retry
      case Some(SendingTooManyAttempts) => TooManyGuesses
      case _ => Unparsed
  }

  function Approval(json: Json, inChunks: bool, approval: Packet): seq<Message> {
    if inChunks then Frame(json.encode(approval)) else [json.Text(approval)]
  }

  /** The guesser reads each notice and the approval for what it is. */
  ghost predicate Understands<T(!new)>(json: Json, inChunks: bool, parse: seq<byte> -> Answer<T>, approval: Packet,
                                       value: T)
  {
    && parse(json.encode(if inChunks then SendingPinRequired else ReceivingPinRequired)) == Retry
    && parse(json.encode(if inChunks then SendingTooManyAttempts else ReceivingTooManyAttempts)) == TooManyGuesses
    && parse(json.encode(approval)) == Solved(value)
  }

  /** Whatever the bytes, a reply is taken for an approval, a refusal or a request only if it is one. */
  lemma RepliesTaken(json: Json, data: seq<byte>)
    ensures var r := json.decode(PinReceivingResponse, data);
            && (ParseReceiving(json)(data) == Solved(()) <==> r == Some(ReceivingOk))
            && (ParseReceiving(json)(data) == Retry <==> r == Some(ReceivingPinRequired))
            && (ParseReceiving(json)(data) == TooManyGuesses <==> r == Some(ReceivingTooManyAttempts))
    ensures var s := json.decode(PinSendingResponse, data);
            && (forall files :: ParseSending(json)(data) == Solved(files) <==> s == Some(SendingOk(files)))
            && (ParseSending(json)(data) == Retry <==> s == Some(SendingPinRequired))
            && (ParseSending(json)(data) == TooManyGuesses <==> s == Some(SendingTooManyAttempts))
  {}

  lemma BothUnderstand(json: Json, files: seq<FileDto>)
    requires json.Lawful()
    ensures Understands(json, false, ParseReceiving(json), ReceivingOk, ())
    ensures Understands(json, true, ParseSending(json), SendingOk(files), files)
  {
    forall p: Packet ensures json.decode(p.Kind(), json.encode(p)) == Some(p) {}
    assert ReceivingOk.Kind() == ReceivingPinRequired.Kind() == ReceivingTooManyAttempts.Kind() == PinReceivingResponse;
    assert SendingOk(files).Kind() == SendingPinRequired.Kind() == SendingTooManyAttempts.Kind() == PinSendingResponse;
  }

  /** What the verifier sends from here on: its notices and, if it accepts, the approval. */
  function Replies(json: Json, inChunks: bool, approval: Packet, verdict: PinVerdict, notices: seq<Notice>)
    : seq<Message>
  {
    if notices == [] then (if verdict.Passed? then Approval(json, inChunks, approval) else [])
    else NoticeMessages(json, inChunks, notices[0]) + Replies(json, inChunks, approval, verdict, notices[1..])
  }

  lemma {:induction false} RepliesAreTold(json: Json, inChunks: bool, approval: Packet, verdict: PinVerdict,
                                          before: seq<Notice>, notices: seq<Notice>)
    ensures Told(json, inChunks, before) + Replies(json, inChunks, approval, verdict, notices)
            == Told(json, inChunks, before + notices) + if verdict.Passed? then Approval(json, inChunks, approval)
               else []
    decreases |notices|
  {
    hide NoticeMessages, Approval;
    if notices == [] {
      assert before + notices == before;
    } else {
      var one := NoticeMessages(json, inChunks, notices[0]);
      RepliesAreTold(json, inChunks, approval, verdict, before + [notices[0]], notices[1..]);
      ToldOneMore(json, inChunks, before, notices[0]);
      Associative(Told(json, inChunks, before), one, Replies(json, inChunks, approval, verdict, notices[1..]));
      assert before + [notices[0]] + notices[1..] == before + notices;
    }
  }

  lemma NoticeRead(json: Json, inChunks: bool, notice: Notice, rest: seq<Message>)
    ensures ReadReply(inChunks, NoticeMessages(json, inChunks, notice) + rest)
            == (Some(json.encode(NoticePacket(inChunks, notice))), rest)
  {
    ReplyRead(json, inChunks, NoticePacket(inChunks, notice), rest);
  }

  lemma ReplyRead(json: Json, inChunks: bool, reply: Packet, rest: seq<Message>)
    ensures ReadReply(inChunks, Approval(json, inChunks, reply) + rest) == (Some(json.encode(reply)), rest)
  {
    if inChunks {
      FrameRoundTrip(json.encode(reply), rest);
    } else {
      assert ([json.Text(reply)] + rest)[1..] == rest;
    }
  }

  /** The guesser's end for the verifier's end. */
  function Mirrored<T>(c: Challenge, guesses: nat, value: T, rest: seq<Message>): Guessing<T> {
    match c.verdict
    case Passed => Guessing(Done(value), c.tries, rest)
    case TooMany => Guessing(Refused, c.tries, rest)
    case _ => Guessing(GaveUp, guesses, rest)
  }

  /** The verifier asks and reads the next guess. */
  lemma NextGuess(json: Json, config: PinConfig, at: Loop, guesses: seq<string>)
    requires json.Lawful() && at.remotePin != config.pin && at.tries < config.maxTries && at.tries < |guesses|
    requires at.pending == Guesses(json, guesses[at.tries..])
    ensures var asked := if at.initialNotice || at.tries > 0 then at.notices + [PinRequired] else at.notices;
            var next := Loop(guesses[at.tries], at.tries + 1, false, asked, Guesses(json, guesses[at.tries + 1..]));
            Verify(json, config, at) == Verify(json, config, next) && |next.pending| < |at.pending|
  {
    var guess := Pin(guesses[at.tries]);
    assert at.pending[0] == json.Text(guess);
    assert json.decode(guess.Kind(), json.encode(guess)) == Some(guess);
    assert at.pending[1..] == Guesses(json, guesses[at.tries + 1..]);
  }

  lemma GuessDone<T(!new)>(json: Json, inChunks: bool, parse: seq<byte> -> Answer<T>, approval: Packet, value: T,
                           guesses: seq<string>, used: nat, rest: seq<Message>)
    requires Understands(json, inChunks, parse, approval, value) && used < |guesses|
    ensures Guess(guesses, used, inChunks, parse, Replies(json, inChunks, approval, Passed, []) + rest)
            == Guessing(Done(value), used + 1, rest)
  {
    hide Approval, ReadReply;
    ReplyRead(json, inChunks, approval, rest);
  }

  lemma GuessRefused<T(!new)>(json: Json, inChunks: bool, parse: seq<byte> -> Answer<T>, approval: Packet, value: T,
                              guesses: seq<string>, used: nat, rest: seq<Message>)
    requires Understands(json, inChunks, parse, approval, value) && used < |guesses|
    ensures Guess(guesses, used, inChunks, parse, Replies(json, inChunks, approval, TooMany, [TooManyAttempts]) + rest)
            == Guessing(Refused, used + 1, rest)
  {
    hide NoticeMessages, ReadReply;
    var one := NoticeMessages(json, inChunks, TooManyAttempts);
    assert [TooManyAttempts][1..] == [] && one + [] == one;
    NoticeRead(json, inChunks, TooManyAttempts, rest);
  }

  lemma GuessRetries<T(!new)>(json: Json, inChunks: bool, parse: seq<byte> -> Answer<T>, approval: Packet, value: T,
                              guesses: seq<string>, used: nat, verdict: PinVerdict, later: seq<Notice>,
                              rest: seq<Message>)
    requires Understands(json, inChunks, parse, approval, value) && used < |guesses|
    ensures Guess(guesses, used, inChunks, parse,
                  Replies(json, inChunks, approval, verdict, [PinRequired] + later) + rest)
            == Guess(guesses, used + 1, inChunks, parse, Replies(json, inChunks, approval, verdict, later) + rest)
  {
    hide NoticeMessages, ReadReply, Approval;
    assert ([PinRequired] + later)[1..] == later;
    var replies := Replies(json, inChunks, approval, verdict, later);
    Associative(NoticeMessages(json, inChunks, PinRequired), replies, rest);
    NoticeRead(json, inChunks, PinRequired, replies + rest);
  }

  lemma NoGuessLeft<T>(json: Json, inChunks: bool, parse: seq<byte> -> Answer<T>, approval: Packet,
                       guesses: seq<string>, rest: seq<Message>)
    ensures Guess(guesses, |guesses|, inChunks, parse, Replies(json, inChunks, approval, NotReceived, []) + rest)
            == Guessing(GaveUp, |guesses|, rest)
  {
    assert [] + rest == rest;
  }

  lemma NoGuessesPending(json: Json, guesses: seq<string>)
    ensures Guesses(json, guesses[|guesses|..]) == []
  {}

  lemma VerifyEnds(json: Json, config: PinConfig, at: Loop)
    requires 0 < at.tries <= config.maxTries
    ensures at.remotePin == config.pin ==>
              Verify(json, config, at) == Challenge(Passed, at.tries, at.notices, at.pending)
    ensures at.remotePin != config.pin && at.tries == config.maxTries ==>
              Verify(json, config, at) == Challenge(TooMany, at.tries, at.notices + [TooManyAttempts], at.pending)
    ensures at.remotePin != config.pin && at.tries < config.maxTries && at.pending == [] ==>
              Verify(json, config, at) == Challenge(NotReceived, at.tries, at.notices + [PinRequired], [])
  {}

  /** `at` is the verifier having read the guesser's latest guess, and its replies from there on are
      all the guesser will read. */
  lemma {:induction false} Lockstep<T(!new)>(json: Json, config: PinConfig, at: Loop, guesses: seq<string>,
                                             inChunks: bool,
                                      parse: seq<byte> -> Answer<T>, approval: Packet, value: T, rest: seq<Message>)
    requires json.Lawful() && Understands(json, inChunks, parse, approval, value)
    requires 0 < at.tries <= |guesses| && at.tries <= config.maxTries && at.remotePin == guesses[at.tries - 1]
    requires at.pending == Guesses(json, guesses[at.tries..])
    ensures var c := Verify(json, config, at);
            && at.notices <= c.notices && c.verdict != ParseFailed
            && (c.verdict == NotReceived ==> c.tries == |guesses|)
            && Guess(guesses, at.tries - 1, inChunks, parse,
                     Replies(json, inChunks, approval, c.verdict, c.notices[|at.notices|..]) + rest)
               == Mirrored(c, |guesses|, value, rest)
    decreases |at.pending|
  {
    hide NoticeMessages, Approval, Understands, Guess, Replies, Verify, Guesses;
    VerifyEnds(json, config, at);
    var c := Verify(json, config, at);
    if at.remotePin == config.pin {
      assert at.notices[|at.notices|..] == [];
      GuessDone(json, inChunks, parse, approval, value, guesses, at.tries - 1, rest);
    } else if at.tries == config.maxTries {
      assert (at.notices + [TooManyAttempts])[|at.notices|..] == [TooManyAttempts];
      GuessRefused(json, inChunks, parse, approval, value, guesses, at.tries - 1, rest);
    } else {
      var asked := at.notices + [PinRequired];
      if at.tries == |guesses| {
        NoGuessesPending(json, guesses);
        assert asked[|at.notices|..] == [PinRequired] + [];
        GuessRetries(json, inChunks, parse, approval, value, guesses, at.tries - 1, NotReceived, [], rest);
        NoGuessLeft(json, inChunks, parse, approval, guesses, rest);
      } else {
        var next := Loop(guesses[at.tries], at.tries + 1, false, asked, Guesses(json, guesses[at.tries + 1..]));
        NextGuess(json, config, at, guesses);
        Lockstep(json, config, next, guesses, inChunks, parse, approval, value, rest);
        assert c.notices[|at.notices|..] == [PinRequired] + c.notices[|asked|..];
        GuessRetries(json, inChunks, parse, approval, value, guesses, at.tries - 1, c.verdict, c.notices[|asked|..],
                     rest);
      }
    }
  }

  /** What the guesser gets to read once it was asked: the verifier's messages without the initial
      notice, which the guesser's process reads before it enters its loop, and with the approval. */
  function AllReplies(json: Json, config: PinConfig, initialNotice: bool, guesses: seq<string>, inChunks: bool,
                      approval: Packet): seq<Message>
    requires config.pin != "" && config.maxTries > 0
  {
    var c := Verify(json, config, Loop("", 0, initialNotice, [], Guesses(json, guesses)));
    Replies(json, inChunks, approval, c.verdict, if initialNotice && c.notices != [] then c.notices[1..] else c.notices)
  }

  lemma PinMirrored<T(!new)>(json: Json, config: PinConfig, initialNotice: bool, guesses: seq<string>, inChunks: bool,
                             parse: seq<byte> -> Answer<T>, approval: Packet, value: T, rest: seq<Message>)
    requires json.Lawful() && Understands(json, inChunks, parse, approval, value)
    requires config.pin != "" && config.maxTries > 0 && guesses != []
    ensures var c := Verify(json, config, Loop("", 0, initialNotice, [], Guesses(json, guesses)));
            && (c.verdict == NotReceived ==> c.tries == |guesses|) && c.verdict != ParseFailed
            && Guess(guesses, 0, inChunks, parse,
                     AllReplies(json, config, initialNotice, guesses, inChunks, approval) + rest)
               == Mirrored(c, |guesses|, value, rest)
  {
    hide Verify, Guesses, Understands, Guess, Replies;
    var start := Loop("", 0, initialNotice, [], Guesses(json, guesses));
    var asked: seq<Notice> := if initialNotice then [PinRequired] else [];
    var next := Loop(guesses[0], 1, false, asked, Guesses(json, guesses[1..]));
    assert guesses[0..] == guesses && [] + [PinRequired] == [PinRequired];
    NextGuess(json, config, start, guesses);
    Lockstep(json, config, next, guesses, inChunks, parse, approval, value, rest);
    var c := Verify(json, config, next);
    assert c.notices[0..] == c.notices;
  }

  lemma NoGuessAtAll(json: Json, config: PinConfig, initialNotice: bool)
    requires config.pin != "" && config.maxTries > 0
    ensures Verify(json, config, Loop("", 0, initialNotice, [], []))
            == Challenge(NotReceived, 0, if initialNotice then [PinRequired] else [], [])
  {}

  /** `handle_pin` against `verify_pin`, over both forms of replies: the guesser is done exactly when
      the verifier accepts, is refused exactly when it saw too many tries, and otherwise its user left;
      both have counted the same guesses and the guesser leaves what follows unread. */
  lemma PinLockstep<T(!new)>(json: Json, config: PinConfig, initialNotice: bool, guesses: seq<string>, inChunks: bool,
                             parse: seq<byte> -> Answer<T>, approval: Packet, value: T, rest: seq<Message>)
    requires json.Lawful() && Understands(json, inChunks, parse, approval, value)
    requires config.pin != "" && config.maxTries > 0
    ensures var c := Verify(json, config, Loop("", 0, initialNotice, [], Guesses(json, guesses)));
            var replies := AllReplies(json, config, initialNotice, guesses, inChunks, approval);
            var g := Guess(guesses, 0, inChunks, parse, replies + rest);
            && (g.outcome == Done(value) <==> c.verdict == Passed) && (g.outcome == Refused <==> c.verdict == TooMany)
            && (g.outcome == GaveUp <==> c.verdict == NotReceived) && c.verdict != ParseFailed
            && g.used == c.tries && g.unread == rest
  {
    hide Understands, Verify;
    if guesses == [] {
      NoGuessAtAll(json, config, initialNotice);
      assert Guesses(json, guesses) == [];
      assert [PinRequired][1..] == [] && [] + rest == rest;
    } else {
      hide Guess, AllReplies, Guesses;
      PinMirrored(json, config, initialNotice, guesses, inChunks, parse, approval, value, rest);
    }
  }

  /** These replies are what the verifier sends, behind its initial notice. */
  lemma RepliesSent(json: Json, config: PinConfig, initialNotice: bool, guesses: seq<string>, inChunks: bool,
                    approval: Packet)
    requires config.pin != "" && config.maxTries > 0
    ensures var c := Verify(json, config, Loop("", 0, initialNotice, [], Guesses(json, guesses)));
            Told(json, inChunks, c.notices) + (if c.verdict.Passed? then Approval(json, inChunks, approval) else [])
            == (if initialNotice && c.notices != [] then Told(json, inChunks, [c.notices[0]]) else [])
               + AllReplies(json, config, initialNotice, guesses, inChunks, approval)
  {
    hide NoticeMessages, Approval, Verify;
    var c := Verify(json, config, Loop("", 0, initialNotice, [], Guesses(json, guesses)));
    var first := if initialNotice && c.notices != [] then c.notices[..1] else [];
    var later := c.notices[|first|..];
    assert first + later == c.notices;
    RepliesAreTold(json, inChunks, approval, c.verdict, first, later);
  }

  /** With no try allowed the verifier refuses at once; a guesser that was asked has its first guess
      refused. */
  lemma NoTryAllowed<T(!new)>(json: Json, config: PinConfig, initialNotice: bool, guesses: seq<string>, inChunks: bool,
                              parse: seq<byte> -> Answer<T>, approval: Packet, value: T, rest: seq<Message>)
    requires json.Lawful() && Understands(json, inChunks, parse, approval, value)
    requires config.pin != "" && config.maxTries == 0 && guesses != []
    ensures Verify(json, config, Loop("", 0, initialNotice, [], Guesses(json, guesses)))
            == Challenge(TooMany, 0, [TooManyAttempts], Guesses(json, guesses))
    ensures Guess(guesses, 0, inChunks, parse, NoticeMessages(json, inChunks, TooManyAttempts) + rest)
            == Guessing(Refused, 1, rest)
  {
    NoticeRead(json, inChunks, TooManyAttempts, rest);
    hide NoticeMessages, ReadReply;
  }
}
