/** The file phase of a session: the sender's stream crosses while the statuses come back. */
module Streaming {
  import opened Prelude
  import opened Packets
  import opened Peers
  import opened Duplex
  import FileStream

  lemma TextsAppend(json: Json, a: seq<Packet>, b: seq<Packet>)
    ensures FileStream.Texts(json, a) + FileStream.Texts(json, b) == FileStream.Texts(json, a + b)
  {}

  /** The statuses that `r` has more than `t`. */
  function News(json: Json, t: FileStream.Transfer, r: FileStream.Transfer): seq<Message>
    requires t.statuses <= r.statuses
  {
    FileStream.Texts(json, r.statuses[|t.statuses|..])
  }

  lemma NewsAppend(json: Json, t: FileStream.Transfer, next: FileStream.Transfer, r: FileStream.Transfer)
    requires t.statuses <= next.statuses <= r.statuses
    ensures News(json, t, next) + News(json, next, r) == News(json, t, r)
  {
    TextsAppend(json, next.statuses[|t.statuses|..], r.statuses[|next.statuses|..]);
    assert next.statuses[|t.statuses|..] + r.statuses[|next.statuses|..] == r.statuses[|t.statuses|..];
  }

  /** The state after the receiver read what it could of `ms`, with its statuses on their way. */
  function AfterStream(cfg: Config, a: System, ms: seq<Message>, behind: seq<Message>): System
    requires a.right.phase.Receiving?
  {
    var t, tokens := a.right.phase.transfer, a.right.phase.tokens;
    var c := ReceivingContext(cfg, a.right, tokens);
    var r := FileStream.Receive(c, t, ms);
    FileStream.StatusesKept(c, t, ms);
    a.(right := a.right.(phase := Resting(tokens, r)),
       toRight := ms[FileStream.Consumed(c, t, ms)..] + behind,
       toLeft := a.toLeft + News(cfg.json, t, r))
  }

  /** One message read. */
  function AfterRead(cfg: Config, a: System, m: Message, rest: seq<Message>): System
    requires a.right.phase.Receiving?
  {
    a.(right := OnStream(cfg, a.right, m), toRight := rest)
  }

  /** One message read and its status, if any, sent. */
  lemma ReadOne(cfg: Config, a: System, m: Message, rest: seq<Message>)
    requires a.right.phase.Receiving? && a.right.phase.transfer.ending.Running?
    requires a.right.outbox == [] && a.toRight == [m] + rest
    ensures var t, tokens := a.right.phase.transfer, a.right.phase.tokens;
            var next := FileStream.OnMessage(ReceivingContext(cfg, a.right, tokens), t, m);
            && t.statuses <= next.statuses
            && Reaches(Behaviour(cfg), a,
                 a.(right := a.right.(phase := Resting(tokens, next)), toRight := rest,
                    toLeft := a.toLeft + News(cfg.json, t, next)))
  {
    hide FileStream.OnMessage;
    var t, tokens := a.right.phase.transfer, a.right.phase.tokens;
    var c := ReceivingContext(cfg, a.right, tokens);
    var next := FileStream.OnMessage(c, t, m);
    FileStream.StatusesGrow(c, t, m);
    var read := AfterRead(cfg, a, m, rest);
    assert a.toLeft + [] == a.toLeft;
    assert a.toRight[0] == m && a.toRight[1..] == rest;
    ReachesByStep(Behaviour(cfg), a, Right, read);
    if FileStream.Closes(t, m) {
      var status := cfg.json.Text(FileStream.NextStatus(t));
      assert [] + [status] == [status] && [status][1..] == [];
      assert News(cfg.json, t, next) == [status];
      var sent := a.(right := a.right.(phase := Resting(tokens, next)), toRight := rest, toLeft := a.toLeft + [status]);
      ReachesByStep(Behaviour(cfg), read, Right, sent);
      ReachesTransitive(Behaviour(cfg), a, read, sent);
    } else {
      assert News(cfg.json, t, next) == [];
    }
  }

  lemma {:induction false} StreamCrosses(cfg: Config, a: System, ms: seq<Message>, behind: seq<Message>)
    requires a.right.phase.Receiving? && a.right.phase.transfer.ending.Running?
    requires a.right.outbox == [] && a.toRight == ms + behind
    ensures Reaches(Behaviour(cfg), a, AfterStream(cfg, a, ms, behind))
    decreases |ms|
  {
    hide FileStream.OnMessage;
    var t, tokens := a.right.phase.transfer, a.right.phase.tokens;
    if ms == [] {
      assert News(cfg.json, t, t) == [] && a.toLeft + [] == a.toLeft;
      ReachesItself(Behaviour(cfg), a);
    } else {
      var c := ReceivingContext(cfg, a.right, tokens);
      var next, tail := FileStream.OnMessage(c, t, ms[0]), ms[1..];
      Associative([ms[0]], tail, behind);
      assert ms == [ms[0]] + tail;
      ReadOne(cfg, a, ms[0], tail + behind);
      var b := a.(right := a.right.(phase := Resting(tokens, next)), toRight := tail + behind,
                  toLeft := a.toLeft + News(cfg.json, t, next));
      var r := FileStream.Receive(c, t, ms);
      FileStream.StatusesKept(c, next, tail);
      NewsAppend(cfg.json, t, next, r);
      if next.ending.Running? {
        StreamCrosses(cfg, b, tail, behind);
        Associative(a.toLeft, News(cfg.json, t, next), News(cfg.json, next, r));
        assert AfterStream(cfg, b, tail, behind) == AfterStream(cfg, a, ms, behind);
        ReachesTransitive(Behaviour(cfg), a, b, AfterStream(cfg, a, ms, behind));
      } else {
        assert FileStream.Receive(c, next, tail) == next && FileStream.Consumed(c, next, tail) == 0;
        assert r == next && FileStream.Consumed(c, t, ms) == 1;
      }
    }
  }
}
