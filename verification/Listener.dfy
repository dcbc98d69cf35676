/** `start_listener` and `on_answer`: every server message is forwarded, and an answer also fires
    the callback registered for its session, once. */
module Listener {
  import opened Prelude
  import opened Model

  /** A callback is known by the number its registration was given. */
  type Callback = nat

  datatype Event = Registered(sessionId: string, callback: Callback) | Arrived(message: ServerMessage)

  datatype State = State(
    callbacks: map<string, Callback>, fired: seq<(Callback, SdpMessage)>, forwarded: seq<ServerMessage>)

  function React(s: State, e: Event): State {
    match e
    case Registered(sessionId, callback) => s.(callbacks := s.callbacks[sessionId := callback])
    case Arrived(m) =>
      var told := s.(forwarded := s.forwarded + [m]);
      if m.Answer? && m.message.sessionId in s.callbacks then
        told.(callbacks := s.callbacks - {m.message.sessionId},
              fired := s.fired + [(s.callbacks[m.message.sessionId], m.message)])
      else told
  }

  function Run(events: seq<Event>): State {
    if events == [] then State(map[], [], [])
    else React(Run(events[..|events| - 1]), events[|events| - 1])
  }

  class Connection {
    var callbacks: map<string, Callback>
    var fired: seq<(Callback, SdpMessage)>
    var forwarded: seq<ServerMessage>

    function Now(): State
      reads this
    {
      State(callbacks, fired, forwarded)
    }

    constructor ()
      ensures Now() == Run([])
    {
      callbacks, fired, forwarded := map[], [], [];
    }

    method OnAnswer(sessionId: string, callback: Callback)
      modifies this
      ensures Now() == React(old(Now()), Registered(sessionId, callback))
    {
      callbacks := callbacks[sessionId := callback];
    }

    /** One turn of the listener loop. */
    method OnMessage(message: ServerMessage)
      modifies this
      ensures Now() == React(old(Now()), Arrived(message))
    {
      if message.Answer? && message.message.sessionId in callbacks {
        var callback := callbacks[message.message.sessionId];
        callbacks := callbacks - {message.message.sessionId};
        fired := fired + [(callback, message.message)];
      }
      forwarded := forwarded + [message];
    }
  }

  // ----- What a run fires, read off the events

  function Messages(events: seq<Event>): seq<ServerMessage> {
    if events == [] then []
    else Messages(events[..|events| - 1]) + match events[|events| - 1] case Arrived(m) => [m] case _ => []
  }

  /** The first answer for a session in the events, unless the session is registered anew before. */
  function FirstAnswer(events: seq<Event>, sessionId: string): Option<SdpMessage> {
    if events == [] then None
    else
      match events[0]
      case Arrived(Answer(sdp)) => if sdp.sessionId == sessionId then Some(sdp) else FirstAnswer(events[1..], sessionId)
      case Registered(other, _) => if other == sessionId then None else FirstAnswer(events[1..], sessionId)
      case _ => FirstAnswer(events[1..], sessionId)
  }

  /** Neither answered nor registered anew. */
  function Waiting(events: seq<Event>, sessionId: string): bool {
    if events == [] then true
    else
      match events[0]
      case Arrived(Answer(sdp)) => sdp.sessionId != sessionId && Waiting(events[1..], sessionId)
      case Registered(other, _) => other != sessionId && Waiting(events[1..], sessionId)
      case _ => Waiting(events[1..], sessionId)
  }

  lemma {:induction false} OneMoreEvent(events: seq<Event>, e: Event, sessionId: string)
    ensures Waiting(events + [e], sessionId) ==
            (Waiting(events, sessionId) && Waiting([e], sessionId))
    ensures FirstAnswer(events + [e], sessionId) ==
            if Waiting(events, sessionId) then FirstAnswer([e], sessionId) else FirstAnswer(events, sessionId)
  {
    if events == [] {
      assert events + [e] == [e];
    } else {
      OneMoreEvent(events[1..], e, sessionId);
      assert (events + [e])[1..] == events[1..] + [e];
    }
  }

  lemma OneEvent(e: Event, sessionId: string)
    ensures Waiting([e], sessionId) ==
            match e
            case Registered(other, _) => other != sessionId
            case Arrived(Answer(sdp)) => sdp.sessionId != sessionId
            case _ => true
    ensures FirstAnswer([e], sessionId) ==
            match e
            case Arrived(Answer(sdp)) => (if sdp.sessionId == sessionId then Some(sdp) else None)
            case _ => None
  {
    assert [e][1..] == [];
  }

  /** Each registration got its own number. */
  ghost predicate Distinct(events: seq<Event>) {
    forall i, j :: 0 <= i < j < |events| && events[i].Registered? && events[j].Registered? ==>
      events[i].callback != events[j].callback
  }

  /** How often a callback fired. */
  function Firings(fired: seq<(Callback, SdpMessage)>, callback: Callback): seq<SdpMessage> {
    if fired == [] then []
    else Firings(fired[..|fired| - 1], callback) + if fired[|fired| - 1].0 == callback then [fired[|fired| - 1].1]
         else []
  }

  /** The state of a callback, given the events after its registration. */
  ghost predicate Tracks(sessionId: string, callback: Callback, later: seq<Event>, s: State) {
    && (Waiting(later, sessionId) <==> sessionId in s.callbacks && s.callbacks[sessionId] == callback)
    && (forall other :: other in s.callbacks && s.callbacks[other] == callback ==> other == sessionId)
    && Firings(s.fired, callback)
       == (if FirstAnswer(later, sessionId).Some? then [FirstAnswer(later, sessionId).value] else [])
  }

  lemma FiringsMore(fired: seq<(Callback, SdpMessage)>, one: (Callback, SdpMessage), callback: Callback)
    ensures Firings(fired + [one], callback) == Firings(fired, callback) + if one.0 == callback then [one.1] else []
  {
    assert (fired + [one])[..|fired|] == fired;
  }

  lemma TracksRegistration(sessionId: string, callback: Callback, later: seq<Event>, s: State, other: string,
                           newer: Callback)
    requires Tracks(sessionId, callback, later, s) && newer != callback
    ensures Tracks(sessionId, callback, later + [Registered(other, newer)], React(s, Registered(other, newer)))
  {
    hide Waiting, FirstAnswer;
    OneMoreEvent(later, Registered(other, newer), sessionId);
    OneEvent(Registered(other, newer), sessionId);
    WaitingExcludes(later, sessionId);
  }

  lemma TracksArrival(sessionId: string, callback: Callback, later: seq<Event>, s: State, m: ServerMessage)
    requires Tracks(sessionId, callback, later, s)
    ensures Tracks(sessionId, callback, later + [Arrived(m)], React(s, Arrived(m)))
  {
    hide Waiting, FirstAnswer, Firings;
    OneMoreEvent(later, Arrived(m), sessionId);
    OneEvent(Arrived(m), sessionId);
    WaitingExcludes(later, sessionId);
    if m.Answer? && m.message.sessionId in s.callbacks {
      FiringsMore(s.fired, (s.callbacks[m.message.sessionId], m.message), callback);
    }
  }

  lemma TracksMore(sessionId: string, callback: Callback, later: seq<Event>, s: State, e: Event)
    requires Tracks(sessionId, callback, later, s)
    requires e.Registered? ==> e.callback != callback
    ensures Tracks(sessionId, callback, later + [e], React(s, e))
  {
    match e
    case Registered(other, newer) => TracksRegistration(sessionId, callback, later, s, other, newer);
    case Arrived(m) => TracksArrival(sessionId, callback, later, s, m);
  }

  /** Only registered callbacks are known. */
  lemma {:induction false} KnownCallbacks(events: seq<Event>, callback: Callback)
    requires forall i :: 0 <= i < |events| && events[i].Registered? ==> events[i].callback != callback
    ensures callback !in Run(events).callbacks.Values && Firings(Run(events).fired, callback) == []
  {
    if events != [] {
      KnownCallbacks(events[..|events| - 1], callback);
      var s, next := Run(events[..|events| - 1]), Run(events);
      if next.fired != s.fired {
        assert next.fired[..|s.fired|] == s.fired;
      }
    }
  }

  lemma {:induction false} WaitingExcludes(events: seq<Event>, sessionId: string)
    ensures Waiting(events, sessionId) ==> FirstAnswer(events, sessionId).None?
  {
    if events != [] {
      WaitingExcludes(events[1..], sessionId);
    }
  }

  /** A callback fires at most once, exactly on the first answer with its session id that arrives
      after its registration and before the session is registered anew. */
  lemma {:induction false} CallbackExact(events: seq<Event>, i: nat)
    requires i < |events| && events[i].Registered? && Distinct(events)
    ensures Tracks(events[i].sessionId, events[i].callback, events[i + 1..], Run(events))
  {
    hide Tracks;
    var last := |events| - 1;
    var before, e := events[..last], events[last];
    var mine := events[i];
    if i == last {
      assert events[i + 1..] == [];
      KnownCallbacks(before, mine.callback);
      RegistrationTracks(Run(before), mine.sessionId, mine.callback);
    } else {
      CallbackExact(before, i);
      assert events[i + 1..] == before[i + 1..] + [e];
      TracksMore(mine.sessionId, mine.callback, before[i + 1..], Run(before), e);
    }
  }

  lemma RegistrationTracks(s: State, sessionId: string, callback: Callback)
    requires callback !in s.callbacks.Values && Firings(s.fired, callback) == []
    ensures Tracks(sessionId, callback, [], React(s, Registered(sessionId, callback)))
  {}

  /** Every message is forwarded, in order. */
  lemma {:induction false} AllForwarded(events: seq<Event>)
    ensures Run(events).forwarded == Messages(events)
  {
    if events != [] {
      AllForwarded(events[..|events| - 1]);
    }
  }
}
