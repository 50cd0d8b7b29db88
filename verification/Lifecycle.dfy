// The layered connection lifecycle: each layer is a function of its own last events.
module Lifecycle {
  import opened Options

  const MAX_TRACE: nat := 512
  const LAST_SEQUENCE: nat := 0xFFFF_FFFF_FFFF_FFFF

  datatype Evidence<+T> = Unknown | Unconfirmed(value: T) | Confirmed(value: T)

  datatype Persona = PersonaReady | PersonaExited
  datatype Listener = ListenerReady
  datatype Proxy = Accepted | CommandInitialized | Lost | LocallyClosed
  datatype Session = Open | Closed
  datatype Mode = LiveView | ImageTransfer
  datatype Feature = Inactive | Active(mode: Mode)

  datatype Snapshot = Snapshot(sequence: nat, persona: Evidence<Persona>, listener: Evidence<Listener>,
                               proxy: Evidence<Proxy>,
                               session: Evidence<Session>, feature: Evidence<Feature>)

  const INITIAL: Snapshot := Snapshot(0, Unknown, Unknown, Unknown, Unknown, Unknown)

  datatype Transition =
    | NetworkPersonaReady | NetworkPersonaExitRequested | NetworkPersonaExitConfirmed
    | CommandListenerReady
    | ProxyTransportAccepted | CommandInit | ProxyTransportLost | ProxyTransportClosedLocally
    | PtpSessionOpened | PtpSessionClosed
    | FeatureEntered(mode: Mode) | FeatureExited

  datatype TraceEvent = TraceEvent(sequence: nat, transition: Transition, before: Snapshot, after: Snapshot)

  datatype LifecycleError = SequenceOverflow

  // ----- one transition -----

  function MarkOpenLayersUnconfirmed(s: Snapshot): Snapshot {
    var session := if s.session == Confirmed(Open) then Unconfirmed(Open) else s.session;
    var feature := if s.feature.Confirmed? && s.feature.value.Active? then Unconfirmed(s.feature.value) else s.feature;
    s.(session := session, feature := feature)
  }

  function Step(before: Snapshot, t: Transition): Snapshot {
    var s := before.(sequence := before.sequence + 1);
    match t
    case NetworkPersonaReady => s.(persona := Confirmed(PersonaReady))
    case NetworkPersonaExitRequested => s.(persona := Unconfirmed(PersonaExited))
    case NetworkPersonaExitConfirmed => s.(persona := Confirmed(PersonaExited))
    case CommandListenerReady => s.(listener := Confirmed(ListenerReady))
    case ProxyTransportAccepted => s.(proxy := Confirmed(Accepted))
    case CommandInit => s.(listener := Confirmed(ListenerReady), proxy := Confirmed(CommandInitialized))
    case ProxyTransportLost => MarkOpenLayersUnconfirmed(s.(proxy := Confirmed(Lost)))
    case ProxyTransportClosedLocally => MarkOpenLayersUnconfirmed(s.(proxy := Confirmed(LocallyClosed)))
    case PtpSessionOpened => s.(session := Confirmed(Open))
    case PtpSessionClosed => s.(session := Confirmed(Closed), feature := Confirmed(Inactive))
    case FeatureEntered(mode) => s.(feature := Confirmed(Active(mode)))
    case FeatureExited => s.(feature := Confirmed(Inactive))
  }

  function Apply(before: Snapshot, t: Transition): Result<TraceEvent, LifecycleError> {
    if before.sequence == LAST_SEQUENCE then Err(SequenceOverflow)
    else Ok(TraceEvent(before.sequence + 1, t, before, Step(before, t)))
  }

  // ----- a whole run -----

  function Final(events: seq<Transition>): Snapshot {
    if events == [] then INITIAL else Step(Final(events[..|events| - 1]), events[|events| - 1])
  }

  /** The place of the last event of a kind, or -1. */
  function LastOf(events: seq<Transition>, kind: Transition -> bool): (k: int)
    ensures -1 <= k < |events|
    ensures k >= 0 ==> kind(events[k])
    ensures forall i :: k < i < |events| ==> !kind(events[i])
  {
    if events == [] then -1
    else
      var n := |events| - 1;
      if kind(events[n]) then n else LastOf(events[..n], kind)
  }

  predicate PersonaEvent(t: Transition) {
    t.NetworkPersonaReady? || t.NetworkPersonaExitRequested? || t.NetworkPersonaExitConfirmed?
  }
  predicate ListenerEvent(t: Transition) { t.CommandListenerReady? || t.CommandInit? }
  predicate ProxyEvent(t: Transition) {
    t.ProxyTransportAccepted? || t.CommandInit? || t.ProxyTransportLost? || t.ProxyTransportClosedLocally?
  }
  predicate SessionEvent(t: Transition) { t.PtpSessionOpened? || t.PtpSessionClosed? }
  predicate FeatureEvent(t: Transition) { t.FeatureEntered? || t.FeatureExited? || t.PtpSessionClosed? }
  predicate TransportEnds(t: Transition) { t.ProxyTransportLost? || t.ProxyTransportClosedLocally? }

  function PersonaAfter(events: seq<Transition>): Evidence<Persona> {
    var k := LastOf(events, PersonaEvent);
    if k < 0 then Unknown
    else if events[k].NetworkPersonaReady? then Confirmed(PersonaReady)
    else if events[k].NetworkPersonaExitRequested? then Unconfirmed(PersonaExited)
    else Confirmed(PersonaExited)
  }

  function ListenerAfter(events: seq<Transition>): Evidence<Listener> {
    if LastOf(events, ListenerEvent) < 0 then Unknown else Confirmed(ListenerReady)
  }

  function ProxyAfter(events: seq<Transition>): Evidence<Proxy> {
    var k := LastOf(events, ProxyEvent);
    if k < 0 then Unknown
    else if events[k].ProxyTransportAccepted? then Confirmed(Accepted)
    else if events[k].CommandInit? then Confirmed(CommandInitialized)
    else if events[k].ProxyTransportLost? then Confirmed(Lost)
    else Confirmed(LocallyClosed)
  }

  /** An open session is certain until the transport ends; a closed one stays certain. */
  function SessionAfter(events: seq<Transition>): Evidence<Session> {
    var k := LastOf(events, SessionEvent);
    if k < 0 then Unknown
    else if events[k].PtpSessionClosed? then Confirmed(Closed)
    else if LastOf(events, TransportEnds) < k then Confirmed(Open)
    else Unconfirmed(Open)
  }

  function FeatureAfter(events: seq<Transition>): Evidence<Feature> {
    var k := LastOf(events, FeatureEvent);
    if k < 0 then Unknown
    else if !events[k].FeatureEntered? then Confirmed(Inactive)
    else if LastOf(events, TransportEnds) < k then Confirmed(Active(events[k].mode))
    else Unconfirmed(Active(events[k].mode))
  }

  lemma LastOfFront(events: seq<Transition>, kind: Transition -> bool)
    requires events != []
    ensures var n := |events| - 1; LastOf(events, kind) == if kind(events[n]) then n else LastOf(events[..n], kind)
  {}

  lemma PersonaStep(events: seq<Transition>, s: Snapshot)
    requires events != [] && s.persona == PersonaAfter(events[..|events| - 1])
    ensures Step(s, events[|events| - 1]).persona == PersonaAfter(events)
  {
    LastOfFront(events, PersonaEvent);
  }

  lemma ListenerStep(events: seq<Transition>, s: Snapshot)
    requires events != [] && s.listener == ListenerAfter(events[..|events| - 1])
    ensures Step(s, events[|events| - 1]).listener == ListenerAfter(events)
  {
    LastOfFront(events, ListenerEvent);
  }

  lemma ProxyStep(events: seq<Transition>, s: Snapshot)
    requires events != [] && s.proxy == ProxyAfter(events[..|events| - 1])
    ensures Step(s, events[|events| - 1]).proxy == ProxyAfter(events)
  {
    LastOfFront(events, ProxyEvent);
  }

  lemma SessionStep(events: seq<Transition>, s: Snapshot)
    requires events != [] && s.session == SessionAfter(events[..|events| - 1])
    ensures Step(s, events[|events| - 1]).session == SessionAfter(events)
  {
    LastOfFront(events, SessionEvent);
    LastOfFront(events, TransportEnds);
  }

  lemma FeatureStep(events: seq<Transition>, s: Snapshot)
    requires events != [] && s.feature == FeatureAfter(events[..|events| - 1])
    ensures Step(s, events[|events| - 1]).feature == FeatureAfter(events)
  {
    LastOfFront(events, FeatureEvent);
    LastOfFront(events, TransportEnds);
  }

  lemma {:induction false} PersonaClosed(events: seq<Transition>)
    ensures Final(events).persona == PersonaAfter(events)
    decreases |events|
  {
    if events != [] {
      PersonaClosed(events[..|events| - 1]);
      PersonaStep(events, Final(events[..|events| - 1]));
    }
  }

  lemma {:induction false} ListenerClosed(events: seq<Transition>)
    ensures Final(events).listener == ListenerAfter(events)
    decreases |events|
  {
    if events != [] {
      ListenerClosed(events[..|events| - 1]);
      ListenerStep(events, Final(events[..|events| - 1]));
    }
  }

  lemma {:induction false} ProxyClosed(events: seq<Transition>)
    ensures Final(events).proxy == ProxyAfter(events)
    decreases |events|
  {
    if events != [] {
      ProxyClosed(events[..|events| - 1]);
      ProxyStep(events, Final(events[..|events| - 1]));
    }
  }

  lemma {:induction false} SessionClosed(events: seq<Transition>)
    ensures Final(events).session == SessionAfter(events)
    decreases |events|
  {
    if events != [] {
      SessionClosed(events[..|events| - 1]);
      SessionStep(events, Final(events[..|events| - 1]));
    }
  }

  lemma {:induction false} FeatureClosed(events: seq<Transition>)
    ensures Final(events).feature == FeatureAfter(events)
    decreases |events|
  {
    if events != [] {
      FeatureClosed(events[..|events| - 1]);
      FeatureStep(events, Final(events[..|events| - 1]));
    }
  }

  lemma {:induction false} SequenceCounts(events: seq<Transition>)
    ensures Final(events).sequence == |events|
    decreases |events|
  {
    if events != [] { SequenceCounts(events[..|events| - 1]); }
  }

  /** After any run, each layer is what its own last events say, and the sequence number counts the steps. */
  lemma ClosedForm(events: seq<Transition>)
    ensures Final(events)
         == Snapshot(|events|, PersonaAfter(events), ListenerAfter(events), ProxyAfter(events), SessionAfter(events),
                     FeatureAfter(events))
  {
    PersonaClosed(events);
    ListenerClosed(events);
    ProxyClosed(events);
    SessionClosed(events);
    FeatureClosed(events);
    SequenceCounts(events);
  }

  /** The session is confirmed open exactly if it was opened and neither closed nor cut off since. */
  lemma SessionConfirmedOpen(events: seq<Transition>)
    ensures Final(events).session == Confirmed(Open)
       <==> exists k :: 0 <= k < |events| && events[k].PtpSessionOpened?
                        && forall i :: k < i < |events| ==> !events[i].PtpSessionClosed? && !TransportEnds(events[i])
  {
    SessionClosed(events);
    var k, ends := LastOf(events, SessionEvent), LastOf(events, TransportEnds);
    if j :| && 0 <= j < |events| && events[j].PtpSessionOpened?
            && forall i :: j < i < |events| ==> !events[i].PtpSessionClosed? && !TransportEnds(events[i])
    {
      assert SessionEvent(events[j]);
      assert k >= j && ends < j;
    }
  }

  // ----- the trace -----

  function Events(history: seq<Transition>): seq<TraceEvent> {
    if history == [] then []
    else
      var n := |history| - 1;
      Events(history[..n]) + [TraceEvent(n + 1, history[n], Final(history[..n]), Final(history))]
  }

  /** Event `i` has sequence number `i + 1`, and each starts where the one before it ended. */
  lemma {:induction false} EventsChained(history: seq<Transition>)
    ensures |Events(history)| == |history|
    ensures forall i :: 0 <= i < |history| ==>
              Events(history)[i].sequence == i + 1 && Events(history)[i].transition == history[i]
    ensures history != [] ==> Events(history)[0].before == INITIAL
                              && Events(history)[|history| - 1].after == Final(history)
    ensures forall i :: 0 < i < |history| ==> Events(history)[i].before == Events(history)[i - 1].after
    decreases |history|
  {
    if history != [] {
      var n := |history| - 1;
      EventsChained(history[..n]);
    }
  }

  function Newest<T>(s: seq<T>, most: nat): seq<T> { if |s| <= most then s else s[|s| - most..] }

  lemma NewestPushed<T>(s: seq<T>, x: T, most: nat)
    requires most > 0
    ensures Newest(s + [x], most) == var t := Newest(s, most) + [x]; if |t| > most then t[1..] else t
  {}

  class Tracker {
    var snapshot: Snapshot
    var trace: seq<TraceEvent>
    ghost var history: seq<Transition>

    /** The snapshot is the end of the history and the trace its newest events. */
    ghost predicate Valid()
      reads this
    {
      snapshot == Final(history) && snapshot.sequence == |history| <= LAST_SEQUENCE
        && trace == Newest(Events(history), MAX_TRACE)
    }

    constructor ()
      ensures Valid() && history == []
    {
      snapshot, trace, history := INITIAL, [], [];
    }

    method Observe(t: Transition) returns (r: Result<TraceEvent, LifecycleError>)
      requires Valid()
      modifies this
      ensures Valid()
      ensures r.Ok? <==> old(|history|) < LAST_SEQUENCE
      ensures r.Ok? ==> history == old(history) + [t] && trace != [] && r.value == trace[|trace| - 1]
      ensures r.Err? ==> history == old(history)
    {
      var event := Apply(snapshot, t);
      if event.Err? {
        SequenceCounts(history);
        return Err(SequenceOverflow);
      }
      ghost var before := history;
      history := history + [t];
      assert history[..|before|] == before;
      NewestPushed(Events(before), event.value, MAX_TRACE);
      SequenceCounts(history);
      snapshot := event.value.after;
      trace := trace + [event.value];
      if |trace| > MAX_TRACE { trace := trace[1..]; }
      r := Ok(trace[|trace| - 1]);
    }
  }

  lemma NewestAt<T>(s: seq<T>, most: nat, i: nat)
    requires i < |Newest(s, most)|
    ensures |Newest(s, most)| <= |s| && Newest(s, most)[i] == s[|s| - |Newest(s, most)| + i]
  {}

  /** Every trace is the last min(n, 512) events of its run, in order and chained. */
  lemma TraceIsNewest(history: seq<Transition>)
    ensures var trace := Newest(Events(history), MAX_TRACE);
      && |trace| == (if |history| < MAX_TRACE then |history| else MAX_TRACE)
      && (forall i :: 0 <= i < |trace| ==> trace[i].transition == history[|history| - |trace| + i]
                                           && trace[i].sequence == |history| - |trace| + i + 1)
      && (forall i :: 0 < i < |trace| ==> trace[i].before == trace[i - 1].after)
  {
    EventsChained(history);
    var all, trace := Events(history), Newest(Events(history), MAX_TRACE);
    var skipped := |all| - |trace|;
    forall i | 0 <= i < |trace| ensures trace[i] == all[skipped + i] { NewestAt(all, MAX_TRACE, i); }
    forall i | 0 < i < |trace| ensures trace[i].before == trace[i - 1].after {
      assert all[skipped + i].before == all[skipped + i - 1].after;
    }
  }
}
