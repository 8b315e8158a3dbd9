/** What the MQTT calls of a run amount to: the subscriptions that were asked for, kept as a bounded
    map beside the run, and the broker's session and the connection state in terms of them. */
module MqttCalls {
  import opened CStrings
  import opened Mqtt

  // ---------------------------------------------------------------- one call

  ghost predicate Subscribed(subs: seq<Sub>, topic: string) {
    exists i :: 0 <= i < |subs| && subs[i].active && subs[i].topic == topic
  }

  ghost predicate AllInUse(subs: seq<Sub>) {
    forall i :: 0 <= i < |subs| ==> subs[i].active
  }

  /** What subscribe returns before it looks at the connection. */
  lemma SubscribeResultIff(s: State, topic: string, qos: nat)
    ensures
      var bad := !s.ready || |topic| >= 128;
      var r := SubscribeBegin(s, topic, qos).1;
      && (r == InvalidArg <==> bad)
      && (r == Ok <==> !bad && Subscribed(s.subs, topic))
      && (r == NoMem <==> !bad && !Subscribed(s.subs, topic) && AllInUse(s.subs))
      && (r == Pending <==> !bad && !Subscribed(s.subs, topic) && !AllInUse(s.subs))
      && (r != Pending ==> SubscribeBegin(s, topic, qos).0 == s)
  {
    if FindFrom(s.subs, topic, 0) < |s.subs| {
      assert Subscribed(s.subs, topic);
    }
    if FreeFrom(s.subs, 0) < |s.subs| {
      assert !AllInUse(s.subs);
    }
  }

  /** Unsubscribe, connect and disconnect: which errors they return, and when they do nothing. */
  lemma OtherResultsIff(s: State, topic: string, ok: bool)
    ensures UnsubscribeBegin(s, topic).1 == if s.ready then Pending else InvalidArg
    ensures ConnectBegin(s).1 == InvalidState <==> !s.ready
    ensures ConnectBegin(s).1 == Ok <==> s.ready && s.conn in {Connecting, Connected}
    ensures ConnectBegin(s).1 == Pending <==> s.ready && s.conn !in {Connecting, Connected}
    ensures DisconnectBegin(s).1 == if s.ready && s.client then Pending else InvalidState
    ensures ConnectBegin(s).1 != Pending ==> ConnectBegin(s).0 == s
    ensures DisconnectBegin(s).1 != Pending ==> DisconnectBegin(s).0 == s
    ensures Send(s, ok).1 == ConnectStart(s, ok).1 == if ok then Ok else Fail
  {
  }

  /** A message that the library accepts changes the session on its topic alone: to the quality of
      service of the call, or 0 if that is none of 0, 1 and 2, or to nothing. */
  lemma AcceptedMessage(s: State, t: string, q: nat)
    ensures s.call == Subscribing(t, q) ==> Send(s, true).0.session == s.session[t := if q <= 2 then q else 0]
    ensures s.call == Unsubscribing(t) ==> Send(s, true).0.session == s.session - {t}
    ensures Send(s, false).0.session == s.session
  {
  }

  // ---------------------------------------------------------------- the subscriptions of a run

  /** The subscriptions asked for and not given up: at most 8, with the first quality of service
      asked for on each topic. A disconnect, and an init, forgets them. */
  function Wanted(events: seq<Event>): map<string, nat> {
    if events == [] then map[]
    else
      var before, e := events[..|events| - 1], Last(events);
      WantedAfter(Run(before), Wanted(before), e)
  }

  function WantedAfter(s: State, wanted: map<string, nat>, e: Event): map<string, nat> {
    match e
    case DoSubscribe(t, q) => if s.ready && |t| < 128 && t !in wanted && |wanted| < 8 then wanted[t := q] else wanted
    case DoUnsubscribe(t) => if s.ready then wanted - {t} else wanted
    case DoFinish => map[]
    case DoInit(mutex) => if !s.ready && mutex then map[] else wanted
    case _ => wanted
  }

  /** Qualities of service 0, 1 and 2 are passed on, and any other number counts as 0. */
  predicate PassedOn(wanted: map<string, nat>, granted: map<string, nat>) {
    wanted.Keys == granted.Keys
    && forall t :: t in wanted ==> granted[t] == if wanted[t] <= 2 then wanted[t] else 0
  }

  /** Distinct topics are as many as active slots, so the table is full with 8 of them. */
  lemma {:induction false} TableSize(subs: seq<Sub>)
    requires Distinct(subs)
    ensures |Table(subs)| <= |subs| && (|Table(subs)| == |subs| <==> AllInUse(subs))
  {
    if subs != [] {
      var before, last := subs[..|subs| - 1], Last(subs);
      TableSize(before);
      TableKeys(before, last.topic);
      assert AllInUse(subs) <==> AllInUse(before) && last.active;
      if last.active {
        assert last.topic !in Table(before);
        assert Table(subs).Keys == Table(before).Keys + {last.topic};
      }
    }
  }

  lemma SameKeysSameSize(a: map<string, nat>, b: map<string, nat>)
    requires a.Keys == b.Keys
    ensures |a| == |b|
  {
    assert |a| == |a.Keys| && |b| == |b.Keys|;
  }

  lemma SubscribeIsWanted(s: State, wanted: map<string, nat>, t: string, q: nat)
    requires |s.subs| == 8 && Distinct(s.subs) && PassedOn(wanted, Table(s.subs))
    ensures PassedOn(WantedAfter(s, wanted, DoSubscribe(t, q)), Table(SubscribeBegin(s, t, q).0.subs))
  {
    var slot := FreeFrom(s.subs, 0);
    SubscribeResultIff(s, t, q);
    TableKeys(s.subs, t);
    TableSize(s.subs);
    SameKeysSameSize(wanted, Table(s.subs));
    if SubscribeBegin(s, t, q).1 == Pending {
      TableAdd(s.subs, slot, t, q);
    }
  }

  lemma UnsubscribeIsWanted(s: State, wanted: map<string, nat>, t: string)
    requires Distinct(s.subs) && PassedOn(wanted, Table(s.subs))
    ensures PassedOn(WantedAfter(s, wanted, DoUnsubscribe(t)), Table(UnsubscribeBegin(s, t).0.subs))
  {
    var slot := FindFrom(s.subs, t, 0);
    if s.ready {
      if slot < |s.subs| {
        TableRemove(s.subs, slot);
      } else {
        TableKeys(s.subs, t);
      }
    }
  }

  /** After every legal run the table is what the run has asked for. */
  lemma {:induction false} TableIsWanted(events: seq<Event>)
    requires Legal(events)
    ensures PassedOn(Wanted(events), Table(Run(events).subs))
  {
    if events == [] {
      TableEmpty(Initial().subs);
    } else {
      var before, e := events[..|events| - 1], Last(events);
      var s := Run(before);
      RunKeepsInv(before);
      TableIsWanted(before);
      match e {
        case DoSubscribe(t, q) => SubscribeIsWanted(s, Wanted(before), t, q);
        case DoUnsubscribe(t) => UnsubscribeIsWanted(s, Wanted(before), t);
        case DoFinish => TableEmpty(Step(s, e).subs);
        case DoInit(mutex) =>
          if !s.ready && mutex {
            TableEmpty(Step(s, e).subs);
          }
        case _ => assert Step(s, e).subs == s.subs;
      }
    }
  }

  /** With a library that refuses nothing while the link is up: after every interleaving, while the
      module is connected and no call is in flight, the broker's session holds exactly the topics
      that are wanted, each with the quality of service that was asked for. */
  lemma BrokerHasWhatIsWanted(events: seq<Event>)
    requires Legal(events) && Reliable(events) && Settled(Run(events))
    ensures PassedOn(Wanted(events), Run(events).session)
  {
    TableIsWanted(events);
    TableMatchesBroker(events);
  }

  /** The same on one topic. */
  predicate PassedOnAt(wanted: map<string, nat>, granted: map<string, nat>, t: string) {
    (t in wanted <==> t in granted) && (t in wanted ==> granted[t] == if wanted[t] <= 2 then wanted[t] else 0)
  }

  /** Refusals included: on a topic the session is as wanted if and only if the messages of the run
      have not left it apart. */
  lemma TopicAsWantedIff(events: seq<Event>, t: string)
    requires Legal(events) && Settled(Run(events))
    ensures PassedOnAt(Wanted(events), Run(events).session, t) <==> t !in Apart(events)
  {
    TableIsWanted(events);
    AgreementIff(events, t);
  }

  // ---------------------------------------------------------------- the connection of a run

  /** What an event makes of whether the module is connected. */
  predicate ConnectedAfter(connected: bool, e: Event) {
    match e
    case Up => true
    case Down => false
    case Error => false
    case DoDisconnect => false
    case DoDeinit => false
    case DoFinish => false
    case _ => connected
  }

  /** Of the events that settle whether the module is connected, a connected event is the last. */
  predicate UpLast(events: seq<Event>) {
    events != [] && ConnectedAfter(UpLast(events[..|events| - 1]), Last(events))
  }

  lemma ConnectedStep(s: State, e: Event)
    requires Phases(s) && Enabled(s, e)
    ensures Step(s, e).conn == Connected <==> ConnectedAfter(s.conn == Connected, e)
  {
  }

  /** After every legal run the module calls itself connected exactly if there was a connected event
      and since then no disconnected or error event, no disconnect and no deinit. */
  lemma {:induction false} ConnectedIff(events: seq<Event>)
    requires Legal(events)
    ensures Run(events).conn == Connected <==> UpLast(events)
  {
    if events == [] {
    } else {
      var before := events[..|events| - 1];
      RunKeepsInv(before);
      ConnectedIff(before);
      ConnectedStep(Run(before), Last(events));
    }
  }

  /** Whether the module has been initialised, by the last init that got its lock and the last end
      of a deinit. */
  predicate InitLast(events: seq<Event>) {
    events != [] &&
    var before := InitLast(events[..|events| - 1]);
    match Last(events)
    case DoInit(mutex) => before || mutex
    case DoClose => false
    case _ => before
  }

  /** Whether a client has been created and neither failed to start nor been stopped since. */
  predicate CreatedLast(events: seq<Event>) {
    events != [] &&
    var before := CreatedLast(events[..|events| - 1]);
    match Last(events)
    case DoCreate(ok) => before || ok
    case DoStart(ok) => before && ok
    case DoStop => false
    case _ => before
  }

  lemma {:induction false} ReadyAndClientIff(events: seq<Event>)
    requires Legal(events)
    ensures Run(events).ready <==> InitLast(events)
    ensures Run(events).client <==> CreatedLast(events)
  {
    if events == [] {
    } else {
      var before := events[..|events| - 1];
      RunKeepsInv(before);
      ReadyAndClientIff(before);
      ReadyAndClientStep(Run(before), Last(events));
    }
  }

  lemma ReadyAndClientStep(s: State, e: Event)
    requires Phases(s) && Enabled(s, e)
    ensures Step(s, e).ready == match e
                                case DoInit(mutex) => s.ready || mutex
                                case DoClose => false
                                case _ => s.ready
    ensures Step(s, e).client == match e
                                 case DoCreate(ok) => s.client || ok
                                 case DoStart(ok) => s.client && ok
                                 case DoStop => false
                                 case _ => s.client
  {
  }
}
