/** MQTT subscription tracking: one API caller, whose calls hold the module lock only for part
    of their work, interleaved with the event task of the client library. */
module Mqtt {
  import opened CStrings

  const OS_MQTT_MAX_SUBSCRIPTIONS: nat := 8
  const OS_MQTT_TOPIC_MAX_LEN: nat := 128

  datatype Sub = Sub(topic: string, qos: nat, active: bool)

  const NONE := Sub("", 0, false)

  datatype Conn = Disconnected | Connecting | Connected | Disconnecting | Failed

  /** Where the API caller stands between two steps that other tasks can observe; last tells
      whether it is deinit that called disconnect. */
  datatype Call =
    | Idle
    | Stored(topic: string, qos: nat)      // subscribe: slot written, lock released
    | Subscribing(topic: string, qos: nat) // subscribe: found the link up
    | Removed(topic: string)               // unsubscribe: slot cleared, lock released
    | Unsubscribing(topic: string)         // unsubscribe: found the link up
    | Creating                             // connect: state set, client not yet created
    | CreateFailed                         // connect: no client, state not yet set
    | Starting                             // connect: client created, not yet started
    | Stopping(last: bool)                 // disconnect: state set, client still there
    | Clearing(last: bool)                 // disconnect: client gone, table not yet cleared
    | Closing                              // deinit: disconnect has returned

  /** ready is the flag that init sets and deinit clears; session is what the broker has granted
      on the current link: topic to quality of service. */
  datatype State = State(ready: bool, subs: seq<Sub>, conn: Conn, client: bool, started: bool, link: bool,
                         session: map<string, nat>, call: Call)

  datatype Result = Ok | InvalidArg | InvalidState | NoMem | Fail | Pending

  function ConvertQos(qos: nat): nat {
    if qos == 1 then 1 else if qos == 2 then 2 else 0
  }

  /** The subscriptions the active slots stand for. */
  function Table(subs: seq<Sub>): map<string, nat> {
    if subs == [] then map[]
    else
      var before := Table(subs[..|subs| - 1]);
      if Last(subs).active then before[Last(subs).topic := ConvertQos(Last(subs).qos)] else before
  }

  function FindFrom(subs: seq<Sub>, topic: string, i: nat): (r: nat)
    requires i <= |subs|
    ensures i <= r <= |subs| && (r < |subs| ==> subs[r].active && subs[r].topic == topic)
    ensures forall j :: i <= j < r ==> !(subs[j].active && subs[j].topic == topic)
    decreases |subs| - i
  {
    if i == |subs| || (subs[i].active && subs[i].topic == topic) then i else FindFrom(subs, topic, i + 1)
  }

  function FreeFrom(subs: seq<Sub>, i: nat): (r: nat)
    requires i <= |subs|
    ensures i <= r <= |subs| && (r < |subs| ==> !subs[r].active)
    ensures forall j :: i <= j < r ==> subs[j].active
    decreases |subs| - i
  {
    if i == |subs| || !subs[i].active then i else FreeFrom(subs, i + 1)
  }

  // ---------------------------------------------------------------- the steps

  function SubscribeBegin(s: State, topic: string, qos: nat): (State, Result) {
    if !s.ready || |topic| >= OS_MQTT_TOPIC_MAX_LEN then (s, InvalidArg)
    else if FindFrom(s.subs, topic, 0) < |s.subs| then (s, Ok)
    else
      var slot := FreeFrom(s.subs, 0);
      if slot == |s.subs| then (s, NoMem)
      else (s.(subs := s.subs[slot := Sub(topic, qos, true)], call := Stored(topic, qos)), Pending)
  }

  function UnsubscribeBegin(s: State, topic: string): (State, Result) {
    if !s.ready then (s, InvalidArg)
    else
      var slot := FindFrom(s.subs, topic, 0);
      (s.(subs := if slot < |s.subs| then s.subs[slot := s.subs[slot].(active := false)] else s.subs,
          call := Removed(topic)), Pending)
  }

  /** The look at the connection state that decides whether the broker is told. */
  function Check(s: State): (State, Result) {
    if s.conn != Connected then (s.(call := Idle), Ok)
    else
      match s.call
      case Stored(t, q) => (s.(call := Subscribing(t, q)), Pending)
      case Removed(t) => (s.(call := Unsubscribing(t)), Pending)
      case _ => (s, Pending)
  }

  /** The call into the client library; ok says whether it reached the broker. */
  function Send(s: State, ok: bool): (State, Result) {
    var session :=
      if !ok then s.session
      else
        match s.call
        case Subscribing(t, q) => s.session[t := ConvertQos(q)]
        case Unsubscribing(t) => s.session - {t}
        case _ => s.session;
    (s.(session := session, call := Idle), if ok then Ok else Fail)
  }

  function ConnectBegin(s: State): (State, Result) {
    if !s.ready then (s, InvalidState)
    else if s.conn == Connecting || s.conn == Connected then (s, Ok)
    else (s.(conn := Connecting, call := Creating), Pending)
  }

  function ConnectCreate(s: State, ok: bool): State {
    if ok then s.(client := true, call := Starting) else s.(call := CreateFailed)
  }

  function ConnectFailed(s: State): State {
    s.(conn := Failed, call := Idle)
  }

  /** Registering the handler and starting the client; on failure the client is destroyed and
      the connection state stays as it is. */
  function ConnectStart(s: State, ok: bool): (State, Result) {
    if ok then (s.(started := true, call := Idle), Ok) else (s.(client := false, call := Idle), Fail)
  }

  function DisconnectBegin(s: State): (State, Result) {
    if !s.ready || !s.client then (s, InvalidState)
    else (s.(conn := Disconnecting, call := Stopping(false)), Pending)
  }

  function DisconnectStop(s: State): State
    requires s.call.Stopping?
  {
    s.(client := false, started := false, link := false, session := map[], call := Clearing(s.call.last))
  }

  function DisconnectFinish(s: State): State
    requires s.call.Clearing?
  {
    s.(conn := Disconnected, call := if s.call.last then Closing else Idle, subs := seq(|s.subs|, i => NONE))
  }

  function Init(s: State, mutex: bool): (State, Result) {
    if s.ready then (s, Ok)
    else if !mutex then (s, NoMem)
    else (s.(ready := true, conn := Disconnected, subs := seq(|s.subs|, i => NONE)), Ok)
  }

  /** Deinit disconnects first, which does nothing without a client. */
  function DeinitBegin(s: State): State {
    if !s.ready then s
    else if !s.client then s.(call := Closing)
    else s.(conn := Disconnecting, call := Stopping(true))
  }

  function DeinitFinish(s: State): State {
    s.(ready := false, call := Idle)
  }

  /** The link comes up with a clean session and the handler resubscribes everything. */
  function LinkUp(s: State): State {
    s.(conn := Connected, link := true, session := Table(s.subs))
  }

  function LinkDown(s: State): State {
    s.(conn := Disconnected, link := false, session := map[])
  }

  function ErrorEvent(s: State): State {
    s.(conn := Failed)
  }

  // ---------------------------------------------------------------- the module

  class Client {
    const subs: array<Sub>
    var ready: bool
    var conn: Conn
    var client: bool
    var started: bool
    var link: bool
    var session: map<string, nat>
    var call: Call

    ghost predicate Valid()
      reads this
    {
      subs.Length == OS_MQTT_MAX_SUBSCRIPTIONS
    }

    ghost function View(): State
      reads this, subs
    {
      State(ready, subs[..], conn, client, started, link, session, call)
    }

    constructor ()
      ensures Valid() && fresh(subs) && View() == Initial()
    {
      subs := new Sub[OS_MQTT_MAX_SUBSCRIPTIONS](i => NONE);
      ready, conn, client, started, link := false, Disconnected, false, false, false;
      session, call := map[], Idle;
    }

    /** os_mqtt_init; mutex tells whether the lock can be created. */
    method Start(mutex: bool) returns (r: Result)
      requires Valid() && call == Idle
      modifies this`ready, this`conn, subs
      ensures (View(), r) == Init(old(View()), mutex)
    {
      if ready {
        return Ok;
      }
      if !mutex {
        return NoMem;
      }
      forall i | 0 <= i < subs.Length {
        subs[i] := NONE;
      }
      assert subs[..] == seq(subs.Length, i => NONE);
      conn, ready := Disconnected, true;
      return Ok;
    }

    /** os_mqtt_deinit, up to the first lock of the disconnect it makes. */
    method BeginDeinit()
      requires Valid() && call == Idle
      modifies this`conn, this`call
      ensures View() == DeinitBegin(old(View()))
    {
      if !ready {
        return;
      }
      if client {
        conn, call := Disconnecting, Stopping(true);
      } else {
        call := Closing;
      }
    }

    method FinishDeinit()
      requires Valid() && call == Closing
      modifies this`ready, this`call
      ensures View() == DeinitFinish(old(View()))
    {
      ready, call := false, Idle;
    }

    method FindSubscription(topic: string) returns (slot: nat)
      requires Valid()
      ensures slot == FindFrom(subs[..], topic, 0)
    {
      slot := 0;
      while slot < subs.Length && !(subs[slot].active && subs[slot].topic == topic)
        invariant slot <= subs.Length && FindFrom(subs[..], topic, 0) == FindFrom(subs[..], topic, slot)
      {
        slot := slot + 1;
      }
    }

    method FindFreeSlot() returns (slot: nat)
      requires Valid()
      ensures slot == FreeFrom(subs[..], 0)
    {
      slot := 0;
      while slot < subs.Length && subs[slot].active
        invariant slot <= subs.Length && FreeFrom(subs[..], 0) == FreeFrom(subs[..], slot)
      {
        slot := slot + 1;
      }
    }

    /** The locked part of os_mqtt_subscribe. */
    method StoreSubscription(topic: string, qos: nat) returns (r: Result)
      requires Valid() && call == Idle
      modifies this`call, subs
      ensures (View(), r) == SubscribeBegin(old(View()), topic, qos)
    {
      if !ready || |topic| >= OS_MQTT_TOPIC_MAX_LEN {
        return InvalidArg;
      }
      var slot := FindSubscription(topic);
      if slot < subs.Length {
        return Ok;
      }
      slot := FindFreeSlot();
      if slot == subs.Length {
        return NoMem;
      }
      subs[slot] := Sub(topic, qos, true);
      call := Stored(topic, qos);
      return Pending;
    }

    /** The locked part of os_mqtt_unsubscribe. */
    method RemoveSubscription(topic: string) returns (r: Result)
      requires Valid() && call == Idle
      modifies this`call, subs
      ensures (View(), r) == UnsubscribeBegin(old(View()), topic)
    {
      if !ready {
        return InvalidArg;
      }
      var slot := FindSubscription(topic);
      if slot < subs.Length {
        subs[slot] := subs[slot].(active := false);
      }
      call := Removed(topic);
      return Pending;
    }

    /** os_mqtt_is_connected, as subscribe and unsubscribe use it. */
    method CheckConnected() returns (r: Result)
      requires Valid() && (call.Stored? || call.Removed?)
      modifies this`call
      ensures (View(), r) == Check(old(View()))
    {
      if conn != Connected {
        call := Idle;
        return Ok;
      }
      call := if call.Stored? then Subscribing(call.topic, call.qos) else Unsubscribing(call.topic);
      return Pending;
    }

    method SendToBroker(ok: bool) returns (r: Result)
      requires Valid() && (call.Subscribing? || call.Unsubscribing?)
      modifies this`call, this`session
      ensures (View(), r) == Send(old(View()), ok)
    {
      if ok {
        session := if call.Subscribing? then session[call.topic := ConvertQos(call.qos)] else session - {call.topic};
      }
      call := Idle;
      r := if ok then Ok else Fail;
    }

    /** The connected event: a new clean session, then resubscribe_all. */
    method OnConnected()
      requires Valid()
      modifies this`conn, this`link, this`session
      ensures View() == LinkUp(old(View()))
    {
      link, conn, session := true, Connected, map[];
      for i := 0 to subs.Length
        invariant session == Table(subs[..i])
        invariant View() == LinkUp(old(View())).(session := session)
      {
        assert subs[..i + 1][..i] == subs[..i];
        if subs[i].active {
          session := session[subs[i].topic := ConvertQos(subs[i].qos)];
        }
      }
      assert subs[..subs.Length] == subs[..];
    }

    /** The last locked part of os_mqtt_disconnect. */
    method ClearAll()
      requires Valid() && call.Clearing?
      modifies this`conn, this`call, subs
      ensures View() == DisconnectFinish(old(View()))
    {
      conn := Disconnected;
      forall i | 0 <= i < subs.Length {
        subs[i] := NONE;
      }
      call := if call.last then Closing else Idle;
    }

    /** The locked part of os_mqtt_connect. */
    method BeginConnect() returns (r: Result)
      requires Valid() && call == Idle
      modifies this`conn, this`call
      ensures (View(), r) == ConnectBegin(old(View()))
    {
      if !ready {
        return InvalidState;
      }
      if conn == Connecting || conn == Connected {
        return Ok;
      }
      conn, call := Connecting, Creating;
      return Pending;
    }

    method CreateClient(ok: bool)
      requires Valid() && call == Creating
      modifies this`client, this`call
      ensures View() == ConnectCreate(old(View()), ok)
    {
      if ok {
        client, call := true, Starting;
      } else {
        call := CreateFailed;
      }
    }

    method SetFailed()
      requires Valid() && call == CreateFailed
      modifies this`conn, this`call
      ensures View() == ConnectFailed(old(View()))
    {
      conn, call := Failed, Idle;
    }

    method StartClient(ok: bool) returns (r: Result)
      requires Valid() && call == Starting
      modifies this`client, this`started, this`call
      ensures (View(), r) == ConnectStart(old(View()), ok)
    {
      call := Idle;
      if !ok {
        client := false;
        return Fail;
      }
      started := true;
      return Ok;
    }

    method StopClient()
      requires Valid() && call.Stopping?
      modifies this`client, this`started, this`link, this`session, this`call
      ensures View() == DisconnectStop(old(View()))
    {
      client, started, link, session, call := false, false, false, map[], Clearing(call.last);
    }

    method OnDisconnected()
      requires Valid()
      modifies this`conn, this`link, this`session
      ensures View() == LinkDown(old(View()))
    {
      conn, link, session := Disconnected, false, map[];
    }

    method OnError()
      requires Valid()
      modifies this`conn
      ensures View() == ErrorEvent(old(View()))
    {
      conn := Failed;
    }

    /** The first check and the locked part of os_mqtt_disconnect. */
    method BeginDisconnect() returns (r: Result)
      requires Valid() && call == Idle
      modifies this`conn, this`call
      ensures (View(), r) == DisconnectBegin(old(View()))
    {
      if !ready || !client {
        return InvalidState;
      }
      conn, call := Disconnecting, Stopping(false);
      return Pending;
    }
  }

  // ---------------------------------------------------------------- runs

  datatype Event =
    | DoInit(mutex: bool) | DoDeinit | DoClose
    | DoSubscribe(topic: string, qos: nat) | DoUnsubscribe(topic: string) | DoCheck | DoSend(ok: bool)
    | DoConnect | DoCreate(ok: bool) | DoCreateFailed | DoStart(ok: bool)
    | DoDisconnect | DoStop | DoFinish
    | Up | Down | Error

  function Initial(): State {
    State(false, seq(OS_MQTT_MAX_SUBSCRIPTIONS, i => NONE), Disconnected, false, false, false, map[], Idle)
  }

  /** Which steps can come next. The API caller does one call at a time; the event task runs
      only while a client is started; connect is called only when there is no client; a call
      into the client library can be refused at any time, but reaches the broker only over a
      link that is up. */
  predicate Enabled(s: State, e: Event) {
    match e
    case DoInit(_) => s.call == Idle
    case DoDeinit => s.call == Idle
    case DoClose => s.call == Closing
    case DoSubscribe(_, _) => s.call == Idle
    case DoUnsubscribe(_) => s.call == Idle
    case DoCheck => s.call.Stored? || s.call.Removed?
    case DoSend(ok) => (s.call.Subscribing? || s.call.Unsubscribing?) && (ok ==> s.link)
    case DoConnect => s.call == Idle && !s.client
    case DoCreate(_) => s.call == Creating
    case DoCreateFailed => s.call == CreateFailed
    case DoStart(_) => s.call == Starting
    case DoDisconnect => s.call == Idle
    case DoStop => s.call.Stopping?
    case DoFinish => s.call.Clearing?
    case Up => s.started && !s.link
    case Down => s.started
    case Error => s.started
  }

  function Step(s: State, e: Event): State
    requires Enabled(s, e)
  {
    match e
    case DoInit(mutex) => Init(s, mutex).0
    case DoDeinit => DeinitBegin(s)
    case DoClose => DeinitFinish(s)
    case DoSubscribe(t, q) => SubscribeBegin(s, t, q).0
    case DoUnsubscribe(t) => UnsubscribeBegin(s, t).0
    case DoCheck => Check(s).0
    case DoSend(ok) => Send(s, ok).0
    case DoConnect => ConnectBegin(s).0
    case DoCreate(ok) => ConnectCreate(s, ok)
    case DoCreateFailed => ConnectFailed(s)
    case DoStart(ok) => ConnectStart(s, ok).0
    case DoDisconnect => DisconnectBegin(s).0
    case DoStop => DisconnectStop(s)
    case DoFinish => DisconnectFinish(s)
    case Up => LinkUp(s)
    case Down => LinkDown(s)
    case Error => ErrorEvent(s)
  }

  /** The state after a run. A step that is not possible is passed over. */
  function Run(events: seq<Event>): State {
    if events == [] then Initial()
    else
      var s := Run(events[..|events| - 1]);
      if Enabled(s, Last(events)) then Step(s, Last(events)) else s
  }

  /** Every step of the run was possible when it was taken. */
  predicate Legal(events: seq<Event>) {
    events == [] ||
    (Legal(events[..|events| - 1]) && Enabled(Run(events[..|events| - 1]), Last(events)))
  }

  // ---------------------------------------------------------------- the invariant

  ghost predicate Distinct(subs: seq<Sub>) {
    forall i, j :: 0 <= i < j < |subs| && subs[i].active && subs[j].active ==> subs[i].topic != subs[j].topic
  }

  /** Both maps say the same about topic t. */
  predicate SameAt(a: map<string, nat>, b: map<string, nat>, t: string) {
    (t in a <==> t in b) && (t in a ==> a[t] == b[t])
  }

  /** The topic of the call in flight, which the broker may not know of yet. */
  function CallTopics(call: Call): set<string> {
    match call
    case Stored(t, _) => {t}
    case Subscribing(t, _) => {t}
    case Removed(t) => {t}
    case Unsubscribing(t) => {t}
    case _ => {}
  }

  /** Except on the topic of the call in flight, apart holds exactly the topics on which table and
      session disagree. */
  ghost predicate Differ(s: State, apart: set<string>) {
    forall t :: t !in CallTopics(s.call) ==> (SameAt(s.session, Table(s.subs), t) <==> t !in apart)
  }

  /** What the call in flight has put into or taken from the table is still there or gone. */
  ghost predicate CallOnRecord(s: State) {
    match s.call
    case Stored(t, q) => t in Table(s.subs) && Table(s.subs)[t] == ConvertQos(q)
    case Subscribing(t, q) => t in Table(s.subs) && Table(s.subs)[t] == ConvertQos(q)
    case Removed(t) => t !in Table(s.subs)
    case Unsubscribing(t) => t !in Table(s.subs)
    case _ => true
  }

  /** Which clients and connection states go with which point of a call. */
  predicate Phases(s: State) {
    && (!s.ready ==> !s.client && s.call == Idle)
    && (s.link ==> s.started) && (s.started ==> s.client)
    && (s.client ==> s.call != Creating && s.call != CreateFailed && !s.call.Clearing? && s.call != Closing)
    && (s.call == Creating || s.call == CreateFailed || s.call == Starting ==> s.conn == Connecting)
    && (s.call == Starting ==> s.client && !s.started)
    && (s.call.Subscribing? || s.call.Unsubscribing? ==> s.conn != Connecting && s.started)
    && (s.conn == Connected && !s.call.Clearing? ==> s.link)
  }

  ghost predicate Inv(s: State, apart: set<string>) {
    && |s.subs| == OS_MQTT_MAX_SUBSCRIPTIONS && Distinct(s.subs) && CallOnRecord(s) && Phases(s)
    && (s.conn == Connected && !s.call.Clearing? ==> Differ(s, apart))
  }

  /** The session already is as the message that is about to be sent would make it. */
  predicate NothingToTell(s: State) {
    match s.call
    case Subscribing(t, q) => t in s.session && s.session[t] == ConvertQos(q)
    case Unsubscribing(t) => t !in s.session
    case _ => true
  }

  /** What one step does to the topics on which table and session are apart: a refused message
      sets its topic apart unless there was nothing to tell; an accepted one, and a connected
      event, bring them together. */
  function Part(s: State, apart: set<string>, e: Event): set<string> {
    match e
    case DoSend(ok) => if ok || NothingToTell(s) then apart - CallTopics(s.call) else apart + CallTopics(s.call)
    case Up => {}
    case _ => apart
  }

  /** The topics that the messages of a run have left apart. */
  function Apart(events: seq<Event>): set<string> {
    if events == [] then {}
    else
      var before := events[..|events| - 1];
      Part(Run(before), Apart(before), Last(events))
  }

  lemma {:induction false} TableKeys(subs: seq<Sub>, topic: string)
    ensures topic in Table(subs) <==> exists i :: 0 <= i < |subs| && subs[i].active && subs[i].topic == topic
  {
    if subs != [] {
      TableKeys(subs[..|subs| - 1], topic);
      if topic in Table(subs) && !(Last(subs).active && Last(subs).topic == topic) {
        var i :| 0 <= i < |subs| - 1 && subs[..|subs| - 1][i].active && subs[..|subs| - 1][i].topic == topic;
        assert subs[i].active && subs[i].topic == topic;
      }
      forall i | 0 <= i < |subs| && subs[i].active && subs[i].topic == topic ensures topic in Table(subs) {
        if i < |subs| - 1 {
          assert subs[..|subs| - 1][i] == subs[i];
        }
      }
    }
  }

  /** Using a free slot for a new topic adds exactly that topic to the table. */
  lemma {:induction false} TableAdd(subs: seq<Sub>, i: nat, topic: string, qos: nat)
    requires i < |subs| && !subs[i].active
    requires forall j :: 0 <= j < |subs| && subs[j].active ==> subs[j].topic != topic
    ensures Table(subs[i := Sub(topic, qos, true)]) == Table(subs)[topic := ConvertQos(qos)]
  {
    var last := |subs| - 1;
    var subs' := subs[i := Sub(topic, qos, true)];
    if i == last {
      assert subs'[..last] == subs[..last];
    } else {
      TableAdd(subs[..last], i, topic, qos);
      assert subs'[..last] == subs[..last][i := Sub(topic, qos, true)];
      assert subs'[last] == subs[last];
    }
  }

  /** Clearing a slot removes exactly its topic. */
  lemma {:induction false} TableRemove(subs: seq<Sub>, i: nat)
    requires i < |subs| && subs[i].active && Distinct(subs)
    ensures Table(subs[i := subs[i].(active := false)]) == Table(subs) - {subs[i].topic}
  {
    var last := |subs| - 1;
    var subs', topic := subs[i := subs[i].(active := false)], subs[i].topic;
    if i == last {
      assert subs'[..last] == subs[..last];
      TableKeys(subs[..last], topic);
      assert forall j :: 0 <= j < last && subs[j].active ==> subs[j].topic != topic;
    } else {
      TableRemove(subs[..last], i);
      assert subs'[..last] == subs[..last][i := subs[i].(active := false)];
      assert subs'[last] == subs[last];
    }
  }

  lemma {:induction false} TableEmpty(subs: seq<Sub>)
    requires forall i :: 0 <= i < |subs| ==> !subs[i].active
    ensures Table(subs) == map[]
  {
    if subs != [] {
      TableEmpty(subs[..|subs| - 1]);
    }
  }

  lemma SubscribeKeepsInv(s: State, apart: set<string>, topic: string, qos: nat)
    requires Inv(s, apart) && s.call == Idle
    ensures Inv(SubscribeBegin(s, topic, qos).0, apart)
  {
    var slot := FreeFrom(s.subs, 0);
    if |topic| < OS_MQTT_TOPIC_MAX_LEN && FindFrom(s.subs, topic, 0) == |s.subs| && slot < |s.subs| {
      TableAdd(s.subs, slot, topic, qos);
    }
  }

  lemma UnsubscribeKeepsInv(s: State, apart: set<string>, topic: string)
    requires Inv(s, apart) && s.call == Idle
    ensures Inv(UnsubscribeBegin(s, topic).0, apart)
  {
    var slot := FindFrom(s.subs, topic, 0);
    if slot < |s.subs| {
      TableRemove(s.subs, slot);
    } else {
      TableKeys(s.subs, topic);
    }
  }

  lemma SendKeepsInv(s: State, apart: set<string>, ok: bool)
    requires Inv(s, apart) && Enabled(s, DoSend(ok))
    ensures Inv(Send(s, ok).0, Part(s, apart, DoSend(ok)))
  {
  }

  lemma StepKeepsInv(s: State, apart: set<string>, e: Event)
    requires Inv(s, apart) && Enabled(s, e)
    ensures Inv(Step(s, e), Part(s, apart, e))
  {
    match e {
      case DoSubscribe(t, q) => SubscribeKeepsInv(s, apart, t, q);
      case DoUnsubscribe(t) => UnsubscribeKeepsInv(s, apart, t);
      case DoSend(ok) => SendKeepsInv(s, apart, ok);
      case _ =>
    }
  }

  lemma {:induction false} RunKeepsInv(events: seq<Event>)
    requires Legal(events)
    ensures Inv(Run(events), Apart(events))
  {
    if events == [] {
    } else {
      var before := events[..|events| - 1];
      RunKeepsInv(before);
      StepKeepsInv(Run(before), Apart(before), Last(events));
    }
  }

  /** The module is connected and no call is in flight. */
  predicate Settled(s: State) {
    s.conn == Connected && s.call == Idle
  }

  /** After every interleaving, refusals of the client library included: while the module is
      connected and no call is in flight, table and broker agree on a topic, quality of service
      included, if and only if the messages of the run have not left it apart. */
  lemma AgreementIff(events: seq<Event>, t: string)
    requires Legal(events) && Settled(Run(events))
    ensures Run(events).link
    ensures SameAt(Run(events).session, Table(Run(events).subs), t) <==> t !in Apart(events)
  {
    RunKeepsInv(events);
  }

  /** The client library refuses a message only while the link is down. */
  predicate Reliable(events: seq<Event>) {
    events == [] ||
    (var before := events[..|events| - 1];
     Reliable(before) && (Last(events).DoSend? ==> Last(events).ok == Run(before).link))
  }

  lemma {:induction false} ReliableStaysTogether(events: seq<Event>)
    requires Legal(events) && Reliable(events) && Run(events).link
    ensures Apart(events) == {}
  {
    if events == [] {
    } else {
      var before, e := events[..|events| - 1], Last(events);
      LinkOnlyByUp(Run(before), e);
      if e != Up {
        ReliableStaysTogether(before);
      }
    }
  }

  lemma LinkOnlyByUp(s: State, e: Event)
    requires Enabled(s, e) && Step(s, e).link
    ensures s.link || e == Up
  {
  }

  lemma NothingApart(events: seq<Event>)
    requires Legal(events) && Settled(Run(events)) && Apart(events) == {}
    ensures Run(events).session == Table(Run(events).subs)
  {
    RunKeepsInv(events);
    SameEverywhere(Run(events).session, Table(Run(events).subs));
  }

  lemma SameEverywhere(a: map<string, nat>, b: map<string, nat>)
    requires forall t :: SameAt(a, b, t)
    ensures a == b
  {
    forall t
      ensures (t in a <==> t in b) && (t in a ==> a[t] == b[t])
    {
      assert SameAt(a, b, t);
    }
  }

  /** With a library that refuses nothing while the link is up: after every interleaving, while
      the module is connected and no call is in flight, the broker's session is the table. */
  lemma TableMatchesBroker(events: seq<Event>)
    requires Legal(events) && Reliable(events) && Settled(Run(events))
    ensures Run(events).link && Run(events).session == Table(Run(events).subs)
  {
    RunKeepsInv(events);
    ReliableStaysTogether(events);
    NothingApart(events);
  }

  predicate NoRefusal(events: seq<Event>) {
    forall k :: 0 <= k < |events| ==> events[k] != DoSend(false)
  }

  lemma {:induction false} TogetherSince(events: seq<Event>, more: seq<Event>)
    requires events != [] && Last(events) == Up && NoRefusal(more)
    ensures Apart(events + more) == {}
    decreases |more|
  {
    if more == [] {
      assert events + more == events;
    } else {
      var fewer := more[..|more| - 1];
      TogetherSince(events, fewer);
      assert (events + more)[..|events + more| - 1] == events + fewer;
    }
  }

  /** A connected event repairs whatever was refused before it: from then on, until the next
      refusal, the broker's session is the table whenever the module is connected and idle. */
  lemma ReconnectRepairs(events: seq<Event>, more: seq<Event>)
    requires events != [] && Last(events) == Up && NoRefusal(more)
    requires Legal(events + more) && Settled(Run(events + more))
    ensures Run(events + more).session == Table(Run(events + more).subs)
  {
    TogetherSince(events, more);
    NothingApart(events + more);
  }

  /** A call that found the module connected still has its started client when it reaches the
      library, even if the link is lost or an error comes in between; and while the module says
      that it is connected the link is there as well. */
  lemma SendHasClient(events: seq<Event>)
    requires Legal(events)
    ensures
      var s := Run(events);
      s.call.Subscribing? || s.call.Unsubscribing? ==>
        s.client && s.started && (s.conn == Connected ==> s.link)
  {
    RunKeepsInv(events);
  }

  /** What a refused message leaves: table and broker are apart on its topic exactly if there was
      something to tell. */
  lemma RefusedSendIff(s: State, apart: set<string>)
    requires Inv(s, apart) && (s.call.Subscribing? || s.call.Unsubscribing?)
    ensures
      var s' := Send(s, false).0;
      SameAt(s'.session, Table(s'.subs), s.call.topic) <==> NothingToTell(s)
  {
  }

  // ---------------------------------------------------------------- a client that cannot be started

  /** No client, and the state that makes connect return at once. */
  predicate Stuck(s: State) {
    && s.ready && s.conn == Connecting && !s.client
    && (s.call == Idle || s.call.Stored? || s.call.Removed?)
  }

  /** Only a failed start leads into that state. */
  lemma GetsStuckIff(s: State, apart: set<string>, e: Event)
    requires Inv(s, apart) && Enabled(s, e) && !Stuck(s)
    ensures Stuck(Step(s, e)) <==> e == DoStart(false)
  {
  }

  /** Only deinit leads out of it. */
  lemma LeavesStuckIff(s: State, apart: set<string>, e: Event)
    requires Inv(s, apart) && Enabled(s, e) && Stuck(s)
    ensures !Stuck(Step(s, e)) <==> e == DoDeinit
  {
  }

  /** Of the starts and deinits of a run, the last one is a start that failed. */
  predicate StartFailedLast(events: seq<Event>) {
    events != [] &&
    match Last(events)
    case DoStart(ok) => !ok
    case DoDeinit => false
    case _ => StartFailedLast(events[..|events| - 1])
  }

  /** After every interleaving: the module is connecting without a client, and connect returns
      success without doing anything, exactly if the last start failed and no deinit came since. */
  lemma {:induction false} StuckIff(events: seq<Event>)
    requires Legal(events)
    ensures Stuck(Run(events)) <==> StartFailedLast(events)
    ensures Stuck(Run(events)) ==> ConnectBegin(Run(events)) == (Run(events), Ok)
  {
    if events == [] {
    } else {
      var before, e := events[..|events| - 1], Last(events);
      RunKeepsInv(before);
      StuckIff(before);
      if Stuck(Run(before)) {
        LeavesStuckIff(Run(before), Apart(before), e);
      } else {
        GetsStuckIff(Run(before), Apart(before), e);
      }
    }
  }

  /** A run in state s, prolonged by one possible step. */
  lemma OneMore(events: seq<Event>, s: State, e: Event)
    requires Legal(events) && Run(events) == s && Enabled(s, e)
    ensures Legal(events + [e]) && Run(events + [e]) == Step(s, e)
    ensures Apart(events + [e]) == Part(s, Apart(events), e)
  {
    assert (events + [e])[..|events|] == events && Last(events + [e]) == e;
  }

  /** Deinit and init recover: connect goes on to a client again. */
  lemma ReinitRecovers(events: seq<Event>)
    requires Legal(events) && Stuck(Run(events)) && Run(events).call == Idle
    ensures
      var after := events + [DoDeinit] + [DoClose] + [DoInit(true)];
      && Legal(after) && Run(after).conn == Disconnected && Run(after).call == Idle
      && ConnectBegin(Run(after)).1 == Pending
  {
    var s := Run(events);
    OneMore(events, s, DoDeinit);
    OneMore(events + [DoDeinit], DeinitBegin(s), DoClose);
    OneMore(events + [DoDeinit] + [DoClose], DeinitFinish(DeinitBegin(s)), DoInit(true));
  }

  const READY := Initial().(ready := true)
  const OPENED := READY.(conn := Connecting, client := true, call := Starting)
  const LINKED := READY.(conn := Connected, client := true, started := true, link := true)

  /** Init and a connect whose client is created, up to its start. */
  const OPENING: seq<Event> := [] + [DoInit(true)] + [DoConnect] + [DoCreate(true)]

  lemma Opening()
    ensures Legal(OPENING) && Run(OPENING) == OPENED
  {
    assert Initial().subs == seq(|Initial().subs|, i => NONE);
    OneMore([], Initial(), DoInit(true));
    OneMore([] + [DoInit(true)], READY, DoConnect);
    OneMore([] + [DoInit(true)] + [DoConnect], READY.(conn := Connecting, call := Creating), DoCreate(true));
  }

  lemma FailedStartHappens()
    ensures Legal(OPENING + [DoStart(false)]) && Stuck(Run(OPENING + [DoStart(false)]))
  {
    Opening();
    OneMore(OPENING, OPENED, DoStart(false));
  }

  const LINKING: seq<Event> := OPENING + [DoStart(true)] + [Up]

  lemma Linking()
    ensures Legal(LINKING) && Run(LINKING) == LINKED && Apart(LINKING) == {}
  {
    Opening();
    OneMore(OPENING, OPENED, DoStart(true));
    TableEmpty(READY.subs);
    OneMore(OPENING + [DoStart(true)], OPENED.(started := true, call := Idle), Up);
  }

  /** From the start to a subscribe that the library refuses. */
  function Refusing(topic: string): seq<Event> {
    LINKING + [DoSubscribe(topic, 1)] + [DoCheck] + [DoSend(false)]
  }

  lemma RefusingRun(topic: string)
    requires |topic| < OS_MQTT_TOPIC_MAX_LEN
    ensures Legal(Refusing(topic)) && Apart(Refusing(topic)) == {topic}
    ensures Run(Refusing(topic)) == LINKED.(subs := LINKED.subs[0 := Sub(topic, 1, true)])
  {
    var stored := LINKED.(subs := LINKED.subs[0 := Sub(topic, 1, true)], call := Stored(topic, 1));
    Linking();
    OneMore(LINKING, LINKED, DoSubscribe(topic, 1));
    OneMore(LINKING + [DoSubscribe(topic, 1)], stored, DoCheck);
    OneMore(LINKING + [DoSubscribe(topic, 1)] + [DoCheck], stored.(call := Subscribing(topic, 1)), DoSend(false));
  }

  /** A run on which the broker never hears of a topic the table holds. */
  lemma RefusedSubscribeHappens(topic: string)
    requires |topic| < OS_MQTT_TOPIC_MAX_LEN
    ensures Legal(Refusing(topic)) && Settled(Run(Refusing(topic)))
    ensures topic in Table(Run(Refusing(topic)).subs) && topic !in Run(Refusing(topic)).session
  {
    RefusingRun(topic);
    TableAdd(LINKED.subs, 0, topic, 1);
  }

  /** Two refusals can cancel out: after a refused subscribe a refused unsubscribe of the same
      topic brings table and broker together, with no connected event in between. */
  lemma RefusalsCancelOut(topic: string)
    requires |topic| < OS_MQTT_TOPIC_MAX_LEN
    ensures
      var events := Refusing(topic) + [DoUnsubscribe(topic)] + [DoCheck] + [DoSend(false)];
      && Legal(events) && Settled(Run(events)) && Apart(events) == {}
      && Run(events).session == Table(Run(events).subs)
  {
    var first := Refusing(topic);
    var subscribed := LINKED.(subs := LINKED.subs[0 := Sub(topic, 1, true)]);
    var removed := LINKED.(subs := subscribed.subs[0 := Sub(topic, 1, false)], call := Removed(topic));
    RefusingRun(topic);
    assert FindFrom(subscribed.subs, topic, 0) == 0;
    OneMore(first, subscribed, DoUnsubscribe(topic));
    OneMore(first + [DoUnsubscribe(topic)], removed, DoCheck);
    OneMore(first + [DoUnsubscribe(topic)] + [DoCheck], removed.(call := Unsubscribing(topic)), DoSend(false));
    NothingApart(first + [DoUnsubscribe(topic)] + [DoCheck] + [DoSend(false)]);
  }
}
