/** What was asked of the scheduler, and what its slots, timers and queue make of it over every run. */
module ScheduledRequests {
  import opened CIntegers
  import opened CStrings
  import opened Scheduler

  // ---------------------------------------------------------------- one request, one cancel

  /** Some job goes by this name. */
  ghost predicate NameInUse(jobs: seq<Slot>, name: string) {
    exists i :: 0 <= i < |jobs| && jobs[i].Occupied() && jobs[i].name == name
  }

  ghost predicate TableFull(jobs: seq<Slot>) {
    forall i :: 0 <= i < |jobs| ==> jobs[i].Occupied()
  }

  /** When a request is accepted, and which error another one gets. */
  lemma ScheduleOutcome(s: State, r: Request)
    ensures
      var bad := r.name == "" || r.command == "" || r.delay == 0;
      var used, full, result := NameInUse(s.jobs, r.name), TableFull(s.jobs), ScheduleResult(s, r);
      && (result == InvalidArg <==> bad)
      && (result == InvalidState <==> !bad && used)
      && (result == NoMem <==> !bad && !used && (full || !r.created))
      && (result == Fail <==> !bad && !used && !full && r.created && !r.started)
      && (result == Ok <==> !bad && !used && !full && r.created && r.started)
  {
    if FindFrom(s.jobs, r.name, 0) < |s.jobs| {
      assert NameInUse(s.jobs, r.name);
    }
    if FreeFrom(s.jobs, 0) < |s.jobs| {
      assert !TableFull(s.jobs);
    }
  }

  /** Slot i is the only one that differs. */
  ghost predicate OnlySlot(jobs: seq<Slot>, jobs': seq<Slot>, i: nat) {
    |jobs'| == |jobs| && forall k :: 0 <= k < |jobs| && k != i ==> jobs'[k] == jobs[k]
  }

  /** A request that is turned down changes nothing. */
  lemma TurnedDown(s: State, r: Request)
    requires Safe(s) && ScheduleResult(s, r) != Ok
    ensures Schedule(s, r) == s
  {
    var i := FreeFrom(s.jobs, 0);
    if i < |s.jobs| {
      assert SafeSlot(s, i);
      assert s.jobs[i := EMPTY] == s.jobs;
    }
  }

  /** The slot carries out the request: its fields are the request's, the name cut to 23 and the
      command to 255 characters. */
  ghost predicate CarriesOut(j: Slot, r: Request) {
    && r.name != "" && r.command != "" && r.delay > 0
    && j.name == Prefix(r.name, 23) && j.command == Prefix(r.command, 255)
    && j.fd == r.fd && j.delay == r.delay && j.repeat == r.repeat
  }

  /** An accepted one takes a slot that was free and a new timer, and changes nothing else. */
  lemma Accepted(s: State, r: Request) returns (i: nat)
    requires Safe(s) && ScheduleResult(s, r) == Ok
    ensures
      var s', t := Schedule(s, r), s.nextTimer;
      && i < |s.jobs| && !s.jobs[i].Occupied() && OnlySlot(s.jobs, s'.jobs, i)
      && CarriesOut(s'.jobs[i], r) && s'.jobs[i].timer == Some(t)
      && s'.jobs[i].running && !s'.jobs[i].completed && s'.jobs[i].fires == 0
      && t !in s.timers && s'.timers == s.timers[t := Timer(i, r.repeat, true)] && s'.nextTimer > t
      && s'.queue == s.queue && s'.held == s.held && s'.reading == s.reading
  {
    i := FreeFrom(s.jobs, 0);
  }

  /** A cancel frees the job of that name and its timer; with no such job it changes nothing. */
  lemma CancelOutcome(s: State, name: string)
    requires Safe(s)
    ensures !NameInUse(s.jobs, name) ==> Cancel(s, name) == s
    ensures NameInUse(s.jobs, name) ==>
              exists i :: 0 <= i < |s.jobs| && s.jobs[i].Occupied() && s.jobs[i].name == name
                          && Freed(s, Cancel(s, name), i)
  {
    var i := FindFrom(s.jobs, name, 0);
    if i < |s.jobs| {
      assert s.jobs[i].Occupied() && s.jobs[i].name == name && Freed(s, Cancel(s, name), i);
    }
  }

  ghost predicate Freed(s: State, s': State, i: nat)
    requires i < |s.jobs|
  {
    && OnlySlot(s.jobs, s'.jobs, i) && !s'.jobs[i].Occupied()
    && (forall t :: t in s'.timers <==> t in s.timers && s.jobs[i].timer != Some(t))
    && (forall t :: t in s'.timers ==> s'.timers[t] == s.timers[t])
    && s'.nextTimer == s.nextTimer && s'.queue == s.queue && s'.held == s.held && s'.reading == s.reading
  }

  // ---------------------------------------------------------------- requests over runs

  /** The request that got each timer. */
  function Asked(events: seq<Event>): map<nat, Request> {
    if events == [] then map[]
    else
      var before, e := events[..|events| - 1], Last(events);
      var s := Run(before).0;
      if e.DoSchedule? && ScheduleResult(s, e.r) == Ok then Asked(before)[s.nextTimer := e.r] else Asked(before)
  }

  /** Every job in the table carries out the request that got its timer, and the timer repeats as
      the request says. */
  ghost predicate CarriedOut(s: State, asked: map<nat, Request>) {
    && (forall t :: t in asked ==> t < s.nextTimer)
    && (forall i :: 0 <= i < |s.jobs| ==> SlotCarriesOut(s.jobs[i], asked))
    && (forall t :: t in s.timers ==> t in asked && s.timers[t].repeat == asked[t].repeat)
  }

  ghost predicate SlotCarriesOut(j: Slot, asked: map<nat, Request>) {
    j.timer.Some? ==> j.timer.value in asked && CarriesOut(j, asked[j.timer.value])
  }

  lemma ScheduleCarriesOut(s: State, asked: map<nat, Request>, r: Request)
    requires Safe(s) && CarriedOut(s, asked) && ScheduleResult(s, r) == Ok
    ensures CarriedOut(Schedule(s, r), asked[s.nextTimer := r])
  {
    var asked' := asked[s.nextTimer := r];
    var i := Accepted(s, r);
    forall k | 0 <= k < |s.jobs|
      ensures SlotCarriesOut(Schedule(s, r).jobs[k], asked')
    {
      assert SafeSlot(s, k) && SlotCarriesOut(s.jobs[k], asked);
    }
  }

  /** No other step changes what a job is to do. */
  lemma OthersCarryOut(s: State, asked: map<nat, Request>, e: Event)
    requires Safe(s) && Enabled(s, e) && CarriedOut(s, asked)
    requires e.DoSchedule? ==> ScheduleResult(s, e.r) != Ok
    ensures CarriedOut(Step(s, e), asked)
  {
    if e.DoSchedule? {
      TurnedDown(s, e.r);
    }
    forall k | 0 <= k < |s.jobs|
      ensures SlotCarriesOut(Step(s, e).jobs[k], asked)
    {
      assert SlotCarriesOut(s.jobs[k], asked);
    }
  }

  /** After every run, whatever is cancelled when: each job in the table is the one its request
      asked for. */
  lemma {:induction false} EveryJobIsItsRequest(events: seq<Event>)
    ensures CarriedOut(Run(events).0, Asked(events))
  {
    if events == [] {
    } else {
      var before, e := events[..|events| - 1], Last(events);
      var s := Run(before).0;
      EveryJobIsItsRequest(before);
      EveryRunIsSafe(before);
      if e.DoSchedule? && ScheduleResult(s, e.r) == Ok {
        ScheduleCarriesOut(s, Asked(before), e.r);
      } else if Enabled(s, e) {
        OthersCarryOut(s, Asked(before), e);
      }
    }
  }

  /** The requests are those of the run. */
  lemma {:induction false} AskedInTheRun(events: seq<Event>, t: nat)
    requires t in Asked(events)
    ensures DoSchedule(Asked(events)[t]) in events
  {
    var before := events[..|events| - 1];
    assert forall e :: e in before ==> e in events;
    if t in Asked(before) && Asked(events)[t] == Asked(before)[t] {
      AskedInTheRun(before, t);
    }
  }

  /** In every run: when the worker comes to read the command of job t, and t is still scheduled,
      then what it reads is the command of the request that got t, cut to 255 characters, with the
      output that the request named. */
  lemma WorkerRunsWhatWasAsked(events: seq<Event>)
    requires Enabled(Run(events).0, DoRead)
    ensures
      var (s, l) := Run(events);
      && l.stage.Received?
      && var t, j, asked := l.stage.tag, s.jobs[s.held.value], Asked(events);
      && (t in s.timers <==> Run(events + [DoRead]).1.stage == Running(t))
      && (t in s.timers ==> t in asked && j.command == Prefix(asked[t].command, 255) && j.fd == asked[t].fd)
      && (t in s.timers ==> DoSchedule(asked[t]) in events && j.delay == asked[t].delay && j.repeat == asked[t].repeat)
      && (t in s.timers && |asked[t].name| <= 23 ==> j.name == asked[t].name)
  {
    var (s, l) := Run(events);
    EveryRunIsSafe(events);
    EveryJobIsItsRequest(events);
    TagInSlot(s, l.stage.tag, s.held.value);
    OneMore(events, s, l, DoRead);
    assert SlotCarriesOut(s.jobs[s.held.value], Asked(events));
    if l.stage.tag in s.timers {
      AskedInTheRun(events, l.stage.tag);
    }
  }

  // ---------------------------------------------------------------- the queue and the timers over runs

  /** The slots that fires have put into the queue, in order: a fire is dropped when 8 are queued. */
  function Queued(events: seq<Event>): seq<nat> {
    if events == [] then []
    else
      var before, e := events[..|events| - 1], Last(events);
      var s := Run(before).0;
      if e.DoFire? && Enabled(s, e) && |s.queue| < 8 then Queued(before) + [s.timers[e.t].slot] else Queued(before)
  }

  /** The slots whose pointers the worker has received, in order. */
  function Delivered(events: seq<Event>): seq<nat> {
    if events == [] then []
    else
      var before, e := events[..|events| - 1], Last(events);
      if e.DoTake? && Enabled(Run(before).0, e) && Run(events).0.held.Some?
      then Delivered(before) + [Run(events).0.held.value] else Delivered(before)
  }

  /** First in, first out: the worker receives what was queued, in that order, and the queue holds
      the rest, at most 8 pointers. */
  lemma {:induction false} QueueIsFifo(events: seq<Event>)
    ensures Queued(events) == Delivered(events) + Run(events).0.queue && |Run(events).0.queue| <= 8
  {
    EveryRunIsSafe(events);
    if events != [] {
      var before, e := events[..|events| - 1], Last(events);
      var s := Run(before).0;
      QueueIsFifo(before);
      if Enabled(s, e) {
        QueueStep(s, e, Delivered(before));
      }
    }
  }

  lemma QueueStep(s: State, e: Event, received: seq<nat>)
    requires Enabled(s, e)
    ensures
      var s' := Step(s, e);
      match e
      case DoFire(t) => received + s'.queue == received + s.queue + if |s.queue| < 8 then [s.timers[t].slot] else []
      case DoTake => s'.held.Some? && received + [s'.held.value] + s'.queue == received + s.queue
      case _ => s'.queue == s.queue
  {
    if e.DoTake? {
      assert s.queue == [s.queue[0]] + s.queue[1..];
      PushAssoc(received, s.queue[0], s.queue[1..]);
    }
  }

  /** A timer is armed if it repeats or has not fired. */
  ghost predicate ArmedWhenDue(s: State, l: Ledger) {
    && (forall t :: t in s.timers ==> (s.timers[t].armed <==> s.timers[t].repeat || Count(l.fired, t) == 0))
    && (forall t :: t >= s.nextTimer ==> Count(l.fired, t) == 0)
  }

  lemma FireArms(s: State, l: Ledger, x: nat)
    requires Safe(s) && Enabled(s, DoFire(x)) && ArmedWhenDue(s, l)
    ensures ArmedWhenDue(Fire(s, x), Record(s, l, DoFire(x)))
  {
    var l' := Record(s, l, DoFire(x));
    forall t ensures Count(l'.fired, t) == Count(l.fired, t) + if x == t then 1 else 0 {
      BumpCount(l.fired, x, t);
    }
  }

  /** What a step other than a fire leaves of the timers, and the new one it may start. */
  lemma OthersArm(s: State, l: Ledger, e: Event)
    requires Safe(s) && Enabled(s, e) && !e.DoFire? && ArmedWhenDue(s, l)
    ensures ArmedWhenDue(Step(s, e), Record(s, l, e))
  {
    match e {
      case DoSchedule(r) => ScheduleArms(s, l, r);
      case DoCancel(name) => CancelOutcome(s, name);
      case _ =>
    }
  }

  lemma ScheduleArms(s: State, l: Ledger, r: Request)
    requires Safe(s) && ArmedWhenDue(s, l)
    ensures ArmedWhenDue(Schedule(s, r), Record(s, l, DoSchedule(r)))
  {
    if ScheduleResult(s, r) == Ok {
      var i := Accepted(s, r);
    } else {
      TurnedDown(s, r);
    }
  }

  /** After every run exactly the repeating timers and those that have not fired are armed. */
  lemma {:induction false} ArmedIff(events: seq<Event>)
    ensures ArmedWhenDue(Run(events).0, Run(events).1)
  {
    if events == [] {
    } else {
      var before, e := events[..|events| - 1], Last(events);
      ArmedIff(before);
      EveryRunIsSafe(before);
      var (s, l) := Run(before);
      if Enabled(s, e) {
        if e.DoFire? {
          FireArms(s, l, e.t);
        } else {
          OthersArm(s, l, e);
        }
      }
    }
  }
}
