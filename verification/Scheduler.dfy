/** The job scheduler: a table of jobs, one software timer per job, a bounded queue of slot
    pointers filled by the timer task, and a worker that runs the queued jobs. */
module Scheduler {
  import opened CIntegers
  import opened CStrings
  import ShellHistory

  const OS_SCHED_MAX_JOBS: nat := 8
  const OS_SCHED_NAME_LEN: nat := 24
  const SHELL_MAX_LINE_LEN: nat := ShellHistory.SHELL_MAX_LINE_LEN

  /** A job slot; timer is the handle of its software timer. */
  datatype Slot = Slot(name: string, command: string, fd: int, delay: nat, repeat: bool,
                       running: bool, completed: bool, fires: nat, timer: Option<nat>)
  {
    predicate Occupied() {
      running || completed || timer.Some?
    }
  }

  const EMPTY := Slot("", "", 0, 0, false, false, false, 0, None)

  /** A started timer; a one-shot timer is not armed any more once it has fired. */
  datatype Timer = Timer(slot: nat, repeat: bool, armed: bool)

  /** queue holds slot indices, and so does held, the pointer the worker has received; reading
      says that it has not read the command yet. */
  datatype State = State(jobs: seq<Slot>, timers: map<nat, Timer>, nextTimer: nat,
                         queue: seq<nat>, held: Option<nat>, reading: bool)

  datatype Result = Ok | InvalidArg | InvalidState | NoMem | NotFound | Fail

  // ---------------------------------------------------------------- the steps

  function FindFrom(jobs: seq<Slot>, name: string, i: nat): (r: nat)
    requires i <= |jobs|
    ensures i <= r <= |jobs| && (r < |jobs| ==> jobs[r].Occupied() && jobs[r].name == name)
    ensures forall j :: i <= j < r ==> !(jobs[j].Occupied() && jobs[j].name == name)
    decreases |jobs| - i
  {
    if i == |jobs| || (jobs[i].Occupied() && jobs[i].name == name) then i else FindFrom(jobs, name, i + 1)
  }

  function FreeFrom(jobs: seq<Slot>, i: nat): (r: nat)
    requires i <= |jobs|
    ensures i <= r <= |jobs| && (r < |jobs| ==> !jobs[r].Occupied())
    ensures forall j :: i <= j < r ==> jobs[j].Occupied()
    decreases |jobs| - i
  {
    if i == |jobs| || !jobs[i].Occupied() then i else FreeFrom(jobs, i + 1)
  }

  /** What a schedule request asks for. created and started tell whether the timer service
      provides the timer and accepts its start. */
  datatype Request = Request(name: string, command: string, delay: nat, repeat: bool, fd: int,
                             created: bool, started: bool)

  function ScheduleResult(s: State, r: Request): Result {
    if r.name == "" || r.command == "" || r.delay == 0 then InvalidArg
    else if FindFrom(s.jobs, r.name, 0) < |s.jobs| then InvalidState
    else if FreeFrom(s.jobs, 0) == |s.jobs| || !r.created then NoMem
    else if !r.started then Fail
    else Ok
  }

  function NewJob(r: Request, timer: nat): Slot {
    Slot(Prefix(r.name, OS_SCHED_NAME_LEN - 1), Prefix(r.command, SHELL_MAX_LINE_LEN - 1),
         r.fd, r.delay, r.repeat, true, false, 0, Some(timer))
  }

  function Schedule(s: State, r: Request): State {
    var i, result := FreeFrom(s.jobs, 0), ScheduleResult(s, r);
    if result == Fail || (result == NoMem && i < |s.jobs|) then s.(jobs := s.jobs[i := EMPTY])
    else if result != Ok then s
    else
      s.(jobs := s.jobs[i := NewJob(r, s.nextTimer)],
         timers := s.timers[s.nextTimer := Timer(i, r.repeat, true)],
         nextTimer := s.nextTimer + 1)
  }

  function Cancel(s: State, name: string): State {
    var i := FindFrom(s.jobs, name, 0);
    if i == |s.jobs| then s
    else
      var timers := if s.jobs[i].timer.Some? then s.timers - {s.jobs[i].timer.value} else s.timers;
      s.(jobs := s.jobs[i := EMPTY], timers := timers)
  }

  function CountFire(j: Slot): Slot {
    j.(fires := (j.fires + 1) % UINT32)
  }

  function Fire(s: State, t: nat): State
    requires t in s.timers && s.timers[t].slot < |s.jobs|
  {
    var i := s.timers[t].slot;
    s.(jobs := s.jobs[i := CountFire(s.jobs[i])],
       timers := s.timers[t := s.timers[t].(armed := s.timers[t].repeat)],
       queue := if |s.queue| < OS_SCHED_MAX_JOBS then s.queue + [i] else s.queue)
  }

  function Take(s: State): State
    requires s.queue != []
  {
    s.(held := Some(s.queue[0]), queue := s.queue[1..], reading := true)
  }

  /** shell_execute copies the command out of the slot, without the lock, and runs it. */
  function Read(s: State): State {
    s.(reading := false)
  }

  /** The worker's locked update after the command has run. */
  function Done(j: Slot): Slot {
    if j.repeat then j else j.(completed := true, running := false)
  }

  function Finish(s: State): State
    requires s.held.Some? && s.held.value < |s.jobs|
  {
    s.(jobs := s.jobs[s.held.value := Done(s.jobs[s.held.value])], held := None)
  }

  // ---------------------------------------------------------------- the module

  class Table {
    const jobs: array<Slot>
    var timers: map<nat, Timer>
    var nextTimer: nat
    var queue: seq<nat>
    var held: Option<nat>
    var reading: bool

    ghost predicate Valid()
      reads this
    {
      jobs.Length == OS_SCHED_MAX_JOBS
    }

    ghost function View(): State
      reads this, jobs
    {
      State(jobs[..], timers, nextTimer, queue, held, reading)
    }

    constructor ()
      ensures Valid() && fresh(jobs) && View() == Initial()
    {
      jobs := new Slot[OS_SCHED_MAX_JOBS](i => EMPTY);
      timers, nextTimer, queue, held, reading := map[], 0, [], None, false;
    }

    method FindJob(name: string) returns (i: nat)
      requires Valid()
      ensures i == FindFrom(jobs[..], name, 0)
    {
      i := 0;
      while i < jobs.Length && !(jobs[i].Occupied() && jobs[i].name == name)
        invariant i <= jobs.Length && FindFrom(jobs[..], name, 0) == FindFrom(jobs[..], name, i)
      {
        i := i + 1;
      }
    }

    method FindFreeSlot() returns (i: nat)
      requires Valid()
      ensures i == FreeFrom(jobs[..], 0)
    {
      i := 0;
      while i < jobs.Length && jobs[i].Occupied()
        invariant i <= jobs.Length && FreeFrom(jobs[..], 0) == FreeFrom(jobs[..], i)
      {
        i := i + 1;
      }
    }

    method ScheduleJob(r: Request) returns (result: Result)
      requires Valid()
      modifies this, jobs
      ensures result == ScheduleResult(old(View()), r) && View() == Schedule(old(View()), r)
    {
      if r.name == "" || r.command == "" || r.delay == 0 {
        return InvalidArg;
      }
      var found := FindJob(r.name);
      if found < jobs.Length {
        return InvalidState;
      }
      var i := FindFreeSlot();
      if i == jobs.Length {
        return NoMem;
      }
      jobs[i] := NewJob(r, nextTimer);
      if !r.created || !r.started {
        jobs[i] := EMPTY;
        return if r.created then Fail else NoMem;
      }
      timers := timers[nextTimer := Timer(i, r.repeat, true)];
      nextTimer := nextTimer + 1;
      return Ok;
    }

    method CancelJob(name: string) returns (result: Result)
      requires Valid()
      modifies this, jobs
      ensures View() == Cancel(old(View()), name)
      ensures result == if FindFrom(old(jobs[..]), name, 0) < OS_SCHED_MAX_JOBS then Ok else NotFound
    {
      var i := FindJob(name);
      if i == jobs.Length {
        return NotFound;
      }
      if jobs[i].timer.Some? {
        timers := timers - {jobs[i].timer.value};
      }
      jobs[i] := EMPTY;
      return Ok;
    }

    /** timer_callback: counts the fire and queues the slot, unless the queue is full. */
    method TimerCallback(t: nat)
      requires Valid() && t in timers && timers[t].slot < jobs.Length
      modifies this, jobs
      ensures View() == Fire(old(View()), t)
    {
      var i := timers[t].slot;
      timers := timers[t := timers[t].(armed := timers[t].repeat)];
      jobs[i] := jobs[i].(fires := (jobs[i].fires + 1) % UINT32);
      if |queue| < OS_SCHED_MAX_JOBS {
        queue := queue + [i];
      }
    }

    method WorkerTake()
      requires Valid() && held == None && queue != []
      modifies this
      ensures View() == Take(old(View()))
    {
      held := Some(queue[0]);
      queue := queue[1..];
      reading := true;
    }

    /** The command that runs is the one found in the slot at this moment. */
    method WorkerRead() returns (command: string)
      requires Valid() && held.Some? && reading && held.value < jobs.Length
      modifies this`reading
      ensures View() == Read(old(View())) && command == jobs[held.value].command
    {
      command := jobs[held.value].command;
      reading := false;
    }

    method WorkerFinish()
      requires Valid() && held.Some? && !reading && held.value < jobs.Length
      modifies this, jobs
      ensures View() == Finish(old(View()))
    {
      var i := held.value;
      if !jobs[i].repeat {
        jobs[i] := jobs[i].(completed := true, running := false);
      }
      held := None;
    }
  }

  // ---------------------------------------------------------------- runs

  datatype Event = DoSchedule(r: Request) | DoCancel(name: string) | DoFire(t: nat) | DoTake | DoRead | DoFinish

  function Initial(): State {
    State(seq(OS_SCHED_MAX_JOBS, i => EMPTY), map[], 0, [], None, false)
  }

  predicate Enabled(s: State, e: Event) {
    match e
    case DoSchedule(_) => true
    case DoCancel(_) => true
    case DoFire(t) => t in s.timers && s.timers[t].armed && s.timers[t].slot < |s.jobs|
    case DoTake => s.held == None && s.queue != []
    case DoRead => s.held.Some? && s.held.value < |s.jobs| && s.reading
    case DoFinish => s.held.Some? && s.held.value < |s.jobs| && !s.reading
  }

  function Step(s: State, e: Event): State
    requires Enabled(s, e)
  {
    match e
    case DoSchedule(r) => Schedule(s, r)
    case DoCancel(name) => Cancel(s, name)
    case DoFire(t) => Fire(s, t)
    case DoTake => Take(s)
    case DoRead => Read(s)
    case DoFinish => Finish(s)
  }

  // ---------------------------------------------------------------- safety in every interleaving

  ghost predicate SafeSlot(s: State, i: nat)
    requires i < |s.jobs|
  {
    var j := s.jobs[i];
    && !(j.running && j.completed)
    && (j.repeat ==> j.running)
    && (j.running ==> j.timer.Some?)
    && (j.timer.Some? ==>
          && j.running != j.completed && j.name != ""
          && j.timer.value in s.timers && s.timers[j.timer.value].slot == i
          && s.timers[j.timer.value].repeat == j.repeat)
    && (j.timer.None? ==> j.name == "")
    && |j.name| < OS_SCHED_NAME_LEN
    && (!j.Occupied() ==> j == EMPTY)
  }

  ghost predicate Safe(s: State) {
    && |s.jobs| == OS_SCHED_MAX_JOBS
    && (forall i :: 0 <= i < |s.jobs| ==> SafeSlot(s, i))
    && (forall t :: t in s.timers ==>
          t < s.nextTimer && s.timers[t].slot < |s.jobs| && s.jobs[s.timers[t].slot].timer == Some(t))
    && |s.queue| <= OS_SCHED_MAX_JOBS
    && (forall k :: 0 <= k < |s.queue| ==> s.queue[k] < |s.jobs|)
    && (s.held.Some? ==> s.held.value < |s.jobs|)
  }

  ghost predicate DistinctNames(jobs: seq<Slot>) {
    forall i, j :: 0 <= i < j < |jobs| && jobs[i].name != "" ==> jobs[i].name != jobs[j].name
  }

  lemma ScheduleIsSafe(s: State, r: Request)
    requires Safe(s)
    ensures Safe(Schedule(s, r))
  {
    forall k | 0 <= k < |s.jobs| ensures SafeSlot(Schedule(s, r), k) {
      assert SafeSlot(s, k);
    }
  }

  lemma CancelIsSafe(s: State, name: string)
    requires Safe(s)
    ensures Safe(Cancel(s, name))
  {
    var i, s' := FindFrom(s.jobs, name, 0), Cancel(s, name);
    if i < |s.jobs| {
      forall k | 0 <= k < |s.jobs| ensures SafeSlot(s', k) {
        assert SafeSlot(s, k) && SafeSlot(s, i);
      }
    }
  }

  lemma FireIsSafe(s: State, t: nat)
    requires Safe(s) && Enabled(s, DoFire(t))
    ensures Safe(Fire(s, t))
  {
    forall k | 0 <= k < |s.jobs| ensures SafeSlot(Fire(s, t), k) {
      assert SafeSlot(s, k);
    }
  }

  lemma FinishIsSafe(s: State)
    requires Safe(s) && Enabled(s, DoFinish)
    ensures Safe(Finish(s))
  {
    forall k | 0 <= k < |s.jobs| ensures SafeSlot(Finish(s), k) {
      assert SafeSlot(s, k);
    }
  }

  /** Names of scheduled jobs stay distinct unless the new name is too long for a slot and its
      first 23 characters are a name in use: the search compares the uncut name. */
  lemma ScheduleKeepsNamesIff(s: State, r: Request)
    requires Safe(s) && DistinctNames(s.jobs) && ScheduleResult(s, r) == Ok
    ensures DistinctNames(Schedule(s, r).jobs) <==>
              |r.name| <= 23 || FindFrom(s.jobs, Prefix(r.name, 23), 0) == |s.jobs|
  {
    var i, cut := FreeFrom(s.jobs, 0), Prefix(r.name, OS_SCHED_NAME_LEN - 1);
    var k, jobs' := FindFrom(s.jobs, cut, 0), Schedule(s, r).jobs;
    assert cut != "" && SafeSlot(s, i);
    if k < |s.jobs| {
      assert jobs'[k].name == jobs'[i].name == cut && k != i;
    }
    forall j | 0 <= j < |s.jobs| ensures s.jobs[j].name != "" ==> s.jobs[j].Occupied() {
      assert SafeSlot(s, j);
    }
  }

  predicate ShortNames(events: seq<Event>) {
    forall k :: 0 <= k < |events| && events[k].DoSchedule? ==> |events[k].r.name| < OS_SCHED_NAME_LEN
  }

  lemma StepIsSafe(s: State, e: Event)
    requires Safe(s) && Enabled(s, e)
    ensures Safe(Step(s, e))
  {
    match e {
      case DoSchedule(r) => ScheduleIsSafe(s, r);
      case DoCancel(name) => CancelIsSafe(s, name);
      case DoFire(t) => FireIsSafe(s, t);
      case DoTake =>
        forall k | 0 <= k < |s.jobs| ensures SafeSlot(Take(s), k) {
          assert SafeSlot(s, k);
        }
      case DoRead =>
        forall k | 0 <= k < |s.jobs| ensures SafeSlot(Read(s), k) {
          assert SafeSlot(s, k);
        }
      case DoFinish => FinishIsSafe(s);
    }
  }

  lemma StepKeepsNames(s: State, e: Event)
    requires Safe(s) && Enabled(s, e) && DistinctNames(s.jobs)
    requires e.DoSchedule? ==> |e.r.name| < OS_SCHED_NAME_LEN
    ensures DistinctNames(Step(s, e).jobs)
  {
    if e.DoSchedule? && ScheduleResult(s, e.r) == Ok {
      ScheduleKeepsNamesIff(s, e.r);
    }
  }

  // ---------------------------------------------------------------- accounting

  /** What has become of the job whose pointer the worker has received. Running: its command was
      found in the slot; Stale: the job was not there any more. */
  datatype Stage = Free | Received(tag: nat) | Running(tag: nat) | Stale(tag: nat)

  /** A job is known by the timer it was scheduled with. tags runs beside the queue and tells
      which job each pointer was queued for; stage does so for the worker. */
  datatype Ledger = Ledger(tags: seq<nat>, stage: Stage, fired: map<nat, nat>, executed: map<nat, nat>,
                           dropped: map<nat, nat>, lost: map<nat, nat>, oneShot: set<nat>,
                           schedules: nat, cancels: nat)

  function Count(m: map<nat, nat>, k: nat): nat {
    if k in m then m[k] else 0
  }

  function Bump(m: map<nat, nat>, k: nat): map<nat, nat> {
    m[k := Count(m, k) + 1]
  }

  const BLANK := Ledger([], Free, map[], map[], map[], map[], {}, 0, 0)

  /** What one step adds to the accounts. */
  function Record(s: State, l: Ledger, e: Event): Ledger
    requires Enabled(s, e)
  {
    match e
    case DoSchedule(r) =>
      if ScheduleResult(s, r) != Ok then l
      else l.(schedules := l.schedules + 1,
              oneShot := if r.repeat then l.oneShot else l.oneShot + {s.nextTimer})
    case DoCancel(name) =>
      if FindFrom(s.jobs, name, 0) < |s.jobs| then l.(cancels := l.cancels + 1) else l
    case DoFire(t) =>
      if |s.queue| < OS_SCHED_MAX_JOBS then l.(fired := Bump(l.fired, t), tags := l.tags + [t])
      else l.(fired := Bump(l.fired, t), dropped := Bump(l.dropped, t))
    case DoTake => if l.tags == [] then l else l.(stage := Received(l.tags[0]), tags := l.tags[1..])
    case DoRead =>
      if !l.stage.Received? then l
      else if s.jobs[s.held.value].timer == Some(l.stage.tag) then l.(stage := Running(l.stage.tag))
      else l.(stage := Stale(l.stage.tag), lost := Bump(l.lost, l.stage.tag))
    case DoFinish =>
      if l.stage.Running? then l.(stage := Free, executed := Bump(l.executed, l.stage.tag))
      else l.(stage := Free)
  }

  /** The state and the accounts after a run. A step that is not possible is passed over. */
  function Run(events: seq<Event>): (State, Ledger) {
    if events == [] then (Initial(), BLANK)
    else
      var (s, l) := Run(events[..|events| - 1]);
      var e := Last(events);
      if Enabled(s, e) then (Step(s, e), Record(s, l, e)) else (s, l)
  }

  /** The worker is on its way to running job t, or runs it. */
  predicate AtWork(l: Ledger, t: nat) {
    l.stage == Received(t) || l.stage == Running(t)
  }

  /** Every fire of job t has been executed, is queued, is with the worker, was dropped because the
      queue was full, or was lost because the job was gone when the worker came to it. */
  ghost predicate Balanced(l: Ledger, t: nat) {
    Count(l.fired, t) == Count(l.executed, t) + multiset(l.tags)[t] + (if AtWork(l, t) then 1 else 0)
                         + Count(l.dropped, t) + Count(l.lost, t)
  }

  /** The ledger runs beside the state. */
  ghost predicate Paired(s: State, l: Ledger) {
    && |l.tags| == |s.queue| && (s.held.Some? <==> !l.stage.Free?)
    && (s.reading <==> l.stage.Received?)
  }

  /** The job tagged t, while it is scheduled, has slot i. */
  predicate KnownTag(s: State, t: nat, i: nat) {
    t < s.nextTimer && (t in s.timers ==> s.timers[t].slot == i)
  }

  ghost predicate Tagged(s: State, l: Ledger) {
    && Paired(s, l)
    && (forall k :: 0 <= k < |s.queue| ==> KnownTag(s, l.tags[k], s.queue[k]))
    && (s.held.Some? ==> KnownTag(s, l.stage.tag, s.held.value))
    && (l.stage.Stale? ==> l.stage.tag !in s.timers)
  }

  lemma TakeTags(tags: seq<nat>, t: nat)
    requires tags != []
    ensures multiset(tags)[t] == multiset(tags[1..])[t] + if tags[0] == t then 1 else 0
  {
    assert tags == [tags[0]] + tags[1..];
  }

  lemma PushTags(tags: seq<nat>, x: nat, t: nat)
    ensures multiset(tags + [x])[t] == multiset(tags)[t] + if x == t then 1 else 0
  {
  }

  lemma BumpCount(m: map<nat, nat>, k: nat, t: nat)
    ensures Count(Bump(m, k), t) == Count(m, t) + if k == t then 1 else 0
  {
  }

  lemma FireBalances(s: State, l: Ledger, x: nat, t: nat)
    requires Enabled(s, DoFire(x)) && Balanced(l, t)
    ensures Balanced(Record(s, l, DoFire(x)), t)
  {
    BumpCount(l.fired, x, t);
    if |s.queue| < OS_SCHED_MAX_JOBS {
      PushTags(l.tags, x, t);
    } else {
      BumpCount(l.dropped, x, t);
    }
  }

  lemma FinishBalances(s: State, l: Ledger, t: nat)
    requires Enabled(s, DoFinish) && Balanced(l, t) && Paired(s, l)
    ensures Balanced(Record(s, l, DoFinish), t)
  {
    if l.stage.Running? {
      BumpCount(l.executed, l.stage.tag, t);
    }
  }

  lemma ReadBalances(s: State, l: Ledger, t: nat)
    requires Enabled(s, DoRead) && Balanced(l, t)
    ensures Balanced(Record(s, l, DoRead), t)
  {
    if l.stage.Received? {
      BumpCount(l.lost, l.stage.tag, t);
    }
  }

  lemma StepBalances(s: State, l: Ledger, e: Event, t: nat)
    requires Enabled(s, e) && Paired(s, l) && Balanced(l, t)
    ensures Balanced(Record(s, l, e), t)
  {
    match e {
      case DoTake => TakeTags(l.tags, t);
      case DoFire(x) => FireBalances(s, l, x, t);
      case DoRead => ReadBalances(s, l, t);
      case DoFinish => FinishBalances(s, l, t);
      case _ =>
    }
  }

  /** Whatever happens to the timers, a known tag stays known. */
  lemma TagStaysKnown(s: State, e: Event, t: nat, i: nat)
    requires Safe(s) && Enabled(s, e) && KnownTag(s, t, i)
    ensures KnownTag(Step(s, e), t, i)
  {
  }

  /** Steps that leave the queue and the worker alone. */
  lemma QuietTags(s: State, l: Ledger, e: Event)
    requires Safe(s) && Enabled(s, e) && Tagged(s, l) && (e.DoSchedule? || e.DoCancel?)
    ensures Tagged(Step(s, e), Record(s, l, e))
  {
    var s' := Step(s, e);
    forall k | 0 <= k < |s.queue|
      ensures KnownTag(s', l.tags[k], s.queue[k])
    {
      TagStaysKnown(s, e, l.tags[k], s.queue[k]);
    }
    if s.held.Some? {
      TagStaysKnown(s, e, l.stage.tag, s.held.value);
    }
    assert s'.queue == s.queue && s'.held == s.held && Record(s, l, e).tags == l.tags;
  }

  lemma FireTags(s: State, l: Ledger, t: nat)
    requires Safe(s) && Enabled(s, DoFire(t)) && Tagged(s, l)
    ensures Tagged(Fire(s, t), Record(s, l, DoFire(t)))
  {
    var s', l' := Fire(s, t), Record(s, l, DoFire(t));
    forall k | 0 <= k < |s'.queue|
      ensures KnownTag(s', l'.tags[k], s'.queue[k])
    {
      if k < |s.queue| {
        TagStaysKnown(s, DoFire(t), l.tags[k], s.queue[k]);
      }
    }
    if s.held.Some? {
      TagStaysKnown(s, DoFire(t), l.stage.tag, s.held.value);
    }
  }

  lemma StepTags(s: State, l: Ledger, e: Event)
    requires Safe(s) && Enabled(s, e) && Tagged(s, l)
    ensures Tagged(Step(s, e), Record(s, l, e))
  {
    match e {
      case DoSchedule(r) => QuietTags(s, l, e);
      case DoCancel(name) => QuietTags(s, l, e);
      case DoFire(t) => FireTags(s, l, t);
      case DoTake =>
      case DoRead => TagInSlot(s, l.stage.tag, s.held.value);
      case DoFinish =>
    }
  }

  /** A tagged job is in its slot exactly as long as its timer exists. */
  lemma TagInSlot(s: State, t: nat, i: nat)
    requires Safe(s) && KnownTag(s, t, i) && i < |s.jobs|
    ensures s.jobs[i].timer == Some(t) <==> t in s.timers
  {
    assert SafeSlot(s, i);
  }

  /** A fire is lost exactly when the worker comes to read the command of a job that has been
      cancelled. */
  lemma LostIff(s: State, l: Ledger, e: Event, t: nat)
    requires Safe(s) && Enabled(s, e) && Tagged(s, l)
    ensures Count(Record(s, l, e).lost, t) != Count(l.lost, t)
            <==> e == DoRead && l.stage.tag == t && t !in s.timers
  {
    if e.DoRead? {
      TagInSlot(s, l.stage.tag, s.held.value);
      BumpCount(l.lost, l.stage.tag, t);
    }
  }

  /** Safety and the balance of fires hold after every run, mid-flight cancels included. */
  lemma {:induction false} EveryRunIsSafe(events: seq<Event>)
    ensures Safe(Run(events).0) && Tagged(Run(events).0, Run(events).1)
    ensures forall t :: Balanced(Run(events).1, t)
    ensures ShortNames(events) ==> DistinctNames(Run(events).0.jobs)
  {
    if events == [] {
    } else {
      var before, e := events[..|events| - 1], Last(events);
      EveryRunIsSafe(before);
      var (s, l) := Run(before);
      assert ShortNames(events) ==> ShortNames(before);
      if Enabled(s, e) {
        StepIsSafe(s, e);
        if ShortNames(events) {
          StepKeepsNames(s, e);
        }
        StepTags(s, l, e);
        forall t ensures Balanced(Record(s, l, e), t) {
          StepBalances(s, l, e, t);
        }
      }
    }
  }

  // ---------------------------------------------------------------- runs without mid-flight cancels

  /** The slot's pointer is queued or held by the worker. */
  predicate InFlight(s: State, i: nat) {
    i in s.queue || s.held == Some(i)
  }

  /** A cancel does not hit a job in flight. */
  predicate Disciplined(s: State, e: Event) {
    e.DoCancel? ==> !InFlight(s, FindFrom(s.jobs, e.name, 0))
  }

  /** Every event of the run was disciplined when it happened. */
  predicate DisciplinedRun(events: seq<Event>) {
    events == [] ||
    (DisciplinedRun(events[..|events| - 1]) && Disciplined(Run(events[..|events| - 1]).0, Last(events)))
  }

  /** Each pointer in flight denotes the job it was queued for, still scheduled. */
  ghost predicate PointersFaithful(s: State, l: Ledger) {
    && |s.jobs| == OS_SCHED_MAX_JOBS && Paired(s, l)
    && (forall k :: 0 <= k < |s.queue| ==>
          s.queue[k] < |s.jobs| && s.jobs[s.queue[k]].timer == Some(l.tags[k]))
    && (s.held.Some? ==>
          s.held.value < |s.jobs| && !l.stage.Stale? && s.jobs[s.held.value].timer == Some(l.stage.tag))
  }

  /** No job of the queue or of the worker has been cancelled: all their timers exist. */
  ghost predicate NoneCancelled(s: State, l: Ledger) {
    && (forall k :: 0 <= k < |l.tags| ==> l.tags[k] in s.timers)
    && (!l.stage.Free? ==> l.stage.tag in s.timers)
  }

  /** After every run, mid-flight cancels included: each pointer in flight denotes the job it was
      queued for if and only if none of these jobs has been cancelled. */
  lemma PointersFaithfulIff(events: seq<Event>)
    ensures PointersFaithful(Run(events).0, Run(events).1) <==> NoneCancelled(Run(events).0, Run(events).1)
  {
    EveryRunIsSafe(events);
    TagsTellFaithful(Run(events).0, Run(events).1);
  }

  lemma TagsTellFaithful(s: State, l: Ledger)
    requires Safe(s) && Tagged(s, l)
    ensures PointersFaithful(s, l) <==> NoneCancelled(s, l)
  {
    forall k | 0 <= k < |s.queue|
      ensures s.jobs[s.queue[k]].timer == Some(l.tags[k]) <==> l.tags[k] in s.timers
    {
      TagInSlot(s, l.tags[k], s.queue[k]);
    }
    if s.held.Some? {
      TagInSlot(s, l.stage.tag, s.held.value);
    }
  }

  /** What the slot shows agrees with the accounts of its job. */
  ghost predicate SlotAccounts(s: State, l: Ledger, i: nat)
    requires i < |s.jobs|
  {
    var j := s.jobs[i];
    && (j.Occupied() ==> j.timer.Some?)
    && (j.timer.Some? ==>
          var t := j.timer.value;
          && j.fires == Count(l.fired, t) % UINT32
          && (j.repeat <==> t !in l.oneShot)
          && (!j.repeat ==> (j.completed <==> Count(l.executed, t) == 1)))
  }

  /** A one-shot job has fired at most once, and not at all while its timer is armed. */
  ghost predicate OneShotFired(s: State, l: Ledger, t: nat) {
    && (t in l.oneShot ==> Count(l.fired, t) <= 1)
    && (t in l.oneShot && t in s.timers && s.timers[t].armed ==> Count(l.fired, t) == 0)
    && (t >= s.nextTimer ==> t !in l.oneShot && Count(l.fired, t) == 0)
  }

  function OccupiedCount(jobs: seq<Slot>): (n: nat)
    ensures n <= |jobs|
  {
    if jobs == [] then 0
    else OccupiedCount(jobs[..|jobs| - 1]) + if Last(jobs).Occupied() then 1 else 0
  }

  lemma {:induction false} CountUpdate(jobs: seq<Slot>, i: nat, j: Slot)
    requires i < |jobs|
    ensures OccupiedCount(jobs[i := j]) - (if j.Occupied() then 1 else 0)
         == OccupiedCount(jobs) - (if jobs[i].Occupied() then 1 else 0)
  {
    var last := |jobs| - 1;
    if i == last {
      assert jobs[i := j][..last] == jobs[..last];
    } else {
      CountUpdate(jobs[..last], i, j);
      assert jobs[i := j][..last] == jobs[..last][i := j];
    }
  }

  ghost predicate Accounted(s: State, l: Ledger) {
    && Safe(s) && PointersFaithful(s, l) && (forall t :: Count(l.lost, t) == 0)
    && (forall i :: 0 <= i < |s.jobs| ==> SlotAccounts(s, l, i))
    && (forall t :: OneShotFired(s, l, t))
    && (forall t :: Balanced(l, t))
    && l.schedules == l.cancels + OccupiedCount(s.jobs)
  }

  /** Scheduling leaves the other slots and jobs as they are, and starts the new one at zero. */
  lemma NewJobAccounts(s: State, l: Ledger, r: Request)
    requires Accounted(s, l) && ScheduleResult(s, r) == Ok
    ensures
      var s', l' := Schedule(s, r), Record(s, l, DoSchedule(r));
      forall k :: 0 <= k < |s'.jobs| ==> SlotAccounts(s', l', k)
  {
    var s', l' := Schedule(s, r), Record(s, l, DoSchedule(r));
    assert OneShotFired(s, l, s.nextTimer) && Balanced(l, s.nextTimer);
    forall k | 0 <= k < |s.jobs| ensures SlotAccounts(s', l', k) {
      assert SafeSlot(s, k) && SlotAccounts(s, l, k);
    }
  }

  lemma NewJobOneShot(s: State, l: Ledger, r: Request, t: nat)
    requires Accounted(s, l) && ScheduleResult(s, r) == Ok
    ensures OneShotFired(Schedule(s, r), Record(s, l, DoSchedule(r)), t)
  {
    assert OneShotFired(s, l, t);
  }

  lemma ScheduleAccounts(s: State, l: Ledger, r: Request)
    requires Accounted(s, l)
    ensures Accounted(Schedule(s, r), Record(s, l, DoSchedule(r)))
  {
    var i := FreeFrom(s.jobs, 0);
    ScheduleIsSafe(s, r);
    if i < |s.jobs| {
      assert SafeSlot(s, i) && s.jobs[i] == EMPTY;
      assert s.jobs[i := EMPTY] == s.jobs;
    }
    if ScheduleResult(s, r) == Ok {
      CountUpdate(s.jobs, i, NewJob(r, s.nextTimer));
      NewJobAccounts(s, l, r);
      forall t ensures OneShotFired(Schedule(s, r), Record(s, l, DoSchedule(r)), t) {
        NewJobOneShot(s, l, r, t);
      }
      forall t ensures Balanced(Record(s, l, DoSchedule(r)), t) {
        StepBalances(s, l, DoSchedule(r), t);
      }
    }
  }

  lemma CancelAccounts(s: State, l: Ledger, name: string)
    requires Accounted(s, l) && Disciplined(s, DoCancel(name))
    ensures Accounted(Cancel(s, name), Record(s, l, DoCancel(name)))
  {
    var i, s', l' := FindFrom(s.jobs, name, 0), Cancel(s, name), Record(s, l, DoCancel(name));
    CancelIsSafe(s, name);
    if i < |s.jobs| {
      CountUpdate(s.jobs, i, EMPTY);
      forall k | 0 <= k < |s.jobs| ensures SlotAccounts(s', l', k) {
        assert SlotAccounts(s, l, k);
      }
      forall t ensures OneShotFired(s', l', t) {
        assert OneShotFired(s, l, t);
      }
      forall t ensures Balanced(l', t) {
        StepBalances(s, l, DoCancel(name), t);
      }
    }
  }

  lemma FiresWrap(j: Slot, n: nat)
    requires j.fires == n % UINT32
    ensures CountFire(j).fires == (n + 1) % UINT32
  {
  }

  lemma OtherJob(s: State, i: nat, k: nat)
    requires Safe(s) && i < |s.jobs| && k < |s.jobs| && i != k
    ensures s.jobs[k].timer.Some? ==> s.jobs[k].timer != s.jobs[i].timer
  {
    assert SafeSlot(s, i) && SafeSlot(s, k);
  }

  lemma FiredSlot(s: State, l: Ledger, t: nat)
    requires Accounted(s, l) && Enabled(s, DoFire(t))
    ensures SlotAccounts(Fire(s, t), Record(s, l, DoFire(t)), s.timers[t].slot)
  {
    var i := s.timers[t].slot;
    var j, j' := s.jobs[i], Fire(s, t).jobs[i];
    assert j.timer == Some(t) && SlotAccounts(s, l, i);
    FiresWrap(j, Count(l.fired, t));
    BumpCount(l.fired, t, t);
    assert j' == CountFire(j) && j'.timer == j.timer && j'.completed == j.completed;
  }

  lemma FireSlots(s: State, l: Ledger, t: nat, k: nat)
    requires Accounted(s, l) && Enabled(s, DoFire(t)) && k < |s.jobs|
    ensures SlotAccounts(Fire(s, t), Record(s, l, DoFire(t)), k)
  {
    var i := s.timers[t].slot;
    if k == i {
      FiredSlot(s, l, t);
    } else {
      assert s.jobs[i].timer == Some(t) && SlotAccounts(s, l, k);
      assert Fire(s, t).jobs[k] == s.jobs[k];
      OtherJob(s, i, k);
      if s.jobs[k].timer.Some? {
        BumpCount(l.fired, t, s.jobs[k].timer.value);
      }
    }
  }

  lemma FireOneShot(s: State, l: Ledger, t: nat, x: nat)
    requires Accounted(s, l) && Enabled(s, DoFire(t))
    ensures OneShotFired(Fire(s, t), Record(s, l, DoFire(t)), x)
  {
    var i := s.timers[t].slot;
    assert SafeSlot(s, i) && SlotAccounts(s, l, i);
    assert OneShotFired(s, l, x);
  }

  lemma FireKeepsTimers(s: State, t: nat)
    requires Safe(s) && Enabled(s, DoFire(t))
    ensures |Fire(s, t).jobs| == |s.jobs| && Fire(s, t).held == s.held
    ensures forall i :: 0 <= i < |s.jobs| ==> Fire(s, t).jobs[i].timer == s.jobs[i].timer
    ensures s.jobs[s.timers[t].slot].timer == Some(t)
  {
  }

  lemma FirePointers(s: State, l: Ledger, t: nat)
    requires Accounted(s, l) && Enabled(s, DoFire(t))
    ensures PointersFaithful(Fire(s, t), Record(s, l, DoFire(t)))
  {
    FireKeepsTimers(s, t);
    var s', l' := Fire(s, t), Record(s, l, DoFire(t));
    forall k | 0 <= k < |s'.queue|
      ensures s'.queue[k] < |s'.jobs| && s'.jobs[s'.queue[k]].timer == Some(l'.tags[k])
    {
      if k < |s.queue| {
        assert s'.queue[k] == s.queue[k] && l'.tags[k] == l.tags[k];
      }
    }
  }

  lemma FireAccounts(s: State, l: Ledger, t: nat)
    requires Accounted(s, l) && Enabled(s, DoFire(t))
    ensures Accounted(Fire(s, t), Record(s, l, DoFire(t)))
  {
    var i, s', l' := s.timers[t].slot, Fire(s, t), Record(s, l, DoFire(t));
    FireIsSafe(s, t);
    FirePointers(s, l, t);
    CountUpdate(s.jobs, i, CountFire(s.jobs[i]));
    forall k | 0 <= k < |s.jobs| ensures SlotAccounts(s', l', k) {
      FireSlots(s, l, t, k);
    }
    forall x ensures OneShotFired(s', l', x) {
      FireOneShot(s, l, t, x);
    }
    forall x ensures Balanced(l', x) {
      FireBalances(s, l, t, x);
    }
  }

  lemma TakeAccounts(s: State, l: Ledger)
    requires Accounted(s, l) && Enabled(s, DoTake)
    ensures Accounted(Take(s), Record(s, l, DoTake))
  {
    var s', l' := Take(s), Record(s, l, DoTake);
    StepIsSafe(s, DoTake);
    forall k | 0 <= k < |s.jobs| ensures SlotAccounts(s', l', k) {
      assert SlotAccounts(s, l, k);
    }
    forall x ensures OneShotFired(s', l', x) {
      assert OneShotFired(s, l, x);
    }
    forall x ensures Balanced(l', x) {
      StepBalances(s, l, DoTake, x);
    }
  }

  lemma ReadAccounts(s: State, l: Ledger)
    requires Accounted(s, l) && Enabled(s, DoRead)
    ensures Accounted(Read(s), Record(s, l, DoRead))
  {
    var s', l' := Read(s), Record(s, l, DoRead);
    StepIsSafe(s, DoRead);
    forall k | 0 <= k < |s.jobs| ensures SlotAccounts(s', l', k) {
      assert SlotAccounts(s, l, k);
    }
    forall x ensures OneShotFired(s', l', x) {
      assert OneShotFired(s, l, x);
    }
    forall x ensures Balanced(l', x) {
      ReadBalances(s, l, x);
    }
  }

  lemma FinishSlots(s: State, l: Ledger, k: nat)
    requires Accounted(s, l) && Enabled(s, DoFinish) && k < |s.jobs|
    ensures SlotAccounts(Finish(s), Record(s, l, DoFinish), k)
  {
    var i, t := s.held.value, l.stage.tag;
    assert s.jobs[i].timer == Some(t) && SlotAccounts(s, l, k);
    if k == i {
      assert SafeSlot(s, i);
      assert OneShotFired(s, l, t) && Balanced(l, t);
      BumpCount(l.executed, t, t);
    } else {
      OtherJob(s, i, k);
      if s.jobs[k].timer.Some? {
        BumpCount(l.executed, t, s.jobs[k].timer.value);
      }
    }
  }

  lemma FinishAccounts(s: State, l: Ledger)
    requires Accounted(s, l) && Enabled(s, DoFinish)
    ensures Accounted(Finish(s), Record(s, l, DoFinish))
  {
    var i, s', l' := s.held.value, Finish(s), Record(s, l, DoFinish);
    FinishIsSafe(s);
    assert SafeSlot(s, i);
    CountUpdate(s.jobs, i, Done(s.jobs[i]));
    forall k | 0 <= k < |s.jobs| ensures SlotAccounts(s', l', k) {
      FinishSlots(s, l, k);
    }
    forall x ensures OneShotFired(s', l', x) {
      assert OneShotFired(s, l, x);
    }
    forall x ensures Balanced(l', x) {
      FinishBalances(s, l, x);
    }
  }

  lemma StepAccounts(s: State, l: Ledger, e: Event)
    requires Accounted(s, l) && Enabled(s, e) && Disciplined(s, e)
    ensures Accounted(Step(s, e), Record(s, l, e))
  {
    match e {
      case DoSchedule(r) => ScheduleAccounts(s, l, r);
      case DoCancel(name) => CancelAccounts(s, l, name);
      case DoFire(t) => FireAccounts(s, l, t);
      case DoTake => TakeAccounts(s, l);
      case DoRead => ReadAccounts(s, l);
      case DoFinish => FinishAccounts(s, l);
    }
  }

  lemma {:induction false} EmptyCount(jobs: seq<Slot>)
    requires forall i :: 0 <= i < |jobs| ==> jobs[i] == EMPTY
    ensures OccupiedCount(jobs) == 0
  {
    if jobs != [] {
      EmptyCount(jobs[..|jobs| - 1]);
    }
  }

  lemma {:induction false} DisciplinedRunAccounted(events: seq<Event>)
    requires DisciplinedRun(events)
    ensures Accounted(Run(events).0, Run(events).1)
  {
    if events == [] {
      EmptyCount(Initial().jobs);
    } else {
      var before := events[..|events| - 1];
      DisciplinedRunAccounted(before);
      var (s, l) := Run(before);
      if Enabled(s, Last(events)) {
        StepAccounts(s, l, Last(events));
      }
    }
  }

  /** When no job is cancelled in flight: every pointer in flight denotes the job it was queued
      for; a one-shot job runs at most once, and its slot says completed exactly when it has
      run; and the occupied slots are the schedules less the cancels, never more than 8. */
  lemma DisciplinedRunsConserveJobs(events: seq<Event>)
    requires DisciplinedRun(events)
    ensures
      var (s, l) := Run(events);
      && PointersFaithful(s, l) && (forall t :: Balanced(l, t) && Count(l.lost, t) == 0)
      && (forall t :: t in l.oneShot ==> Count(l.executed, t) <= 1)
      && (forall i :: 0 <= i < |s.jobs| && s.jobs[i].timer.Some? && !s.jobs[i].repeat ==>
            (s.jobs[i].completed <==> Count(l.executed, s.jobs[i].timer.value) == 1))
      && OccupiedCount(s.jobs) == l.schedules - l.cancels <= OS_SCHED_MAX_JOBS
  {
    DisciplinedRunAccounted(events);
    var (s, l) := Run(events);
    forall t | t in l.oneShot ensures Count(l.executed, t) <= 1 {
      assert OneShotFired(s, l, t) && Balanced(l, t);
    }
    forall i | 0 <= i < |s.jobs| && s.jobs[i].timer.Some? && !s.jobs[i].repeat
      ensures s.jobs[i].completed <==> Count(l.executed, s.jobs[i].timer.value) == 1
    {
      assert SlotAccounts(s, l, i);
    }
  }

  /** A cancel keeps the accounts in order exactly when its job is not in flight. */
  lemma CancelKeepsAccountsIff(s: State, l: Ledger, name: string)
    requires Accounted(s, l) && FindFrom(s.jobs, name, 0) < |s.jobs|
    ensures Accounted(Cancel(s, name), Record(s, l, DoCancel(name)))
            <==> !InFlight(s, FindFrom(s.jobs, name, 0))
  {
    var i, s' := FindFrom(s.jobs, name, 0), Cancel(s, name);
    if !InFlight(s, i) {
      CancelAccounts(s, l, name);
    } else if s.held != Some(i) {
      var k :| 0 <= k < |s.queue| && s.queue[k] == i;
      assert s'.queue[k] == i && s'.jobs[i] == EMPTY;
    }
  }

  // ---------------------------------------------------------------- stranded slots

  /** A slot without job, name or timer that is marked completed all the same. */
  const STRANDED := EMPTY.(completed := true)

  /** A slot gets stranded exactly when the worker is done with a pointer to an emptied slot. */
  lemma GetsStrandedIff(s: State, e: Event, i: nat)
    requires Safe(s) && Enabled(s, e) && i < |s.jobs| && s.jobs[i] != STRANDED
    ensures Step(s, e).jobs[i] == STRANDED <==> e == DoFinish && s.held == Some(i) && s.jobs[i] == EMPTY
  {
    assert SafeSlot(s, i);
  }

  /** It is out of use for later jobs until a cancel of the empty name finds it. */
  lemma LeavesStrandedIff(s: State, e: Event, i: nat)
    requires Safe(s) && Enabled(s, e) && i < |s.jobs| && s.jobs[i] == STRANDED
    ensures Step(s, e).jobs[i] == if e == DoCancel("") && FindFrom(s.jobs, "", 0) == i then EMPTY else STRANDED
  {
    if e.DoFire? {
      assert SafeSlot(s, i);
    }
  }

  function RunFrom(s: State, events: seq<Event>): State
    decreases |events|
  {
    if events == [] then s
    else RunFrom(if Enabled(s, events[0]) then Step(s, events[0]) else s, events[1..])
  }

  lemma {:induction false} StaysStranded(s: State, events: seq<Event>, i: nat)
    requires Safe(s) && i < |s.jobs| && s.jobs[i] == STRANDED && DoCancel("") !in events
    ensures |RunFrom(s, events).jobs| == |s.jobs| && RunFrom(s, events).jobs[i] == STRANDED
    decreases |events|
  {
    if events == [] {
    } else if Enabled(s, events[0]) {
      StepIsSafe(s, events[0]);
      LeavesStrandedIff(s, events[0], i);
      StaysStranded(Step(s, events[0]), events[1..], i);
    } else {
      StaysStranded(s, events[1..], i);
    }
  }

  /** During the run slot i is given to no new job, and no cancel of the empty name comes. */
  predicate LeftAlone(s: State, events: seq<Event>, i: nat)
    decreases |events|
  {
    events == [] ||
    (var e := events[0];
     && e != DoCancel("")
     && (e.DoSchedule? && ScheduleResult(s, e.r) == Ok ==> FreeFrom(s.jobs, 0) != i)
     && LeftAlone(if Enabled(s, e) then Step(s, e) else s, events[1..], i))
  }

  lemma EmptiedSlotStep(s: State, e: Event, i: nat)
    requires Safe(s) && Enabled(s, e) && i < |s.jobs| && s.jobs[i] == EMPTY && LeftAlone(s, [e], i)
    ensures Step(s, e).jobs[i] == if e == DoFinish && s.held == Some(i) then STRANDED else EMPTY
    ensures Step(s, e).jobs[i] == EMPTY ==> (InFlight(Step(s, e), i) <==> InFlight(s, i))
  {
    if e.DoFire? {
      assert SafeSlot(s, i);
    } else if e.DoTake? {
      assert s.queue == [s.queue[0]] + s.queue[1..];
    }
  }

  lemma {:induction false} EmptiedSlotRun(s: State, events: seq<Event>, i: nat)
    requires Safe(s) && i < |s.jobs| && s.jobs[i] == EMPTY && LeftAlone(s, events, i)
    ensures |RunFrom(s, events).jobs| == |s.jobs|
    ensures !InFlight(RunFrom(s, events), i) ==>
              RunFrom(s, events).jobs[i] == if InFlight(s, i) then STRANDED else EMPTY
    decreases |events|
  {
    if events == [] {
    } else if Enabled(s, events[0]) {
      var s' := Step(s, events[0]);
      StepIsSafe(s, events[0]);
      EmptiedSlotStep(s, events[0], i);
      if s'.jobs[i] == EMPTY {
        EmptiedSlotRun(s', events[1..], i);
      } else {
        LeftAloneNoCancel(s', events[1..], i);
        StaysStranded(s', events[1..], i);
      }
    } else {
      EmptiedSlotRun(s, events[1..], i);
    }
  }

  lemma {:induction false} LeftAloneNoCancel(s: State, events: seq<Event>, i: nat)
    requires LeftAlone(s, events, i)
    ensures DoCancel("") !in events
    decreases |events|
  {
    if events != [] {
      LeftAloneNoCancel(if Enabled(s, events[0]) then Step(s, events[0]) else s, events[1..], i);
    }
  }

  /** A cancel, and any run after it in which the slot is left alone, up to a state in which the
      pointers to the slot have drained: the slot is stranded if a pointer to it was queued or held
      when it was cancelled, and free otherwise. */
  lemma CancelStrandsIff(s: State, name: string, events: seq<Event>)
    requires Safe(s) && FindFrom(s.jobs, name, 0) < |s.jobs|
    requires LeftAlone(Cancel(s, name), events, FindFrom(s.jobs, name, 0))
    ensures
      var i, after := FindFrom(s.jobs, name, 0), RunFrom(Cancel(s, name), events);
      && |after.jobs| == |s.jobs|
      && (!InFlight(after, i) ==> after.jobs[i] == if InFlight(s, i) then STRANDED else EMPTY)
  {
    CancelIsSafe(s, name);
    EmptiedSlotRun(Cancel(s, name), events, FindFrom(s.jobs, name, 0));
  }

  /** In particular a job cancelled while the worker runs it leaves its slot stranded, and a
      cancel of the empty name frees it again. */
  lemma CancelledWhileRunning(s: State, l: Ledger, i: nat)
    requires Accounted(s, l) && DistinctNames(s.jobs) && s.held == Some(i)
    ensures
      var after := Finish(Cancel(s, s.jobs[i].name));
      && after.jobs[i] == STRANDED && after.jobs[i].Occupied()
      && Cancel(after, "").jobs[i] == EMPTY
  {
    assert SafeSlot(s, i);
    var name := s.jobs[i].name;
    var k := FindFrom(s.jobs, name, 0);
    assert k == i by {
      assert name != "" && s.jobs[i].Occupied();
    }
    var after := Finish(Cancel(s, name));
    forall j | 0 <= j < |after.jobs| && after.jobs[j].Occupied() && after.jobs[j].name == ""
      ensures j == i
    {
      assert SafeSlot(s, j) && SlotAccounts(s, l, j);
    }
    OnlyOneFound(after.jobs, "", i);
  }

  lemma OnlyOneFound(jobs: seq<Slot>, name: string, i: nat)
    requires i < |jobs| && jobs[i].Occupied() && jobs[i].name == name
    requires forall j :: 0 <= j < |jobs| && jobs[j].Occupied() && jobs[j].name == name ==> j == i
    ensures FindFrom(jobs, name, 0) == i
  {
  }

  // ---------------------------------------------------------------- runs from the start

  lemma OneMore(events: seq<Event>, s: State, l: Ledger, e: Event)
    requires Run(events) == (s, l) && Enabled(s, e)
    ensures Run(events + [e]) == (Step(s, e), Record(s, l, e))
  {
    assert (events + [e])[..|events|] == events && Last(events + [e]) == e;
  }

  predicate Schedulable(r: Request) {
    r.name != "" && r.command != "" && r.delay != 0 && r.created && r.started
  }

  /** Slot 0 holds slot, and the worker holds a pointer to it, received or read. */
  function AtFirst(slot: Slot, timers: map<nat, Timer>, next: nat, queue: seq<nat>, held: Option<nat>,
                   reading: bool): State {
    State(Initial().jobs[0 := slot], timers, next, queue, held, reading)
  }

  /** The state after a first job has been scheduled. */
  function FirstJob(r: Request): State {
    AtFirst(NewJob(r, 0), map[0 := Timer(0, r.repeat, true)], 1, [], None, false)
  }

  function FirstLedger(r: Request): Ledger {
    BLANK.(schedules := 1, oneShot := if r.repeat then {} else {0})
  }

  lemma FirstSchedule(r: Request)
    requires Schedulable(r)
    ensures Run([] + [DoSchedule(r)]) == (FirstJob(r), FirstLedger(r))
  {
    assert Run([]) == (Initial(), BLANK);
    assert FindFrom(Initial().jobs, r.name, 0) == |Initial().jobs| && FreeFrom(Initial().jobs, 0) == 0;
    assert Schedule(Initial(), r) == FirstJob(r);
    assert Record(Initial(), BLANK, DoSchedule(r)) == FirstLedger(r);
    OneMore([], Initial(), BLANK, DoSchedule(r));
  }

  /** A name of 24 characters or more can be scheduled twice: both jobs get the same name. */
  lemma LongNamesCollide(r: Request)
    requires Schedulable(r) && |r.name| >= OS_SCHED_NAME_LEN
    ensures ScheduleResult(FirstJob(r), r) == Ok
    ensures Run([] + [DoSchedule(r)]).0 == FirstJob(r)
    ensures !DistinctNames(Run([] + [DoSchedule(r)] + [DoSchedule(r)]).0.jobs)
  {
    FirstSchedule(r);
    var s := FirstJob(r);
    assert FindFrom(s.jobs, r.name, 0) == |s.jobs|;
    assert s.jobs[1] == EMPTY && FreeFrom(s.jobs, 0) == 1;
    OneMore([] + [DoSchedule(r)], s, FirstLedger(r), DoSchedule(r));
    var jobs := Schedule(s, r).jobs;
    assert jobs[0].name == jobs[1].name != "";
  }

  /** A one-shot job is scheduled and fires, and its pointer is queued. */
  function Fired(r: Request): seq<Event> {
    [] + [DoSchedule(r)] + [DoFire(0)]
  }

  function FiredState(r: Request): State {
    AtFirst(CountFire(NewJob(r, 0)), map[0 := Timer(0, false, false)], 1, [0], None, false)
  }

  function FiredLedger(): Ledger {
    BLANK.(schedules := 1, oneShot := {0}, fired := map[0 := 1], tags := [0])
  }

  lemma FirstFire(r: Request)
    requires !r.repeat
    ensures Fire(FirstJob(r), 0) == FiredState(r)
    ensures Record(FirstJob(r), FirstLedger(r), DoFire(0)) == FiredLedger()
  {
    var s := FirstJob(r);
    assert s.jobs[0 := CountFire(s.jobs[0])] == FiredState(r).jobs;
    assert s.timers[0 := Timer(0, false, false)] == map[0 := Timer(0, false, false)] && [] + [0] == [0];
    assert Bump(map[], 0) == map[0 := 1];
  }

  lemma FiredRun(r: Request)
    requires Schedulable(r) && !r.repeat
    ensures Run(Fired(r)) == (FiredState(r), FiredLedger())
  {
    FirstSchedule(r);
    FirstFire(r);
    OneMore([] + [DoSchedule(r)], FirstJob(r), FirstLedger(r), DoFire(0));
  }

  /** From the start: a one-shot job that is cancelled while it runs strands the slot, and a
      cancel of the empty name brings it back. */
  lemma StrandingHappens(r: Request)
    requires Schedulable(r) && !r.repeat && |r.name| < OS_SCHED_NAME_LEN
    ensures
      var events := Fired(r) + [DoTake] + [DoRead] + [DoCancel(r.name)] + [DoFinish];
      && Run(events).0 == AtFirst(STRANDED, map[], 1, [], None, false)
      && Run(events + [DoCancel("")]).0 == Initial().(nextTimer := 1)
  {
    var job, timers := CountFire(NewJob(r, 0)), map[0 := Timer(0, false, false)];
    var taken := AtFirst(job, timers, 1, [], Some(0), true);
    var emptied := AtFirst(EMPTY, map[], 1, [], Some(0), false);
    FiredRun(r);
    OneMore(Fired(r), Run(Fired(r)).0, Run(Fired(r)).1, DoTake);
    var e1 := Fired(r) + [DoTake];
    assert Run(e1).0 == taken;
    OneMore(e1, taken, Run(e1).1, DoRead);
    assert FindFrom(taken.jobs, r.name, 0) == 0 && timers - {0} == map[];
    OneMore(e1 + [DoRead], Read(taken), Run(e1 + [DoRead]).1, DoCancel(r.name));
    var e2 := e1 + [DoRead] + [DoCancel(r.name)];
    assert Run(e2).0 == emptied;
    OneMore(e2, emptied, Run(e2).1, DoFinish);
    var after := AtFirst(STRANDED, map[], 1, [], None, false);
    assert Run(e2 + [DoFinish]).0 == after && FindFrom(after.jobs, "", 0) == 0;
    OneMore(e2 + [DoFinish], after, Run(e2 + [DoFinish]).1, DoCancel(""));
    assert Initial().jobs[0 := EMPTY] == Initial().jobs;
  }

  /** A job is cancelled while its pointer is queued, and the next job gets its slot. */
  function Overtaken(r: Request, other: Request): seq<Event> {
    Fired(r) + [DoCancel(r.name)] + [DoSchedule(other)] + [DoTake]
  }

  /** The slot is empty again, but the pointer to it is still queued. */
  lemma CancelledRun(r: Request)
    requires Schedulable(r) && !r.repeat && |r.name| < OS_SCHED_NAME_LEN
    ensures Run(Fired(r) + [DoCancel(r.name)])
         == (Initial().(nextTimer := 1, queue := [0]), FiredLedger().(cancels := 1))
  {
    var s := FiredState(r);
    FiredRun(r);
    assert FindFrom(s.jobs, r.name, 0) == 0 && s.timers - {0} == map[];
    assert s.jobs[0 := EMPTY] == Initial().jobs;
    OneMore(Fired(r), s, FiredLedger(), DoCancel(r.name));
  }

  lemma OvertakenRun(r: Request, other: Request)
    requires Schedulable(r) && !r.repeat && |r.name| < OS_SCHED_NAME_LEN
    requires Schedulable(other) && !other.repeat
    ensures Run(Overtaken(r, other))
         == (AtFirst(NewJob(other, 1), map[1 := Timer(0, false, true)], 2, [], Some(0), true),
             BLANK.(schedules := 2, cancels := 1, oneShot := {0, 1}, fired := map[0 := 1], stage := Received(0)))
  {
    var s1 := Initial().(nextTimer := 1, queue := [0]);
    var l1 := FiredLedger().(cancels := 1);
    CancelledRun(r);
    assert FindFrom(s1.jobs, other.name, 0) == |s1.jobs| && FreeFrom(s1.jobs, 0) == 0;
    OneMore(Fired(r) + [DoCancel(r.name)], s1, l1, DoSchedule(other));
    var s2 := AtFirst(NewJob(other, 1), map[1 := Timer(0, false, true)], 2, [0], None, false);
    var l2 := l1.(schedules := 2, oneShot := {0, 1});
    assert map[][1 := Timer(0, false, true)] == s2.timers && {0} + {1} == {0, 1};
    assert Schedule(s1, other) == s2 && Record(s1, l1, DoSchedule(other)) == l2;
    OneMore(Fired(r) + [DoCancel(r.name)] + [DoSchedule(other)], s2, l2, DoTake);
    assert [0][1..] == [];
  }

  /** From the start, then: the worker finds the new job's command, although that job has never
      fired, and the old job's fire is lost. The new one-shot job is marked completed, and its own
      fire makes the worker run its command a second time. */
  lemma StalePointerRunsNextJob(r: Request, other: Request)
    requires Schedulable(r) && !r.repeat && |r.name| < OS_SCHED_NAME_LEN
    requires Schedulable(other) && !other.repeat
    ensures
      var first := Overtaken(r, other);
      var second := first + [DoRead] + [DoFinish] + [DoFire(1)] + [DoTake];
      && Enabled(Run(first).0, DoRead) && Run(first).0.jobs[0] == NewJob(other, 1) && 1 !in Run(first).1.fired
      && Enabled(Run(second).0, DoRead) && Run(second).0.jobs[0].command == NewJob(other, 1).command
      && Run(second).0.jobs[0].completed && Count(Run(second).1.executed, 1) == 0 && Count(Run(second).1.lost, 0) == 1
  {
    var first := Overtaken(r, other);
    var s, l := Run(first).0, Run(first).1;
    OvertakenRun(r, other);
    OneMore(first, s, l, DoRead);
    var l1 := l.(stage := Stale(0), lost := map[0 := 1]);
    assert Bump(map[], 0) == map[0 := 1];
    OneMore(first + [DoRead], Read(s), l1, DoFinish);
    var done := AtFirst(Done(NewJob(other, 1)), map[1 := Timer(0, false, true)], 2, [], None, false);
    var l2 := l1.(stage := Free);
    assert s.jobs[0 := Done(s.jobs[0])] == done.jobs;
    OneMore(first + [DoRead] + [DoFinish], done, l2, DoFire(1));
    var fired := Fire(done, 1);
    var l3 := Record(done, l2, DoFire(1));
    OneMore(first + [DoRead] + [DoFinish] + [DoFire(1)], fired, l3, DoTake);
  }
}
