/** The PWM driver: eight channels share four hardware timers, each of which one channel owns
    while it is active. */
module Pwm {
  import opened CIntegers
  import opened Duty

  const LEDC_TIMER_MAX: nat := 4
  const OS_PWM_MAX_CHANNELS: nat := 8

  datatype Channel = Channel(active: bool, gpio: nat, freq: nat, duty: nat, timer: nat)

  const IDLE := Channel(false, 0, 0, 0, 0)

  /** The peripheral: the frequency last set on each timer and the duty register of each channel. */
  datatype Ledc = Ledc(freqs: seq<nat>, duties: seq<nat>)

  datatype State = State(ready: bool, usage: bv8, refs: seq<nat>, channels: seq<Channel>, ledc: Ledc)

  /** Fail is whatever error the peripheral returned. */
  datatype Result = Ok | NoMem | InvalidState | InvalidArg | Fail

  // ---------------------------------------------------------------- the usage bitmap

  /** 1 << t for a timer index. */
  function Mask(t: nat): bv8
    requires t < LEDC_TIMER_MAX
  {
    if t == 0 then 1 else if t == 1 then 2 else if t == 2 then 4 else 8
  }

  function Cleared(u: bv8, t: nat): bv8
    requires t < LEDC_TIMER_MAX
  {
    u & !Mask(t)
  }

  predicate Bit(u: bv8, t: nat)
    requires t < LEDC_TIMER_MAX
  {
    u & Mask(t) != 0
  }

  /** Setting or clearing one bit leaves the three others alone. */
  lemma SetAndClear(u: bv8, t: nat, k: nat)
    requires t < LEDC_TIMER_MAX && k < LEDC_TIMER_MAX
    ensures Bit(u | Mask(t), k) <==> k == t || Bit(u, k)
    ensures Bit(u & !Mask(t), k) <==> k != t && Bit(u, k)
  {
  }

  // ---------------------------------------------------------------- the steps

  predicate Shape(s: State) {
    && |s.refs| == |s.ledc.freqs| == LEDC_TIMER_MAX
    && |s.channels| == |s.ledc.duties| == OS_PWM_MAX_CHANNELS
  }

  /** The lowest timer index from i on whose bit is clear. */
  function FreeTimer(u: bv8, i: nat): (r: nat)
    requires i <= LEDC_TIMER_MAX
    ensures i <= r <= LEDC_TIMER_MAX && (r < LEDC_TIMER_MAX ==> !Bit(u, r))
    ensures forall t :: i <= t < r ==> Bit(u, t)
    decreases LEDC_TIMER_MAX - i
  {
    if i == LEDC_TIMER_MAX || !Bit(u, i) then i else FreeTimer(u, i + 1)
  }

  function Claim(s: State, t: nat): State
    requires Shape(s) && t < LEDC_TIMER_MAX
  {
    s.(usage := s.usage | Mask(t), refs := s.refs[t := 1])
  }

  function Unref(n: nat): nat {
    if n > 0 then n - 1 else 0
  }

  function Drop(s: State, t: nat): State
    requires Shape(s)
  {
    if t >= LEDC_TIMER_MAX then s
    else
      var n := Unref(s.refs[t]);
      s.(refs := s.refs[t := n], usage := if n == 0 then Cleared(s.usage, t) else s.usage)
  }

  /** Stop an active channel and give its timer back. */
  function Release(s: State, c: nat): (r: State)
    requires Shape(s) && c < OS_PWM_MAX_CHANNELS
    ensures Shape(r)
  {
    var ch := s.channels[c];
    if ch.active then Drop(s, ch.timer).(channels := s.channels[c := ch.(active := false)]) else s
  }

  function ReleaseFrom(s: State, c: nat): (r: State)
    requires Shape(s) && c <= OS_PWM_MAX_CHANNELS
    ensures Shape(r)
    decreases OS_PWM_MAX_CHANNELS - c
  {
    if c == OS_PWM_MAX_CHANNELS then s else ReleaseFrom(Release(s, c), c + 1)
  }

  function Blank(s: State): State {
    s.(ready := true, usage := 0, refs := seq(LEDC_TIMER_MAX, i => 0),
       channels := seq(OS_PWM_MAX_CHANNELS, i => IDLE))
  }

  /** The calls of the driver, with the outcomes of the services below it. */
  datatype Call = Init(mutex: bool)
                | Deinit
                | ChannelInit(channel: int, gpio: nat, freq: uint32, pin: bool, config: bool, attach: bool)
                | ChannelDeinit(channel: int)
                | SetDuty(channel: int, percent: nat, accepted: bool)
                | SetDutyUs(channel: int, us: uint32, accepted: bool)
                | SetFreq(channel: int, freq: uint32, accepted: bool)
  {
    /** The call names channel c, or all channels. */
    predicate Touches(c: nat) {
      Init? || Deinit? || channel == c
    }
  }

  predicate ValidChannel(c: int) {
    0 <= c < OS_PWM_MAX_CHANNELS
  }

  /** Set channel c up on timer t, which has just been claimed; a failure gives the timer back. */
  function Attach(s: State, c: nat, t: nat, gpio: nat, freq: nat, config: bool, attach: bool): (State, Result)
    requires Shape(s) && c < OS_PWM_MAX_CHANNELS && t < LEDC_TIMER_MAX
  {
    var s1 := s.(channels := s.channels[c := s.channels[c].(timer := t)]);
    if !config then (Drop(s1, t), Fail)
    else
      var s2 := s1.(ledc := s1.ledc.(freqs := s1.ledc.freqs[t := freq]));
      if !attach then (Drop(s2, t), Fail)
      else (s2.(channels := s2.channels[c := Channel(true, gpio, freq, 0, t)],
                ledc := s2.ledc.(duties := s2.ledc.duties[c := 0])), Ok)
  }

  function InitChannel(s: State, c: nat, gpio: nat, freq: nat, config: bool, attach: bool): (State, Result)
    requires Shape(s) && c < OS_PWM_MAX_CHANNELS
  {
    var s1 := Release(s, c);
    var t := FreeTimer(s1.usage, 0);
    if t == LEDC_TIMER_MAX then (s1, NoMem) else Attach(Claim(s1, t), c, t, gpio, freq, config, attach)
  }

  function WriteDuty(s: State, c: nat, reg: nat, percent: nat): State
    requires Shape(s) && c < OS_PWM_MAX_CHANNELS
  {
    s.(channels := s.channels[c := s.channels[c].(duty := percent)],
       ledc := s.ledc.(duties := s.ledc.duties[c := reg]))
  }

  function Clamp(percent: nat): nat {
    if percent > 100 then 100 else percent
  }

  /** What the driver may rely on when it looks an active channel up. */
  function Lookup(s: State, c: nat): (ch: Channel)
    requires Inv(s) && Active(s, c)
    ensures ch == s.channels[c] && ValidFreq(ch.freq) && ch.timer < LEDC_TIMER_MAX
  {
    assert ChannelOk(s, c);
    s.channels[c]
  }

  /** The state after a call, and what it returns. */
  function Step(s: State, call: Call): (State, Result)
    requires Inv(s)
  {
    match call
    case Init(mutex) =>
      if s.ready then (s, Ok) else if !mutex then (s, NoMem) else (Blank(s), Ok)
    case Deinit =>
      if !s.ready then (s, Ok) else (ReleaseFrom(s, 0).(ready := false, usage := 0), Ok)
    case ChannelInit(c, gpio, freq, pin, config, attach) =>
      if !s.ready then (s, InvalidState)
      else if !ValidChannel(c) || !ValidFreq(freq) || !pin then (s, InvalidArg)
      else InitChannel(s, c, gpio, freq, config, attach)
    case ChannelDeinit(c) =>
      if !s.ready then (s, InvalidState)
      else if !ValidChannel(c) then (s, InvalidArg)
      else (Release(s, c), Ok)
    case SetDuty(c, percent, accepted) =>
      if !s.ready then (s, InvalidState)
      else if !ValidChannel(c) then (s, InvalidArg)
      else if !s.channels[c].active then (s, InvalidState)
      else if !accepted then (s, Fail)
      else (WriteDuty(s, c, PercentToReg(Clamp(percent)), Clamp(percent)), Ok)
    case SetDutyUs(c, us, accepted) =>
      if !s.ready then (s, InvalidState)
      else if !ValidChannel(c) then (s, InvalidArg)
      else if !s.channels[c].active then (s, InvalidState)
      else if !accepted then (s, Fail)
      else
        var freq := Lookup(s, c).freq;
        (WriteDuty(s, c, UsToReg(us, freq), TrackedPercent(us, freq)), Ok)
    case SetFreq(c, freq, accepted) =>
      if !s.ready then (s, InvalidState)
      else if !ValidChannel(c) || !ValidFreq(freq) then (s, InvalidArg)
      else if !s.channels[c].active then (s, InvalidState)
      else if !accepted then (s, Fail)
      else
        var ch := Lookup(s, c);
        (s.(channels := s.channels[c := ch.(freq := freq)],
            ledc := s.ledc.(freqs := s.ledc.freqs[ch.timer := freq])), Ok)
  }

  // ---------------------------------------------------------------- the invariant

  predicate Active(s: State, c: nat) {
    c < |s.channels| && s.channels[c].active
  }

  predicate Owns(s: State, c: nat, t: nat) {
    Active(s, c) && s.channels[c].timer == t
  }

  /** The bit is set exactly if the count is one, and then some active channel owns the timer. */
  ghost predicate TimerOk(s: State, t: nat)
    requires Shape(s) && t < LEDC_TIMER_MAX
  {
    && s.refs[t] <= 1
    && (Bit(s.usage, t) <==> s.refs[t] == 1)
    && (s.refs[t] == 1 ==> exists c: nat :: Owns(s, c, t))
  }

  /** An active channel owns a counted timer, which runs at the recorded frequency, and its duty
      register holds at least the recorded percentage. */
  predicate ChannelOk(s: State, c: nat)
    requires Shape(s) && c < OS_PWM_MAX_CHANNELS
  {
    var ch := s.channels[c];
    && ch.timer < LEDC_TIMER_MAX && s.refs[ch.timer] == 1
    && ValidFreq(ch.freq) && s.ledc.freqs[ch.timer] == ch.freq
    && ch.duty <= 100 && PercentToReg(ch.duty) <= s.ledc.duties[c] <= PWM_MAX_DUTY_VALUE
  }

  ghost predicate Inv(s: State) {
    && Shape(s)
    && (forall t :: 0 <= t < LEDC_TIMER_MAX ==> TimerOk(s, t))
    && (forall c :: 0 <= c < OS_PWM_MAX_CHANNELS && Active(s, c) ==> s.ready && ChannelOk(s, c))
    && (forall c: nat, d: nat :: Active(s, c) && Active(s, d) && s.channels[c].timer == s.channels[d].timer ==>
          c == d)
  }

  /** Whether the bit is set, the count is one, and a unique active channel owns the timer are
      the same thing. */
  lemma BitCountOwner(s: State, t: nat)
    requires Inv(s) && t < LEDC_TIMER_MAX
    ensures Bit(s.usage, t) <==> s.refs[t] == 1
    ensures Bit(s.usage, t) <==> exists c: nat :: Owns(s, c, t)
    ensures forall c: nat, d: nat :: Owns(s, c, t) && Owns(s, d, t) ==> c == d
  {
    assert TimerOk(s, t);
  }

  lemma ReleaseKeepsInv(s: State, c: nat)
    requires Inv(s) && c < OS_PWM_MAX_CHANNELS
    ensures Inv(Release(s, c)) && !Active(Release(s, c), c)
    ensures forall d: nat :: d != c ==> Active(Release(s, c), d) == Active(s, d)
  {
    if Active(s, c) {
      var r, t := Release(s, c), s.channels[c].timer;
      assert ChannelOk(s, c);
      forall k | 0 <= k < LEDC_TIMER_MAX
        ensures TimerOk(r, k)
      {
        assert TimerOk(s, k);
        SetAndClear(s.usage, t, k);
        if k != t && s.refs[k] == 1 {
          var d: nat :| Owns(s, d, k);
          assert Owns(r, d, k);
        }
      }
      forall d | 0 <= d < OS_PWM_MAX_CHANNELS && Active(r, d)
        ensures ChannelOk(r, d)
      {
        assert Active(s, d) && ChannelOk(s, d);
      }
    }
  }

  lemma {:induction false} ReleaseFromKeepsInv(s: State, c: nat)
    requires Inv(s) && c <= OS_PWM_MAX_CHANNELS && (forall d: nat :: d < c ==> !Active(s, d))
    ensures Inv(ReleaseFrom(s, c)) && forall d: nat :: !Active(ReleaseFrom(s, c), d)
    decreases OS_PWM_MAX_CHANNELS - c
  {
    if c < OS_PWM_MAX_CHANNELS {
      ReleaseKeepsInv(s, c);
      ReleaseFromKeepsInv(Release(s, c), c + 1);
    }
  }

  /** Channel d looks and sounds the same in both states: its record, its duty register and, while
      it is active, the frequency of its timer. */
  predicate SameChannel(s: State, r: State, d: nat)
    requires Shape(s) && Shape(r) && d < OS_PWM_MAX_CHANNELS
  {
    && r.channels[d] == s.channels[d] && r.ledc.duties[d] == s.ledc.duties[d]
    && (Active(s, d) && s.channels[d].timer < LEDC_TIMER_MAX ==>
          r.ledc.freqs[s.channels[d].timer] == s.ledc.freqs[s.channels[d].timer])
  }

  lemma ReleaseIsolates(s: State, c: nat)
    requires Shape(s) && c < OS_PWM_MAX_CHANNELS
    ensures forall d: nat :: d < OS_PWM_MAX_CHANNELS && d != c ==> SameChannel(s, Release(s, c), d)
  {
  }

  /** The states differ only in the inactive channel c and the frequency of timer t; the bitmaps
      agree on every timer. */
  predicate DifferIdly(s: State, r: State, c: nat, t: nat)
    requires Shape(s) && Shape(r) && c < OS_PWM_MAX_CHANNELS && t < LEDC_TIMER_MAX
  {
    && !r.channels[c].active && r.refs == s.refs && r.ready == s.ready && r.ledc.duties == s.ledc.duties
    && (forall k :: 0 <= k < LEDC_TIMER_MAX ==> Bit(r.usage, k) == Bit(s.usage, k))
    && (forall d :: 0 <= d < OS_PWM_MAX_CHANNELS && d != c ==> r.channels[d] == s.channels[d])
    && (forall k :: 0 <= k < LEDC_TIMER_MAX && k != t ==> r.ledc.freqs[k] == s.ledc.freqs[k])
  }

  lemma IdleDifference(s: State, r: State, c: nat, t: nat)
    requires Inv(s) && Shape(r) && c < OS_PWM_MAX_CHANNELS && !Active(s, c)
    requires t < LEDC_TIMER_MAX && s.refs[t] == 0 && DifferIdly(s, r, c, t)
    ensures Inv(r)
  {
    forall k | 0 <= k < LEDC_TIMER_MAX
      ensures TimerOk(r, k)
    {
      assert TimerOk(s, k);
      if s.refs[k] == 1 {
        var d: nat :| Owns(s, d, k);
        assert Owns(r, d, k);
      }
    }
    forall d | 0 <= d < OS_PWM_MAX_CHANNELS && Active(r, d)
      ensures r.ready && ChannelOk(r, d)
    {
      assert Active(s, d) && ChannelOk(s, d);
    }
  }

  /** A new owner of an unowned timer, set up at a valid frequency with no duty. */
  lemma NewOwner(s: State, r: State, c: nat, t: nat)
    requires Inv(s) && Shape(r) && c < OS_PWM_MAX_CHANNELS && !Active(s, c) && s.ready && r.ready
    requires t < LEDC_TIMER_MAX && s.refs[t] == 0 && r.refs == s.refs[t := 1]
    requires forall k :: 0 <= k < LEDC_TIMER_MAX ==> (Bit(r.usage, k) <==> k == t || Bit(s.usage, k))
    requires forall d :: 0 <= d < OS_PWM_MAX_CHANNELS && d != c ==> r.channels[d] == s.channels[d]
    requires forall k :: 0 <= k < LEDC_TIMER_MAX && k != t ==> r.ledc.freqs[k] == s.ledc.freqs[k]
    requires forall d :: 0 <= d < OS_PWM_MAX_CHANNELS && d != c ==> r.ledc.duties[d] == s.ledc.duties[d]
    requires r.channels[c].active && r.channels[c].timer == t && r.channels[c].duty == r.ledc.duties[c] == 0
    requires ValidFreq(r.channels[c].freq) && r.ledc.freqs[t] == r.channels[c].freq
    ensures Inv(r)
  {
    forall k | 0 <= k < LEDC_TIMER_MAX
      ensures TimerOk(r, k)
    {
      assert TimerOk(s, k);
      if k == t {
        assert Owns(r, c, t);
      } else if s.refs[k] == 1 {
        var d: nat :| Owns(s, d, k);
        assert Owns(r, d, k);
      }
    }
    forall d | 0 <= d < OS_PWM_MAX_CHANNELS && Active(r, d)
      ensures r.ready && ChannelOk(r, d)
    {
      assert d != c ==> Active(s, d) && ChannelOk(s, d);
    }
    forall a: nat, b: nat | Active(r, a) && Active(r, b) && r.channels[a].timer == r.channels[b].timer
      ensures a == b
    {
      assert a != c ==> Active(s, a) && ChannelOk(s, a);
      assert b != c ==> Active(s, b) && ChannelOk(s, b);
    }
  }

  lemma AttachKeepsInv(s: State, c: nat, t: nat, gpio: nat, freq: nat, config: bool, attach: bool)
    requires Inv(s) && s.ready && c < OS_PWM_MAX_CHANNELS && !Active(s, c) && ValidFreq(freq)
    requires t < LEDC_TIMER_MAX && !Bit(s.usage, t)
    ensures Inv(Attach(Claim(s, t), c, t, gpio, freq, config, attach).0)
  {
    assert TimerOk(s, t);
    if config && attach {
      Attached(s, c, t, gpio, freq);
    } else {
      AttachFailed(s, c, t, gpio, freq, config, attach);
      IdleDifference(s, Attach(Claim(s, t), c, t, gpio, freq, config, attach).0, c, t);
    }
  }

  lemma Attached(s: State, c: nat, t: nat, gpio: nat, freq: nat)
    requires Inv(s) && s.ready && c < OS_PWM_MAX_CHANNELS && !Active(s, c) && ValidFreq(freq)
    requires t < LEDC_TIMER_MAX && !Bit(s.usage, t) && s.refs[t] == 0
    ensures Inv(Attach(Claim(s, t), c, t, gpio, freq, true, true).0)
  {
    ClaimedBits(s.usage, t);
    NewOwner(s, Attach(Claim(s, t), c, t, gpio, freq, true, true).0, c, t);
  }

  /** Giving a claimed timer back undoes the claim. */
  lemma DropUndoesClaim(s: State, t: nat)
    requires Shape(s) && t < LEDC_TIMER_MAX && !Bit(s.usage, t) && s.refs[t] == 0
    ensures Drop(Claim(s, t), t).refs == s.refs
    ensures forall k :: 0 <= k < LEDC_TIMER_MAX ==> Bit(Drop(Claim(s, t), t).usage, k) == Bit(s.usage, k)
  {
  }

  /** A failed set-up drops the timer and leaves its number, and perhaps its frequency, behind. */
  lemma FailureDrops(s: State, c: nat, t: nat, gpio: nat, freq: nat, config: bool, attach: bool)
    requires Shape(s) && c < OS_PWM_MAX_CHANNELS && t < LEDC_TIMER_MAX && !(config && attach)
    ensures Attach(s, c, t, gpio, freq, config, attach).0
         == Drop(s, t).(channels := s.channels[c := s.channels[c].(timer := t)],
                        ledc := if config then s.ledc.(freqs := s.ledc.freqs[t := freq]) else s.ledc)
  {
  }

  lemma AttachFailed(s: State, c: nat, t: nat, gpio: nat, freq: nat, config: bool, attach: bool)
    requires Shape(s) && c < OS_PWM_MAX_CHANNELS && !s.channels[c].active && !(config && attach)
    requires t < LEDC_TIMER_MAX && !Bit(s.usage, t) && s.refs[t] == 0
    ensures var r := Attach(Claim(s, t), c, t, gpio, freq, config, attach).0;
            Shape(r) && DifferIdly(s, r, c, t)
  {
    FailureDrops(Claim(s, t), c, t, gpio, freq, config, attach);
    DropUndoesClaim(s, t);
  }

  /** Claiming a timer sets its bit alone, and dropping it again restores the bitmap. */
  lemma ClaimedBits(u: bv8, t: nat)
    requires t < LEDC_TIMER_MAX && !Bit(u, t)
    ensures forall k :: 0 <= k < LEDC_TIMER_MAX ==> (Bit(u | Mask(t), k) <==> k == t || Bit(u, k))
    ensures forall k :: 0 <= k < LEDC_TIMER_MAX ==> Bit((u | Mask(t)) & !Mask(t), k) == Bit(u, k)
  {
  }

  lemma InitKeepsInv(s: State, c: nat, gpio: nat, freq: nat, config: bool, attach: bool)
    requires Inv(s) && s.ready && c < OS_PWM_MAX_CHANNELS && ValidFreq(freq)
    ensures Inv(InitChannel(s, c, gpio, freq, config, attach).0)
  {
    var s1 := Release(s, c);
    ReleaseKeepsInv(s, c);
    var t := FreeTimer(s1.usage, 0);
    if t < LEDC_TIMER_MAX {
      AttachKeepsInv(s1, c, t, gpio, freq, config, attach);
    }
  }

  /** Every call keeps the invariant, whatever the services below answer. */
  lemma StepKeepsInv(s: State, call: Call)
    requires Inv(s)
    ensures Inv(Step(s, call).0)
  {
    var r := Step(s, call).0;
    match call
    case Init(_) =>
      InitStepKeepsInv(s, call);
    case Deinit =>
      DeinitStepKeepsInv(s, call);
    case ChannelInit(c, gpio, freq, pin, config, attach) =>
      if s.ready && ValidChannel(c) && ValidFreq(freq) {
        InitKeepsInv(s, c, gpio, freq, config, attach);
      }
    case ChannelDeinit(c) =>
      if s.ready && ValidChannel(c) {
        ReleaseKeepsInv(s, c);
      }
    case _ =>
      if r != s {
        AdjustKeepsInv(s, call);
      }
  }

  lemma InitStepKeepsInv(s: State, call: Call)
    requires Inv(s) && call.Init?
    ensures Inv(Step(s, call).0)
  {
  }

  lemma DeinitStepKeepsInv(s: State, call: Call)
    requires Inv(s) && call.Deinit?
    ensures Inv(Step(s, call).0)
  {
    ReleaseFromKeepsInv(s, 0);
    IdleKeepsInv(ReleaseFrom(s, 0));
  }

  /** With every channel released no timer is counted, so clearing the bitmap changes no bit. */
  lemma IdleKeepsInv(s: State)
    requires Inv(s) && forall d: nat :: !Active(s, d)
    ensures Inv(s.(ready := false, usage := 0))
  {
    var r := s.(ready := false, usage := 0);
    forall d: nat
      ensures !Active(r, d)
    {
      assert !Active(s, d);
    }
    forall t | 0 <= t < LEDC_TIMER_MAX
      ensures TimerOk(r, t)
    {
      assert TimerOk(s, t);
      forall d: nat
        ensures !Owns(s, d, t)
      {
        assert !Active(s, d);
      }
    }
  }

  /** Setting the duty or the frequency of an active channel. */
  lemma AdjustKeepsInv(s: State, call: Call)
    requires Inv(s) && (call.SetDuty? || call.SetDutyUs? || call.SetFreq?)
    requires s.ready && ValidChannel(call.channel) && Active(s, call.channel)
    ensures Inv(Step(s, call).0)
  {
    var r, c := Step(s, call).0, call.channel;
    assert ChannelOk(s, c);
    if call.SetDutyUs? {
      TrackedNeverOverstates(call.us, s.channels[c].freq);
    }
    forall d | 0 <= d < OS_PWM_MAX_CHANNELS && Active(r, d)
      ensures ChannelOk(r, d)
    {
      assert Active(s, d) && ChannelOk(s, d);
    }
    SameOwners(s, r);
  }

  /** Nothing about the ownership of the timers depends on the frequencies and duties. */
  lemma SameOwners(s: State, r: State)
    requires Inv(s) && Shape(r) && r.ready == s.ready && r.usage == s.usage && r.refs == s.refs
    requires forall d :: 0 <= d < OS_PWM_MAX_CHANNELS ==>
               r.channels[d].active == s.channels[d].active && r.channels[d].timer == s.channels[d].timer
    requires forall d :: 0 <= d < OS_PWM_MAX_CHANNELS && Active(r, d) ==> ChannelOk(r, d)
    ensures Inv(r)
  {
    forall d: nat
      ensures Active(r, d) == Active(s, d)
    {
    }
    forall k | 0 <= k < LEDC_TIMER_MAX
      ensures TimerOk(r, k)
    {
      assert TimerOk(s, k);
      if s.refs[k] == 1 {
        var d: nat :| Owns(s, d, k);
        assert Owns(r, d, k);
      }
    }
  }

  // ---------------------------------------------------------------- isolation

  /** A call that does not name channel d leaves it alone, down to the frequency of its timer. */
  lemma StepIsolates(s: State, call: Call, d: nat)
    requires Inv(s) && d < OS_PWM_MAX_CHANNELS && !call.Touches(d)
    ensures SameChannel(s, Step(s, call).0, d)
  {
    if call.ChannelInit? {
      if s.ready && ValidChannel(call.channel) {
        InitIsolates(s, call.channel, call.gpio, call.freq, call.config, call.attach, d);
      }
    } else if call.SetFreq? && ValidChannel(call.channel) && Active(s, call.channel) {
      assert ChannelOk(s, call.channel);
    }
  }

  lemma InitIsolates(s: State, c: nat, gpio: nat, freq: nat, config: bool, attach: bool, d: nat)
    requires Inv(s) && c < OS_PWM_MAX_CHANNELS && d < OS_PWM_MAX_CHANNELS && c != d
    ensures SameChannel(s, InitChannel(s, c, gpio, freq, config, attach).0, d)
  {
    var s1 := Release(s, c);
    ReleaseKeepsInv(s, c);
    ReleaseIsolates(s, c);
    var t := FreeTimer(s1.usage, 0);
    if t < LEDC_TIMER_MAX {
      AttachIsolates(s1, c, t, gpio, freq, config, attach, d);
    }
  }

  lemma AttachIsolates(s: State, c: nat, t: nat, gpio: nat, freq: nat, config: bool, attach: bool, d: nat)
    requires Inv(s) && c < OS_PWM_MAX_CHANNELS && d < OS_PWM_MAX_CHANNELS && c != d
    requires t < LEDC_TIMER_MAX && !Bit(s.usage, t)
    ensures SameChannel(s, Attach(Claim(s, t), c, t, gpio, freq, config, attach).0, d)
  {
    assert TimerOk(s, t);
    assert Active(s, d) ==> ChannelOk(s, d);
  }

  // ---------------------------------------------------------------- whole runs

  function Run(s: State, calls: seq<Call>): State
    requires Inv(s)
    decreases |calls|
  {
    if calls == [] then s else StepKeepsInv(s, calls[0]); Run(Step(s, calls[0]).0, calls[1..])
  }

  /** Every run keeps the invariant. */
  lemma {:induction false} RunKeepsInv(s: State, calls: seq<Call>)
    requires Inv(s)
    ensures Inv(Run(s, calls))
    decreases |calls|
  {
    if calls == [] {
    } else {
      StepKeepsInv(s, calls[0]);
      RunKeepsInv(Step(s, calls[0]).0, calls[1..]);
    }
  }

  /** Over a whole run of calls for other channels, failing ones included, channel d keeps its
      record, its duty and the frequency of its timer. */
  lemma {:induction false} RunIsolates(s: State, calls: seq<Call>, d: nat)
    requires Inv(s) && d < OS_PWM_MAX_CHANNELS
    requires forall k :: 0 <= k < |calls| ==> !calls[k].Touches(d)
    ensures Shape(Run(s, calls)) && SameChannel(s, Run(s, calls), d)
    decreases |calls|
  {
    RunKeepsInv(s, calls);
    if calls == [] {
    } else {
      StepKeepsInv(s, calls[0]);
      StepIsolates(s, calls[0], d);
      RunIsolates(Step(s, calls[0]).0, calls[1..], d);
    }
  }

  // ---------------------------------------------------------------- capacity

  ghost function ActiveSet(s: State): set<nat> {
    set c: nat | c < |s.channels| && Active(s, c)
  }

  ghost function Others(s: State, c: nat): set<nat> {
    ActiveSet(s) - {c}
  }

  ghost function Counted(s: State): set<nat>
    requires Shape(s)
  {
    set t: nat | t < LEDC_TIMER_MAX && s.refs[t] == 1
  }

  /** Channels with distinct timers are as many as those timers. */
  lemma {:induction false} SameSize(channels: seq<Channel>, cs: set<nat>, ts: set<nat>)
    requires forall c :: c in cs ==> c < |channels| && channels[c].timer in ts
    requires forall c, d :: c in cs && d in cs && channels[c].timer == channels[d].timer ==> c == d
    requires forall t :: t in ts ==> exists c :: c in cs && channels[c].timer == t
    ensures |cs| == |ts|
    decreases |cs|
  {
    if cs == {} {
      assert ts == {};
    } else {
      var c :| c in cs;
      var t := channels[c].timer;
      forall k | k in ts - {t}
        ensures exists d :: d in cs - {c} && channels[d].timer == k
      {
        var d :| d in cs && channels[d].timer == k;
        assert d in cs - {c};
      }
      SameSize(channels, cs - {c}, ts - {t});
    }
  }

  /** As many channels are active as timers are counted: never more than four. */
  lemma ActiveChannelsAreTimers(s: State)
    requires Inv(s)
    ensures |ActiveSet(s)| == |Counted(s)| <= LEDC_TIMER_MAX
  {
    forall t | t in Counted(s)
      ensures exists c :: c in ActiveSet(s) && s.channels[c].timer == t
    {
      assert TimerOk(s, t);
      var c: nat :| Owns(s, c, t);
      assert c in ActiveSet(s);
    }
    forall c | c in ActiveSet(s)
      ensures s.channels[c].timer in Counted(s)
    {
      assert ChannelOk(s, c);
    }
    SameSize(s.channels, ActiveSet(s), Counted(s));
    SubsetSize(Counted(s), {0, 1, 2, 3});
  }

  lemma {:induction false} SubsetSize(a: set<nat>, b: set<nat>)
    requires a <= b
    ensures |a| <= |b| && (|a| == |b| <==> a == b)
    decreases |a|
  {
    if a == {} {
    } else {
      var x :| x in a;
      SubsetSize(a - {x}, b - {x});
      assert a == a - {x} + {x} && b == b - {x} + {x};
    }
  }

  lemma AllCounted(s: State)
    requires Inv(s)
    ensures FreeTimer(s.usage, 0) == LEDC_TIMER_MAX <==> |ActiveSet(s)| == LEDC_TIMER_MAX
    ensures FreeTimer(s.usage, 0) == LEDC_TIMER_MAX <==> forall t :: 0 <= t < LEDC_TIMER_MAX ==> Bit(s.usage, t)
  {
    ActiveChannelsAreTimers(s);
    SubsetSize(Counted(s), {0, 1, 2, 3});
    forall t | 0 <= t < LEDC_TIMER_MAX
      ensures Bit(s.usage, t) <==> t in Counted(s)
    {
      assert TimerOk(s, t);
    }
    assert |{0, 1, 2, 3}| == LEDC_TIMER_MAX;
  }

  ghost predicate OwnedByOther(s: State, c: nat, t: nat) {
    exists d: nat :: d != c && Owns(s, d, t)
  }

  /** Once channel c is released, the timers in use are those of the other channels. */
  lemma ReleaseLeavesOthers(s: State, c: nat)
    requires Inv(s) && c < OS_PWM_MAX_CHANNELS
    ensures ActiveSet(Release(s, c)) == Others(s, c)
    ensures forall t :: 0 <= t < LEDC_TIMER_MAX ==> (Bit(Release(s, c).usage, t) <==> OwnedByOther(s, c, t))
  {
    var r := Release(s, c);
    ReleaseKeepsInv(s, c);
    forall t | 0 <= t < LEDC_TIMER_MAX
      ensures Bit(r.usage, t) <==> OwnedByOther(s, c, t)
    {
      BitCountOwner(r, t);
      forall d: nat
        ensures Owns(r, d, t) <==> d != c && Owns(s, d, t)
      {
        assert d != c && d < OS_PWM_MAX_CHANNELS ==> r.channels[d] == s.channels[d];
      }
    }
  }

  /** There is a timer for channel c exactly if fewer than four other channels are active. */
  lemma RoomIff(s: State, c: nat)
    requires Inv(s) && c < OS_PWM_MAX_CHANNELS
    ensures FreeTimer(Release(s, c).usage, 0) == LEDC_TIMER_MAX <==> |Others(s, c)| == LEDC_TIMER_MAX
    ensures |Others(s, c)| <= LEDC_TIMER_MAX
  {
    ReleaseKeepsInv(s, c);
    ReleaseLeavesOthers(s, c);
    ActiveChannelsAreTimers(Release(s, c));
    AllCounted(Release(s, c));
  }

  /** Initialising a channel runs out of timers exactly if four other channels are active, that
      is, if every timer is owned by another channel. The channel's own timer never counts. */
  lemma NoMemIff(s: State, call: Call)
    requires Inv(s) && s.ready && call.ChannelInit? && ValidChannel(call.channel)
    requires ValidFreq(call.freq) && call.pin
    ensures Step(s, call).1 == NoMem <==> |Others(s, call.channel)| == LEDC_TIMER_MAX
    ensures Step(s, call).1 == NoMem <==>
            forall t :: 0 <= t < LEDC_TIMER_MAX ==> OwnedByOther(s, call.channel, t)
  {
    ReleaseKeepsInv(s, call.channel);
    RoomIff(s, call.channel);
    ReleaseLeavesOthers(s, call.channel);
    AllCounted(Release(s, call.channel));
  }

  // ---------------------------------------------------------------- one channel seen alone

  /** What a channel shows: its record, the frequency its timer runs at and its duty register. */
  datatype View = Off | On(gpio: nat, freq: nat, duty: nat, output: nat, reg: nat)

  function ViewOf(s: State, d: nat): (v: View)
    requires Inv(s) && d < OS_PWM_MAX_CHANNELS
    ensures v.On? ==> ValidFreq(v.freq)
  {
    if !Active(s, d) then Off
    else
      var ch := Lookup(s, d);
      On(ch.gpio, ch.freq, ch.duty, s.ledc.freqs[ch.timer], s.ledc.duties[d])
  }

  /** A channel with a timer of its own: the reference the shared driver is held to. room tells
      whether a timer can be had at all. */
  function Private(ready: bool, v: View, call: Call, d: nat, room: bool): View
    requires v.On? ==> ValidFreq(v.freq)
  {
    match call
    case Init(mutex) => if !ready && mutex then Off else v
    case Deinit => if ready then Off else v
    case ChannelInit(c, gpio, freq, pin, config, attach) =>
      if !ready || c != d || !ValidFreq(freq) || !pin then v
      else if room && config && attach then On(gpio, freq, 0, freq, 0)
      else Off
    case ChannelDeinit(c) => if ready && c == d then Off else v
    case SetDuty(c, percent, accepted) =>
      if c == d && accepted && v.On? then v.(duty := Clamp(percent), reg := PercentToReg(Clamp(percent))) else v
    case SetDutyUs(c, us, accepted) =>
      if c == d && accepted && v.On? then v.(duty := TrackedPercent(us, v.freq), reg := UsToReg(us, v.freq)) else v
    case SetFreq(c, freq, accepted) =>
      if c == d && accepted && ValidFreq(freq) && v.On? then v.(freq := freq, output := freq) else v
  }

  /** Sharing four timers does not show: under every call each channel behaves as if it had a
      timer of its own, except that there is no room while four other channels are active. */
  lemma EachChannelIsPrivate(s: State, call: Call, d: nat)
    requires Inv(s) && d < OS_PWM_MAX_CHANNELS
    ensures Inv(Step(s, call).0)
    ensures ViewOf(Step(s, call).0, d)
         == Private(s.ready, ViewOf(s, d), call, d, |Others(s, d)| < LEDC_TIMER_MAX)
  {
    StepKeepsInv(s, call);
    if !call.Touches(d) {
      StepIsolates(s, call, d);
    } else if call.ChannelInit? {
      if s.ready && ValidFreq(call.freq) && call.pin {
        OwnInit(s, d, call.gpio, call.freq, call.config, call.attach);
      }
    } else if call.SetDuty? || call.SetDutyUs? || call.SetFreq? {
      OwnAdjust(s, call, d);
    } else if call.Deinit? {
      ReleaseFromKeepsInv(s, 0);
    } else {
      ReleaseKeepsInv(s, d);
    }
  }

  lemma OwnAdjust(s: State, call: Call, d: nat)
    requires Inv(s) && d < OS_PWM_MAX_CHANNELS && Inv(Step(s, call).0)
    requires (call.SetDuty? || call.SetDutyUs? || call.SetFreq?) && call.channel == d
    ensures ViewOf(Step(s, call).0, d) == Private(s.ready, ViewOf(s, d), call, d, true)
    ensures Private(s.ready, ViewOf(s, d), call, d, true) == Private(s.ready, ViewOf(s, d), call, d, false)
  {
  }

  lemma OwnInit(s: State, d: nat, gpio: nat, freq: nat, config: bool, attach: bool)
    requires Inv(s) && s.ready && d < OS_PWM_MAX_CHANNELS && ValidFreq(freq)
    ensures Inv(InitChannel(s, d, gpio, freq, config, attach).0)
    ensures ViewOf(InitChannel(s, d, gpio, freq, config, attach).0, d)
         == if |Others(s, d)| < LEDC_TIMER_MAX && config && attach then On(gpio, freq, 0, freq, 0) else Off
  {
    InitKeepsInv(s, d, gpio, freq, config, attach);
    RoomIff(s, d);
    var s1 := Release(s, d);
    var t := FreeTimer(s1.usage, 0);
    if t < LEDC_TIMER_MAX {
      AttachShows(Claim(s1, t), d, t, gpio, freq, config, attach);
    } else {
      ReleaseKeepsInv(s, d);
    }
  }

  lemma AttachShows(s: State, d: nat, t: nat, gpio: nat, freq: nat, config: bool, attach: bool)
    requires Shape(s) && d < OS_PWM_MAX_CHANNELS && t < LEDC_TIMER_MAX && !s.channels[d].active
    ensures var r := Attach(s, d, t, gpio, freq, config, attach).0;
            if config && attach then
              && r.channels[d] == Channel(true, gpio, freq, 0, t)
              && |r.ledc.freqs| > t && r.ledc.freqs[t] == freq
              && |r.ledc.duties| > d && r.ledc.duties[d] == 0
            else !Active(r, d)
  {
  }

  function ReadyAfter(ready: bool, call: Call): bool {
    if call.Init? then ready || call.mutex else ready && !call.Deinit?
  }

  /** A run of a channel with a timer of its own; rooms tells for each call whether there is room. */
  function PrivateRun(ready: bool, v: View, calls: seq<Call>, d: nat, rooms: seq<bool>): View
    requires |rooms| == |calls| && (v.On? ==> ValidFreq(v.freq))
    decreases |calls|
  {
    if calls == [] then v
    else PrivateRun(ReadyAfter(ready, calls[0]), Private(ready, v, calls[0], d, rooms[0]), calls[1..], d, rooms[1..])
  }

  /** For each call of a run, whether fewer than four other channels are active before it. */
  ghost function Rooms(s: State, calls: seq<Call>, d: nat): (rooms: seq<bool>)
    requires Inv(s)
    ensures |rooms| == |calls|
    decreases |calls|
  {
    if calls == [] then []
    else
      StepKeepsInv(s, calls[0]);
      [|Others(s, d)| < LEDC_TIMER_MAX] + Rooms(Step(s, calls[0]).0, calls[1..], d)
  }

  lemma StepReady(s: State, call: Call)
    requires Inv(s)
    ensures Step(s, call).0.ready == ReadyAfter(s.ready, call)
  {
    if call.ChannelInit? && s.ready && ValidChannel(call.channel) {
      var s1 := Release(s, call.channel);
      assert s1.ready == s.ready;
    }
  }

  /** Over every run of calls for all channels, failures included, each channel shows exactly
      what it would show with a timer of its own. */
  lemma {:induction false} EachRunIsPrivate(s: State, calls: seq<Call>, d: nat)
    requires Inv(s) && d < OS_PWM_MAX_CHANNELS
    ensures Inv(Run(s, calls))
    ensures ViewOf(Run(s, calls), d) == PrivateRun(s.ready, ViewOf(s, d), calls, d, Rooms(s, calls, d))
    decreases |calls|
  {
    if calls == [] {
    } else {
      StepReady(s, calls[0]);
      EachChannelIsPrivate(s, calls[0], d);
      EachRunIsPrivate(Step(s, calls[0]).0, calls[1..], d);
      assert Rooms(s, calls, d)[1..] == Rooms(Step(s, calls[0]).0, calls[1..], d);
    }
  }

  // ---------------------------------------------------------------- the driver

  class Driver {
    var ready: bool
    var usage: bv8
    var refs: array<nat>
    var channels: array<Channel>
    /** The peripheral the driver programs. */
    var ledc: Ledc

    ghost function Value(): State
      reads this, refs, channels
    {
      State(ready, usage, refs[..], channels[..], ledc)
    }

    ghost predicate Valid()
      reads this, refs, channels
    {
      Inv(Value())
    }

    constructor (ledc: Ledc)
      requires |ledc.freqs| == LEDC_TIMER_MAX && |ledc.duties| == OS_PWM_MAX_CHANNELS
      ensures Valid() && fresh(refs) && fresh(channels)
      ensures !ready && usage == 0 && this.ledc == ledc
      ensures forall c :: 0 <= c < OS_PWM_MAX_CHANNELS ==> channels[c] == IDLE
    {
      ready, usage, this.ledc := false, 0, ledc;
      refs := new nat[LEDC_TIMER_MAX](i => 0);
      channels := new Channel[OS_PWM_MAX_CHANNELS](i => IDLE);
      new;
      forall t | 0 <= t < LEDC_TIMER_MAX
        ensures TimerOk(Value(), t)
      {
      }
    }

    method AllocTimer() returns (t: int)
      requires Shape(Value())
      modifies this`usage, refs
      ensures var free := FreeTimer(old(usage), 0);
              if free == LEDC_TIMER_MAX then t == -1 && Value() == old(Value())
              else t == free && Value() == Claim(old(Value()), free)
    {
      var i: nat := 0;
      while i < LEDC_TIMER_MAX
        invariant i <= LEDC_TIMER_MAX && Value() == old(Value())
        invariant FreeTimer(usage, 0) == FreeTimer(usage, i)
      {
        if usage & Mask(i) == 0 {
          usage := usage | Mask(i);
          refs[i] := 1;
          return i;
        }
        i := i + 1;
      }
      return -1;
    }

    method GiveTimer(t: nat)
      requires Shape(Value())
      modifies this`usage, refs
      ensures Value() == Drop(old(Value()), t)
    {
      if t < LEDC_TIMER_MAX {
        if refs[t] > 0 {
          refs[t] := refs[t] - 1;
        }
        if refs[t] == 0 {
          usage := Cleared(usage, t);
        }
        assert refs[..] == old(refs[..])[t := Unref(old(refs[t]))];
      }
    }

    /** Stop a channel that is active and give its timer back. */
    method ReleaseChannel(c: nat)
      requires Shape(Value()) && c < OS_PWM_MAX_CHANNELS
      modifies this`usage, refs, channels
      ensures Value() == Release(old(Value()), c)
    {
      if channels[c].active {
        GiveTimer(channels[c].timer);
        channels[c] := channels[c].(active := false);
      }
    }

    method Start(mutex: bool) returns (err: Result)
      requires Valid()
      modifies this, refs, channels
      ensures refs == old(refs) && channels == old(channels)
      ensures Valid() && (Value(), err) == Step(old(Value()), Init(mutex))
    {
      StepKeepsInv(Value(), Init(mutex));
      if ready {
        return Ok;
      }
      if !mutex {
        return NoMem;
      }
      forall c | 0 <= c < OS_PWM_MAX_CHANNELS {
        channels[c] := IDLE;
      }
      forall t | 0 <= t < LEDC_TIMER_MAX {
        refs[t] := 0;
      }
      assert refs[..] == seq(LEDC_TIMER_MAX, i => 0);
      assert channels[..] == seq(OS_PWM_MAX_CHANNELS, i => IDLE);
      usage, ready := 0, true;
      return Ok;
    }

    method Stop() returns (err: Result)
      requires Valid()
      modifies this, refs, channels
      ensures refs == old(refs) && channels == old(channels)
      ensures Valid() && (Value(), err) == Step(old(Value()), Deinit)
    {
      StepKeepsInv(Value(), Deinit);
      if !ready {
        return Ok;
      }
      var i: nat := 0;
      while i < OS_PWM_MAX_CHANNELS
        invariant i <= OS_PWM_MAX_CHANNELS && Shape(Value())
        invariant refs == old(refs) && channels == old(channels)
        invariant ReleaseFrom(Value(), i) == ReleaseFrom(old(Value()), 0)
      {
        ReleaseChannel(i);
        i := i + 1;
      }
      usage, ready := 0, false;
      return Ok;
    }

    /** pin, config and attach are the verdicts of the GPIO check, the timer and the channel set-up. */
    method OpenChannel(c: int, gpio: nat, freq: uint32, pin: bool, config: bool, attach: bool) returns (err: Result)
      requires Valid()
      modifies this, refs, channels
      ensures refs == old(refs) && channels == old(channels)
      ensures Valid() && (Value(), err) == Step(old(Value()), ChannelInit(c, gpio, freq, pin, config, attach))
    {
      StepKeepsInv(Value(), ChannelInit(c, gpio, freq, pin, config, attach));
      if !ready {
        return InvalidState;
      }
      if !ValidChannel(c) || freq == 0 || freq > PWM_MAX_FREQ || !pin {
        return InvalidArg;
      }
      ReleaseChannel(c);
      var t := AllocTimer();
      if t < 0 {
        return NoMem;
      }
      err := SetUp(c, t, gpio, freq, config, attach);
    }

    method SetUp(c: nat, t: nat, gpio: nat, freq: nat, config: bool, attach: bool) returns (err: Result)
      requires Shape(Value()) && c < OS_PWM_MAX_CHANNELS && t < LEDC_TIMER_MAX
      modifies this`usage, this`ledc, refs, channels
      ensures (Value(), err) == Attach(old(Value()), c, t, gpio, freq, config, attach)
    {
      channels[c] := channels[c].(timer := t);
      if !config {
        GiveTimer(t);
        return Fail;
      }
      ledc := ledc.(freqs := ledc.freqs[t := freq]);
      if !attach {
        GiveTimer(t);
        return Fail;
      }
      ledc := ledc.(duties := ledc.duties[c := 0]);
      channels[c] := Channel(true, gpio, freq, 0, channels[c].timer);
      return Ok;
    }

    method CloseChannel(c: int) returns (err: Result)
      requires Valid()
      modifies this, refs, channels
      ensures refs == old(refs) && channels == old(channels)
      ensures Valid() && (Value(), err) == Step(old(Value()), ChannelDeinit(c))
    {
      StepKeepsInv(Value(), ChannelDeinit(c));
      if !ready {
        return InvalidState;
      }
      if !ValidChannel(c) {
        return InvalidArg;
      }
      ReleaseChannel(c);
      return Ok;
    }

    method WritePercent(c: int, percent: nat, accepted: bool) returns (err: Result)
      requires Valid()
      modifies this`ledc, channels
      ensures Valid() && (Value(), err) == Step(old(Value()), SetDuty(c, percent, accepted))
    {
      StepKeepsInv(Value(), SetDuty(c, percent, accepted));
      if !ready {
        return InvalidState;
      }
      if !ValidChannel(c) {
        return InvalidArg;
      }
      var p := if percent > 100 then 100 else percent;
      if !channels[c].active {
        return InvalidState;
      }
      if !accepted {
        return Fail;
      }
      ledc := ledc.(duties := ledc.duties[c := PercentToReg(p)]);
      channels[c] := channels[c].(duty := p);
      return Ok;
    }

    method WriteMicros(c: int, us: uint32, accepted: bool) returns (err: Result)
      requires Valid()
      modifies this`ledc, channels
      ensures Valid() && (Value(), err) == Step(old(Value()), SetDutyUs(c, us, accepted))
    {
      StepKeepsInv(Value(), SetDutyUs(c, us, accepted));
      if !ready {
        return InvalidState;
      }
      if !ValidChannel(c) {
        return InvalidArg;
      }
      if !channels[c].active {
        return InvalidState;
      }
      assert ChannelOk(Value(), c);
      var reg := UsToReg(us, channels[c].freq);
      if !accepted {
        return Fail;
      }
      ledc := ledc.(duties := ledc.duties[c := reg]);
      channels[c] := channels[c].(duty := TrackedPercent(us, channels[c].freq));
      return Ok;
    }

    method WriteFreq(c: int, freq: uint32, accepted: bool) returns (err: Result)
      requires Valid()
      modifies this`ledc, channels
      ensures Valid() && (Value(), err) == Step(old(Value()), SetFreq(c, freq, accepted))
    {
      StepKeepsInv(Value(), SetFreq(c, freq, accepted));
      if !ready {
        return InvalidState;
      }
      if !ValidChannel(c) || freq == 0 || freq > PWM_MAX_FREQ {
        return InvalidArg;
      }
      if !channels[c].active {
        return InvalidState;
      }
      assert ChannelOk(Value(), c);
      if !accepted {
        return Fail;
      }
      ledc := ledc.(freqs := ledc.freqs[channels[c].timer := freq]);
      channels[c] := channels[c].(freq := freq);
      return Ok;
    }

    /** The number of active channels, which is also the number of timers in use. */
    method ActiveCount() returns (count: nat)
      requires Valid()
      ensures count == if ready then |Counted(Value())| else 0
      ensures count == |ActiveSet(Value())| <= LEDC_TIMER_MAX
    {
      ActiveChannelsAreTimers(Value());
      if !ready {
        assert ActiveSet(Value()) == {};
        return 0;
      }
      count := 0;
      ghost var seen: set<nat> := {};
      for i := 0 to OS_PWM_MAX_CHANNELS
        invariant seen == (set c: nat | c < i && Active(Value(), c)) && count == |seen|
      {
        if channels[i].active {
          count := count + 1;
          seen := seen + {i};
        }
      }
      assert seen == ActiveSet(Value());
    }
  }
}
