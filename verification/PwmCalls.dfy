/** What each call of the PWM driver does to the output of its channel, in plain numbers, and which
    error it returns. */
module PwmCalls {
  import opened CIntegers
  import opened Duty
  import opened Pwm

  // ---------------------------------------------------------------- results

  /** The call names a channel that does not exist, a frequency of zero or above 40 MHz, or a pin
      that cannot be an output. */
  predicate BadArgument(call: Call)
    requires !call.Init? && !call.Deinit?
  {
    || call.channel < 0 || call.channel >= 8
    || ((call.ChannelInit? || call.SetFreq?) && (call.freq == 0 || call.freq > 40_000_000))
    || (call.ChannelInit? && !call.pin)
  }

  /** A call that needs a channel that has been set up. */
  predicate Adjusts(call: Call) {
    call.SetDuty? || call.SetDutyUs? || call.SetFreq?
  }

  /** Setting a duty or a frequency: which error is returned. */
  lemma AdjustResultIff(s: State, call: Call)
    requires Inv(s) && Adjusts(call)
    ensures
      var r := Step(s, call).1;
      && (r == InvalidState <==> !s.ready || (!BadArgument(call) && !Active(s, call.channel)))
      && (r == InvalidArg <==> s.ready && BadArgument(call))
      && (r == Fail <==> s.ready && !BadArgument(call) && Active(s, call.channel) && !call.accepted)
      && (r == Ok <==> s.ready && !BadArgument(call) && Active(s, call.channel) && call.accepted)
  {
    match call {
      case SetDuty(c, percent, accepted) =>
      case SetDutyUs(c, us, accepted) =>
      case SetFreq(c, freq, accepted) =>
    }
  }

  /** Setting a channel up: besides, there is no timer if four other channels are active. */
  lemma SetUpResultIff(s: State, call: Call)
    requires Inv(s) && call.ChannelInit?
    ensures
      var r := Step(s, call).1;
      && (r == InvalidState <==> !s.ready)
      && (r == InvalidArg <==> s.ready && BadArgument(call))
      && (r == NoMem <==> s.ready && !BadArgument(call) && |Others(s, call.channel)| == 4)
      && (r == Fail <==>
            s.ready && !BadArgument(call) && |Others(s, call.channel)| != 4 && !(call.config && call.attach))
      && (r == Ok <==>
            s.ready && !BadArgument(call) && |Others(s, call.channel)| != 4 && call.config && call.attach)
  {
    if s.ready && !BadArgument(call) {
      NoMemIff(s, call);
    }
  }

  /** Starting fails only for want of a lock, stopping never. */
  lemma StartResultIff(s: State, call: Call)
    requires Inv(s) && (call.Init? || call.Deinit?)
    ensures Step(s, call).1 == if call.Init? && !s.ready && !call.mutex then NoMem else Ok
    ensures Step(s, call).1 == Ok ==> Step(s, call).0.ready == call.Init?
  {
  }

  /** A call that fails changes nothing, unless it was to set a channel up: then that channel is
      left off, and the others stay as they are. */
  lemma FailureLeaves(s: State, call: Call, d: nat)
    requires Inv(s) && Step(s, call).1 != Ok && d < 8
    ensures !call.ChannelInit? || Step(s, call).1 in {InvalidState, InvalidArg} ==> Step(s, call).0 == s
    ensures call.ChannelInit? && d != call.channel ==> SameChannel(s, Step(s, call).0, d)
    ensures call.ChannelInit? && d == call.channel && Step(s, call).1 in {NoMem, Fail} ==> !Active(Step(s, call).0, d)
  {
    if call.ChannelInit? && Step(s, call).1 in {NoMem, Fail} {
      if d == call.channel {
        SetUpFails(s, call, d);
      } else {
        StepIsolates(s, call, d);
      }
    }
  }

  lemma SetUpFails(s: State, call: Call, d: nat)
    requires Inv(s) && call.ChannelInit? && call.channel == d < 8 && Step(s, call).1 in {NoMem, Fail}
    ensures !Active(Step(s, call).0, d)
  {
    var s1 := Release(s, d);
    ReleaseKeepsInv(s, d);
    var t := FreeTimer(s1.usage, 0);
    if t < LEDC_TIMER_MAX {
      AttachShows(Claim(s1, t), d, t, call.gpio, call.freq, call.config, call.attach);
    }
  }

  // ---------------------------------------------------------------- outputs

  /** The states differ at most in the duty of channel c. */
  ghost predicate OnlyDuty(s: State, r: State, c: nat)
    requires Shape(s) && c < 8
  {
    && Shape(r) && r.ready == s.ready && r.usage == s.usage && r.refs == s.refs && r.ledc.freqs == s.ledc.freqs
    && r.channels[c] == s.channels[c].(duty := r.channels[c].duty)
    && forall d :: 0 <= d < 8 && d != c ==> r.channels[d] == s.channels[d] && r.ledc.duties[d] == s.ledc.duties[d]
  }

  /** A duty in percent: the register is the exact share of 8191, rounded down, and the record is
      the percentage, both capped at 100 percent. */
  lemma PercentOutput(s: State, c: nat, percent: nat)
    requires Inv(s) && s.ready && c < 8 && s.channels[c].active
    ensures
      var (r, result) := Step(s, SetDuty(c, percent, true));
      && result == Ok && OnlyDuty(s, r, c)
      && (percent <= 100 ==> 100 * r.ledc.duties[c] <= percent * 8191 < 100 * r.ledc.duties[c] + 100)
      && (percent >= 100 ==> r.ledc.duties[c] == 8191)
      && r.channels[c].duty == if percent <= 100 then percent else 100
  {
    DivideBounds(percent * 8191, 100);
  }

  /** More percent never lower the output. */
  lemma PercentMonotone(s: State, c: nat, percent: nat, more: nat)
    requires Inv(s) && s.ready && c < 8 && s.channels[c].active && percent <= more
    ensures Step(s, SetDuty(c, percent, true)).0.ledc.duties[c] <= Step(s, SetDuty(c, more, true)).0.ledc.duties[c]
  {
    PercentOutput(s, c, percent);
    PercentOutput(s, c, more);
  }

  lemma MicrosInNumbers(us: uint32, freq: nat)
    requires 0 < freq <= 40_000_000
    ensures
      var period, reg := 1_000_000 / freq, UsToReg(us, freq);
      if us < period then period * reg <= us * 8191 < period * reg + period else reg == 8191
    ensures
      var percent := us * 100 * freq / 1_000_000 % 0x1_0000_0000;
      TrackedPercent(us, freq) == if percent <= 100 then percent else 100
  {
    TrackedIsCut(us, freq);
    if us < Period(freq) {
      RegisterIsQuotient(us, freq);
      DivideBounds(us * PWM_MAX_DUTY_VALUE, Period(freq));
    }
  }

  /** A duty in microseconds, for a channel whose period is 10^6 / freq microseconds, rounded down:
      the exact share of 8191, rounded down, and the top value for a pulse as long as the period. */
  lemma MicrosOutput(s: State, c: nat, us: uint32)
    requires Inv(s) && s.ready && c < 8 && s.channels[c].active
    ensures s.channels[c].freq > 0
    ensures
      var (r, result) := Step(s, SetDutyUs(c, us, true));
      var freq, reg := s.channels[c].freq, r.ledc.duties[c];
      var period, percent := 1_000_000 / freq, us * 100 * freq / 1_000_000 % 0x1_0000_0000;
      && result == Ok && OnlyDuty(s, r, c)
      && (us < period ==> period * reg <= us * 8191 < period * reg + period)
      && (us >= period ==> reg == 8191)
      && r.channels[c].duty == if percent <= 100 then percent else 100
  {
    MicrosInNumbers(us, Lookup(s, c).freq);
  }

  /** A new frequency reaches the channel's own timer and its record; nothing else changes. */
  lemma FreqOutput(s: State, c: nat, freq: uint32)
    requires Inv(s) && s.ready && c < 8 && s.channels[c].active && 0 < freq <= 40_000_000
    ensures
      var (r, result) := Step(s, SetFreq(c, freq, true));
      && result == Ok && Shape(r) && r.channels == s.channels[c := s.channels[c].(freq := freq)]
      && r.ledc.duties == s.ledc.duties && r.ready == s.ready && r.usage == s.usage && r.refs == s.refs
      && forall t :: 0 <= t < 4 ==> r.ledc.freqs[t] == if t == s.channels[c].timer then freq else s.ledc.freqs[t]
  {
  }

  /** A channel that has been set up is active on its pin at its frequency with no output, on a
      timer that no other channel owns. */
  lemma SetUpOutput(s: State, c: nat, gpio: nat, freq: uint32)
    requires Inv(s) && Step(s, ChannelInit(c, gpio, freq, true, true, true)).1 == Ok
    ensures c < 8 && Inv(Step(s, ChannelInit(c, gpio, freq, true, true, true)).0)
    ensures
      var r := Step(s, ChannelInit(c, gpio, freq, true, true, true)).0;
      var t := r.channels[c].timer;
      && t < 4 && r.channels[c] == Channel(true, gpio, freq, 0, t)
      && r.ledc.freqs[t] == freq && r.ledc.duties[c] == 0 && !OwnedByOther(s, c, t)
  {
    var s1 := Release(s, c);
    StepKeepsInv(s, ChannelInit(c, gpio, freq, true, true, true));
    ReleaseKeepsInv(s, c);
    ReleaseLeavesOthers(s, c);
    var t := FreeTimer(s1.usage, 0);
    AttachShows(Claim(s1, t), c, t, gpio, freq, true, true);
  }

  /** A channel that is shut down is off. */
  lemma ShutDown(s: State, c: nat)
    requires Inv(s) && s.ready && c < 8
    ensures Step(s, ChannelDeinit(c)).1 == Ok && !Active(Step(s, ChannelDeinit(c)).0, c)
  {
    ReleaseKeepsInv(s, c);
  }
}
