/** The duty arithmetic of the PWM driver, in 32 and 64-bit unsigned integers. */
module Duty {
  import opened CIntegers

  const PWM_MAX_DUTY_VALUE: nat := 8191
  const PWM_MAX_FREQ: nat := 40_000_000

  predicate ValidFreq(freq: nat) {
    0 < freq <= PWM_MAX_FREQ
  }

  function PercentToReg(percent: nat): (reg: nat)
    ensures reg <= PWM_MAX_DUTY_VALUE
  {
    if percent >= 100 then PWM_MAX_DUTY_VALUE else percent * PWM_MAX_DUTY_VALUE / 100
  }

  /** The period in microseconds; zero above one megahertz. */
  function Period(freq: nat): nat
    requires freq > 0
  {
    1_000_000 / freq
  }

  function UsToReg(us: nat, freq: nat): nat
    requires us < UINT32 && ValidFreq(freq)
  {
    var period := Period(freq);
    if us >= period then PWM_MAX_DUTY_VALUE else us * PWM_MAX_DUTY_VALUE % UINT64 / period % UINT32
  }

  /** The percentage that is recorded after a duty has been set in microseconds. */
  function TrackedPercent(us: nat, freq: nat): (p: nat)
    requires us < UINT32 && ValidFreq(freq)
    ensures p <= 100
  {
    var percent := us * 100 % UINT64 * freq % UINT64 / 1_000_000 % UINT32;
    if percent > 100 then 100 else percent
  }

  lemma DivideMonotone(x: nat, y: nat, d: nat)
    requires d > 0 && x <= y
    ensures x / d <= y / d
  {
    DivideBounds(x, d);
    DivideBounds(y, d);
    BelowMultiple(x / d, y / d, d, x);
  }

  lemma DivideAtLeast(x: nat, d: nat, q: nat)
    requires d > 0 && q * d <= x
    ensures q <= x / d
  {
    DivideBounds(x, d);
    BelowMultiple(q, x / d, d, x);
  }

  /** No 64-bit product overflows, for every 32-bit pulse and every valid frequency. */
  lemma ProductsFit(us: nat, freq: nat)
    requires us < UINT32 && ValidFreq(freq)
    ensures us * PWM_MAX_DUTY_VALUE < UINT64
    ensures us * 100 * freq < UINT64
  {
  }

  /** A pulse below the period scales to at most the top register value. */
  lemma ScaledFits(us: nat, period: nat)
    requires us < period
    ensures us * PWM_MAX_DUTY_VALUE / period <= PWM_MAX_DUTY_VALUE
  {
  }

  /** Neither the division nor its cast loses anything: the register value is the exact quotient. */
  lemma RegisterIsQuotient(us: nat, freq: nat)
    requires us < UINT32 && ValidFreq(freq) && us < Period(freq)
    ensures UsToReg(us, freq) == us * PWM_MAX_DUTY_VALUE / Period(freq) <= PWM_MAX_DUTY_VALUE
  {
    ProductsFit(us, freq);
    SmallRemainder(us * PWM_MAX_DUTY_VALUE, UINT64);
    ScaledFits(us, Period(freq));
    SmallRemainder(us * PWM_MAX_DUTY_VALUE / Period(freq), UINT32);
  }

  /** The recorded percentage loses only the fraction and what the cast to 32 bits cuts. */
  lemma TrackedIsCut(us: nat, freq: nat)
    requires us < UINT32 && ValidFreq(freq)
    ensures TrackedPercent(us, freq)
         == var p := us * 100 * freq / 1_000_000 % UINT32; if p > 100 then 100 else p
  {
    ProductsFit(us, freq);
    SmallRemainder(us * 100, UINT64);
    SmallRemainder(us * 100 * freq, UINT64);
  }

  /** The register value never exceeds 13 bits, and a longer pulse never lowers it. */
  lemma RegisterBoundedAndMonotone(us: nat, us': nat, freq: nat)
    requires us <= us' < UINT32 && ValidFreq(freq)
    ensures UsToReg(us, freq) <= UsToReg(us', freq) <= PWM_MAX_DUTY_VALUE
  {
    if us' < Period(freq) {
      RegisterIsQuotient(us', freq);
      RegisterIsQuotient(us, freq);
      DivideMonotone(us * PWM_MAX_DUTY_VALUE, us' * PWM_MAX_DUTY_VALUE, Period(freq));
    } else if us < Period(freq) {
      RegisterIsQuotient(us, freq);
    }
  }

  /** The recorded percentage never overstates the pulse: converted back it is at most the
      register value, even where the cast to 32 bits cuts it. */
  lemma TrackedNeverOverstates(us: nat, freq: nat)
    requires us < UINT32 && ValidFreq(freq)
    ensures PercentToReg(TrackedPercent(us, freq)) <= UsToReg(us, freq) <= PWM_MAX_DUTY_VALUE
  {
    RegisterBoundedAndMonotone(us, us, freq);
    if us < Period(freq) {
      var p := us * 100 * freq / 1_000_000;
      ShortPulse(us, freq, p);
      TrackedIsCut(us, freq);
      SmallRemainder(p, UINT32);
      RegisterIsQuotient(us, freq);
    }
  }

  /** A pulse shorter than the period covers less than 10^6 cycles-times-microseconds. */
  lemma ShortPulseArea(us: nat, freq: nat)
    requires freq > 0 && us < Period(freq)
    ensures us * freq < 1_000_000 && Period(freq) * freq <= 1_000_000
  {
  }

  /** Below one period the percentage p stays under 100, and p percent of the register range
      is at most the register value. */
  lemma ShortPulse(us: nat, freq: nat, p: nat)
    requires ValidFreq(freq) && us < Period(freq) && p == us * 100 * freq / 1_000_000
    ensures p < 100 && PercentToReg(p) <= us * PWM_MAX_DUTY_VALUE / Period(freq)
  {
    var reg, area := PercentToReg(p), us * freq;
    ShortPulseArea(us, freq);
    assert us * 100 * freq == 100 * area;
    DivideBounds(100 * area, 1_000_000);
    DivideBounds(p * PWM_MAX_DUTY_VALUE, 100);
    RegPeriod(us, freq, Period(freq), p, reg);
    DivideAtLeast(us * PWM_MAX_DUTY_VALUE, Period(freq), reg);
  }

  lemma RegPeriod(us: nat, freq: nat, period: nat, p: nat, reg: nat)
    requires period * freq <= 1_000_000 && p * 1_000_000 <= 100 * (us * freq) && freq > 0
    requires reg * 100 <= p * PWM_MAX_DUTY_VALUE
    ensures reg * period <= us * PWM_MAX_DUTY_VALUE
  {
  }

  /** Apart from the cap at 100 the record is exact unless that cast cuts it: it is right exactly
      when the percentage fits 32 bits, or what the cast leaves is still capped. */
  lemma TrackedExactIff(us: nat, freq: nat)
    requires us < UINT32 && ValidFreq(freq)
    ensures var p := us * 100 * freq / 1_000_000;
            TrackedPercent(us, freq) == (if p > 100 then 100 else p)
            <==> p < UINT32 || p % UINT32 >= 100
  {
    TrackedIsCut(us, freq);
    var p := us * 100 * freq / 1_000_000;
    if p < UINT32 {
      SmallRemainder(p, UINT32);
    }
  }

  /** It can understate it grossly: a pulse of 2^27 microseconds at 40 MHz keeps the output
      fully on and is recorded as zero percent. */
  lemma TrackedCanBeZeroAtFullDuty()
    ensures TrackedPercent(0x800_0000, PWM_MAX_FREQ) == 0
    ensures UsToReg(0x800_0000, PWM_MAX_FREQ) == PWM_MAX_DUTY_VALUE
  {
  }
}
