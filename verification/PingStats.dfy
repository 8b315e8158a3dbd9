/** The running statistics of os_ping: 32-bit counters and a truncating running mean. */
module PingStats {
  import opened CIntegers
  import opened CStrings

  const UINT32_MAX: nat := UINT32 - 1

  datatype Stats = Stats(sent: nat, received: nat, min: nat, max: nat, avg: nat)

  const START := Stats(0, 0, UINT32_MAX, 0, 0)

  /** One attempt: a reply with its round-trip time in milliseconds, or none. */
  type Attempt = Option<uint32>

  /** The numerator of the new mean, before it is cut to 32 bits. */
  function Numerator(s: Stats, rtt: nat): nat {
    s.avg * s.received + rtt
  }

  function Update(s: Stats, a: Attempt): Stats {
    match a
    case None => s.(sent := s.sent + 1)
    case Some(rtt) =>
      Stats(s.sent + 1, s.received + 1,
            if rtt < s.min then rtt else s.min,
            if rtt > s.max then rtt else s.max,
            Numerator(s, rtt) % UINT32 / (s.received + 1))
  }

  function Run(attempts: seq<Attempt>): Stats {
    if attempts == [] then START else Update(Run(attempts[..|attempts| - 1]), Last(attempts))
  }

  /** Without a reply the smallest time is reported as zero. */
  function Report(s: Stats): Stats {
    if s.min == UINT32_MAX then s.(min := 0) else s
  }

  method Ping(attempts: seq<Attempt>) returns (result: Stats)
    ensures result == Report(Run(attempts))
    ensures Summarises(result, attempts)
    ensures NothingWraps(attempts) ==> MeanIsFair(result, Times(attempts))
  {
    var sent: nat, received: nat, min: nat, max: nat, avg: nat := 0, 0, UINT32_MAX, 0, 0;
    for i := 0 to |attempts|
      invariant received == Run(attempts[..i]).received
      invariant Stats(sent, received, min, max, avg) == Run(attempts[..i])
    {
      assert attempts[..i + 1][..i] == attempts[..i];
      sent := sent + 1;
      if attempts[i].Some? {
        var rtt := attempts[i].value;
        received := received + 1;
        if rtt < min {
          min := rtt;
        }
        if rtt > max {
          max := rtt;
        }
        assert avg * (received - 1) + rtt == Numerator(Run(attempts[..i]), rtt);
        avg := (avg * (received - 1) + rtt) % UINT32 / received;
      }
    }
    assert attempts[..|attempts|] == attempts;
    ReportSummarises(attempts);
    result := Stats(sent, received, if min == UINT32_MAX then 0 else min, max, avg);
  }

  // ---------------------------------------------------------------- what the numbers mean

  /** The round-trip times of the replies, in order. */
  function Times(attempts: seq<Attempt>): seq<nat> {
    if attempts == [] then []
    else Times(attempts[..|attempts| - 1]) + if Last(attempts).Some? then [Last(attempts).value] else []
  }

  function Sum(times: seq<nat>): nat {
    if times == [] then 0 else Sum(times[..|times| - 1]) + Last(times)
  }

  /** What the result says of the attempts: how many were made and how many were answered, the
      largest time, and the smallest; no reply leaves zeros. 0xFFFFFFFF stands for "none yet", so it
      is not reported as the smallest time even if every reply took so long. */
  ghost predicate Summarises(r: Stats, attempts: seq<Attempt>) {
    var times := Times(attempts);
    && r.sent == |attempts| && r.received == |times|
    && (times == [] ==> r.min == r.max == r.avg == 0)
    && (times != [] ==> r.max in times && forall i :: 0 <= i < |times| ==> times[i] <= r.max)
    && (forall i :: 0 <= i < |times| ==> r.min <= times[i])
    && (if exists i :: 0 <= i < |times| && times[i] < 0xFFFF_FFFF then r.min in times else r.min == 0)
  }

  /** The mean lies between the extremes and falls short of the true one by at most (n - 1) / 2. */
  ghost predicate MeanIsFair(r: Stats, times: seq<nat>) {
    var n := |times|;
    n > 0 ==> r.min <= r.avg <= r.max && 0 <= 2 * (Sum(times) - n * r.avg) <= n * (n - 1)
  }

  lemma {:induction false} RunCounts(attempts: seq<Attempt>)
    ensures Run(attempts).sent == |attempts| && Run(attempts).received == |Times(attempts)|
    ensures Extremes(Run(attempts), Times(attempts))
    ensures Times(attempts) == [] ==> Run(attempts).avg == 0
    ensures forall i :: 0 <= i < |Times(attempts)| ==> Times(attempts)[i] <= UINT32_MAX
  {
    if attempts != [] {
      var before, a := attempts[..|attempts| - 1], Last(attempts);
      RunCounts(before);
      if a.Some? {
        ExtremesStep(Run(before), Times(before), a);
      } else {
        assert Times(attempts) == Times(before);
      }
    }
  }

  lemma ReportSummarises(attempts: seq<Attempt>)
    ensures Summarises(Report(Run(attempts)), attempts)
    ensures NothingWraps(attempts) ==> MeanIsFair(Report(Run(attempts)), Times(attempts))
  {
    RunCounts(attempts);
    if NothingWraps(attempts) {
      MeanIsBounded(attempts);
    }
  }

  /** No numerator is cut. */
  predicate NothingWraps(attempts: seq<Attempt>) {
    attempts == [] ||
    var before := attempts[..|attempts| - 1];
    NothingWraps(before) && (Last(attempts).Some? ==> Numerator(Run(before), Last(attempts).value) < UINT32)
  }

  /** min and max are the smallest and the largest time. */
  ghost predicate Extremes(s: Stats, times: seq<nat>) {
    && (forall i :: 0 <= i < |times| ==> s.min <= times[i] <= s.max)
    && (times != [] ==> s.min in times && s.max in times)
    && (times == [] ==> s.min == UINT32_MAX && s.max == 0)
  }

  lemma MeanStep(sum: nat, n: nat, avg: nat, rtt: nat, min: nat, max: nat, avg': nat)
    requires avg' == (avg * n + rtt) / (n + 1)
    requires n * avg <= sum && 2 * (sum - n * avg) <= n * (n - 1)
    requires n > 0 ==> min <= avg <= max
    requires min <= rtt <= max
    ensures (n + 1) * avg' <= sum + rtt && 2 * (sum + rtt - (n + 1) * avg') <= (n + 1) * n
    ensures min <= avg' <= max
  {
    var x, d := avg * n + rtt, n + 1;
    assert x == avg' * d + x % d;
    assert 0 <= x % d <= n;
    if n > 0 {
      MeanBetween(avg, n, rtt, min, max);
    }
  }

  lemma MeanBetween(avg: nat, n: nat, rtt: nat, min: nat, max: nat)
    requires min <= avg <= max && min <= rtt <= max
    ensures min <= (avg * n + rtt) / (n + 1) <= max
  {
    var x, d := avg * n + rtt, n + 1;
    assert min * n <= avg * n <= max * n;
    assert min * d <= x <= max * d;
    QuotientBetween(x, d, min, max);
  }

  lemma QuotientBetween(x: nat, d: nat, lo: nat, hi: nat)
    requires d > 0 && lo * d <= x <= hi * d
    ensures lo <= x / d <= hi
  {
    var q := x / d;
    DivideBounds(x, d);
    BelowMultiple(lo, q, d, x);
    BelowMultiple(q, hi, d, x);
  }

  /** The mean is an integer below the true one by at most (n - 1) / 2. */
  ghost predicate MeanOk(s: Stats, times: seq<nat>) {
    var n := |times|;
    && s.received == n
    && (n > 0 ==> s.min <= s.avg <= s.max)
    && n * s.avg <= Sum(times) && 2 * (Sum(times) - n * s.avg) <= n * (n - 1)
  }

  lemma MeanUpdate(s: Stats, times: seq<nat>, rtt: uint32)
    requires MeanOk(s, times) && Numerator(s, rtt) < UINT32
    requires times == [] ==> s.min >= rtt && s.max <= rtt && s.avg == 0
    ensures MeanOk(Update(s, Some(rtt)), times + [rtt])
  {
    var s', n := Update(s, Some(rtt)), |times|;
    assert (times + [rtt])[..n] == times;
    assert s'.avg == (s.avg * n + rtt) / (n + 1);
    MeanStep(Sum(times), n, s.avg, rtt, s'.min, s'.max, s'.avg);
  }

  /** While nothing wraps: the extremes are right, the mean lies between them, and it falls
      short of the true mean by at most (n - 1) / 2 after n replies. */
  lemma {:induction false} MeanIsBounded(attempts: seq<Attempt>)
    requires NothingWraps(attempts)
    ensures Run(attempts).sent == |attempts| >= |Times(attempts)|
    ensures Extremes(Run(attempts), Times(attempts)) && MeanOk(Run(attempts), Times(attempts))
    ensures Times(attempts) == [] ==> Run(attempts).avg == 0
  {
    if attempts == [] {
    } else {
      var before, a := attempts[..|attempts| - 1], Last(attempts);
      MeanIsBounded(before);
      if a.Some? {
        ExtremesStep(Run(before), Times(before), a);
        MeanUpdate(Run(before), Times(before), a.value);
      } else {
        assert Times(attempts) == Times(before);
      }
    }
  }

  lemma ExtremesStep(s: Stats, times: seq<nat>, a: Attempt)
    requires a.Some? && Extremes(s, times)
    ensures Extremes(Update(s, a), times + [a.value])
  {
  }

  // ---------------------------------------------------------------- when the 32 bits do not suffice

  lemma NumeratorWithinSum(s: Stats, times: seq<nat>, rtt: nat)
    requires MeanOk(s, times)
    ensures Numerator(s, rtt) <= Sum(times) + rtt
  {
    assert s.avg * s.received == |times| * s.avg;
  }

  lemma SumOfTimes(attempts: seq<Attempt>)
    requires attempts != []
    ensures
      var before, a := attempts[..|attempts| - 1], Last(attempts);
      Sum(Times(attempts)) == Sum(Times(before)) + if a.Some? then a.value else 0
  {
    var before, a := attempts[..|attempts| - 1], Last(attempts);
    if a.Some? {
      assert Times(attempts)[..|Times(before)|] == Times(before);
    } else {
      assert Times(attempts) == Times(before);
    }
  }

  /** A bound on the times alone: if their sum fits 32 bits, nothing wraps. */
  lemma {:induction false} SmallSumDoesNotWrap(attempts: seq<Attempt>)
    requires Sum(Times(attempts)) <= UINT32_MAX
    ensures NothingWraps(attempts)
  {
    if attempts == [] {
    } else {
      var before, a := attempts[..|attempts| - 1], Last(attempts);
      SumOfTimes(attempts);
      SmallSumDoesNotWrap(before);
      if a.Some? {
        MeanIsBounded(before);
        NumeratorWithinSum(Run(before), Times(before), a.value);
      }
    }
  }

  lemma {:induction false} SumWithin(attempts: seq<Attempt>, limit: nat)
    requires forall i :: 0 <= i < |attempts| && attempts[i].Some? ==> attempts[i].value <= limit
    ensures Sum(Times(attempts)) <= |attempts| * limit
  {
    if attempts == [] {
    } else {
      var n := |attempts| - 1;
      SumOfTimes(attempts);
      SumWithin(attempts[..n], limit);
      assert (n + 1) * limit == n * limit + limit;
    }
  }

  /** A bound on the times and their number, checked before the call, keeps everything from wrapping. */
  lemma SmallTimesDoNotWrap(attempts: seq<Attempt>, limit: nat)
    requires |attempts| * limit <= UINT32_MAX
    requires forall i :: 0 <= i < |attempts| && attempts[i].Some? ==> attempts[i].value <= limit
    ensures NothingWraps(attempts)
  {
    SumWithin(attempts, limit);
    SmallSumDoesNotWrap(attempts);
  }

  /** The same statistics in unbounded integers. */
  function ExactUpdate(s: Stats, a: Attempt): Stats {
    if a.None? then Update(s, a)
    else Update(s, a).(avg := Numerator(s, a.value) / (s.received + 1))
  }

  function ExactRun(attempts: seq<Attempt>): Stats {
    if attempts == [] then START else ExactUpdate(ExactRun(attempts[..|attempts| - 1]), Last(attempts))
  }

  /** After every attempt the statistics are those of unbounded integers. */
  predicate ExactThroughout(attempts: seq<Attempt>) {
    Run(attempts) == ExactRun(attempts) && (attempts == [] || ExactThroughout(attempts[..|attempts| - 1]))
  }

  /** Cutting a numerator loses at least one unit of the quotient. */
  lemma CutQuotient(x: nat, d: nat)
    requires 0 < d <= UINT32 <= x
    ensures x % UINT32 / d < x / d
  {
    var y := x % UINT32;
    var q, p := y / d, x / d;
    assert y + UINT32 <= x;
    DivideBounds(x, d);
    DivideBounds(y, d);
    assert (q + 1) * d == q * d + d;
    BelowMultiple(q + 1, p, d, x);
  }

  lemma {:induction false} ReceivedAtMostSent(attempts: seq<Attempt>)
    ensures Run(attempts).received <= Run(attempts).sent == |attempts|
  {
    if attempts != [] {
      ReceivedAtMostSent(attempts[..|attempts| - 1]);
    }
  }

  /** The count of attempts is an int. */
  const INT_MAX: nat := 0x7FFF_FFFF

  /** For every run the caller can ask for: the statistics are exact after every attempt if and
      only if no numerator is cut. */
  lemma {:induction false} ExactIffNothingWraps(attempts: seq<Attempt>)
    requires |attempts| <= INT_MAX
    ensures ExactThroughout(attempts) <==> NothingWraps(attempts)
  {
    if attempts == [] {
    } else {
      var before, a := attempts[..|attempts| - 1], Last(attempts);
      ExactIffNothingWraps(before);
      ReceivedAtMostSent(before);
      if a.Some? && Numerator(Run(before), a.value) >= UINT32 {
        CutQuotient(Numerator(Run(before), a.value), Run(before).received + 1);
      }
    }
  }

  /** After every attempt the mean is between the extremes and its shortfall in bounds. */
  ghost predicate MeanOkThroughout(attempts: seq<Attempt>) {
    MeanOk(Run(attempts), Times(attempts)) && (attempts == [] || MeanOkThroughout(attempts[..|attempts| - 1]))
  }

  /** Up to this many replies the allowed shortfall n (n - 1) / 2 stays below 2^32. */
  const MEAN_REPLIES: nat := 92682

  lemma CutMeanTooLow(x: nat, sum: nat, n: nat)
    requires UINT32 <= x <= sum && n < MEAN_REPLIES
    ensures
      var avg := x % UINT32 / (n + 1);
      2 * (sum - (n + 1) * avg) > (n + 1) * n
  {
    var y := x % UINT32;
    var avg := y / (n + 1);
    assert y + UINT32 <= x;
    DivideBounds(y, n + 1);
    assert (n + 1) * avg == avg * (n + 1);
    ReplyPairs(n);
  }

  lemma ReplyPairs(n: nat)
    requires n < MEAN_REPLIES
    ensures (n + 1) * n < 2 * UINT32
  {
    ProductWithin(n + 1, n, 92682, 92681);
  }

  lemma ProductWithin(a: nat, b: nat, c: nat, d: nat)
    requires a <= c && b <= d
    ensures a * b <= c * d
  {
    assert a * b <= a * d <= c * d;
  }

  /** A cut numerator takes the mean out of its bounds. */
  lemma MeanUpdateIff(s: Stats, times: seq<nat>, rtt: uint32)
    requires MeanOk(s, times) && |times| < MEAN_REPLIES
    requires times == [] ==> s.min >= rtt && s.max <= rtt && s.avg == 0
    ensures MeanOk(Update(s, Some(rtt)), times + [rtt]) <==> Numerator(s, rtt) < UINT32
  {
    if Numerator(s, rtt) < UINT32 {
      MeanUpdate(s, times, rtt);
    } else {
      NumeratorWithinSum(s, times, rtt);
      CutMeanTooLow(Numerator(s, rtt), Sum(times) + rtt, |times|);
      assert (times + [rtt])[..|times|] == times;
    }
  }

  /** The mean keeps its bounds after every attempt if and only if no numerator is cut. */
  lemma {:induction false} MeanOkIffNothingWraps(attempts: seq<Attempt>)
    requires |attempts| <= MEAN_REPLIES
    ensures MeanOkThroughout(attempts) <==> NothingWraps(attempts)
  {
    if attempts == [] {
    } else {
      var before, a := attempts[..|attempts| - 1], Last(attempts);
      MeanOkIffNothingWraps(before);
      if NothingWraps(before) {
        MeanIsBounded(before);
        if a.Some? {
          MeanUpdateIff(Run(before), Times(before), a.value);
        } else {
          assert Times(attempts) == Times(before);
        }
      }
    }
  }

  /** n replies, each just under the receive timeout of one second. */
  function SlowReplies(n: nat): (r: seq<Attempt>)
    ensures |r| == n
  {
    seq(n, i => Some(999))
  }

  lemma SlowUpdate(n: nat)
    requires 999 * n + 999 < UINT32
    ensures (999 * n + 999) % UINT32 / (n + 1) == 999
  {
    QuotientBetween(999 * n + 999, n + 1, 999, 999);
  }

  lemma {:induction false} SlowRun(n: nat)
    requires 0 < n && 999 * n < UINT32
    ensures Run(SlowReplies(n)) == Stats(n, n, 999, 999, 999)
  {
    assert SlowReplies(n)[..n - 1] == SlowReplies(n - 1);
    if n > 1 {
      SlowRun(n - 1);
    }
    SlowUpdate(n - 1);
  }

  /** It takes millions of replies: after 4299267 of 999 milliseconds the mean drops to zero. */
  lemma LongPingWraps()
    ensures Run(SlowReplies(4_299_267)) == Stats(4_299_267, 4_299_267, 999, 999, 0)
  {
    var n := 4_299_266;
    assert SlowReplies(n + 1)[..n] == SlowReplies(n);
    SlowRun(n);
  }
}
