/** The internet checksum of the ICMP packets, section 1 of RFC 1071: a 32-bit sum of
    host-order words, folded twice. */
module Checksum {
  import opened CIntegers

  type Octet = b: int | 0 <= b < 256

  const LONGEST: nat := 131074  // the longest buffer whose sum always fits in 32 bits

  // ---------------------------------------------------------------- the pure model

  /** The 16-bit words of a buffer, first octet low (the host) or high (the network); a last
      single octet is padded with a zero behind it. */
  function WordAt(b: seq<Octet>, k: nat, network: bool): (w: nat)
    requires 2 * k < |b|
    ensures w < 0x1_0000
  {
    var first: int, second: int := b[2 * k], if 2 * k + 1 < |b| then b[2 * k + 1] else 0;
    if network then 256 * first + second else first + 256 * second
  }

  function WordCount(b: seq<Octet>): nat {
    (|b| + 1) / 2
  }

  /** The sum of the first n words. */
  function Sum(b: seq<Octet>, n: nat, network: bool): nat
    requires n <= WordCount(b)
  {
    if n == 0 then 0 else Sum(b, n - 1, network) + WordAt(b, n - 1, network)
  }

  function Total(b: seq<Octet>, network: bool): nat {
    Sum(b, WordCount(b), network)
  }

  /** One's complement addition of 16-bit words: the carry goes back in at the bottom. */
  function OnesAdd(x: nat, y: nat): (z: nat)
    requires x < 0x1_0000 && y < 0x1_0000
    ensures z < 0x1_0000
  {
    if x + y < 0x1_0000 then x + y else x + y - 0xFFFF
  }

  /** The one's complement sum of the first n words, word by word. */
  function OnesSum(b: seq<Octet>, n: nat, network: bool): (z: nat)
    requires n <= WordCount(b)
    ensures z < 0x1_0000
  {
    if n == 0 then 0 else OnesAdd(OnesSum(b, n - 1, network), WordAt(b, n - 1, network))
  }

  /** The checksum as RFC 1071 defines it. */
  function Check(b: seq<Octet>, network: bool): nat {
    0xFFFF - OnesSum(b, WordCount(b), network)
  }

  /** The value of a 32-bit sum after the two folds and the cut to 16 bits. */
  function Folded(sum: nat): nat {
    var once := sum / 0x1_0000 + sum % 0x1_0000;
    (once + once / 0x1_0000) % 0x1_0000
  }

  // ---------------------------------------------------------------- ping_checksum

  /** The summing loop, in 32-bit arithmetic. */
  method SumWords(buf: array<Octet>) returns (sum: nat)
    ensures sum == Total(buf[..], false) % UINT32
  {
    var p: nat, len: nat := 0, buf.Length;
    sum := 0;
    ghost var b := buf[..];
    while len > 1
      invariant 2 * p + len == buf.Length && p <= WordCount(b)
      invariant sum == Sum(b, p, false) % UINT32
    {
      var lo: int, hi: int := buf[2 * p], buf[2 * p + 1];
      SumStep(b, p, lo + 256 * hi);
      sum := (sum + (lo + 256 * hi)) % UINT32;
      p, len := p + 1, len - 2;
    }
    if len > 0 {
      var lo: int := buf[2 * p];
      SumStep(b, p, lo);
      sum := (sum + lo) % UINT32;
    }
  }

  /** The two folds and the complement, cut to 16 bits. */
  method FoldAndComplement(total: nat) returns (r: nat)
    requires total < UINT32
    ensures r == 0xFFFF - Folded(total) && Represents(0xFFFF - r, total)
  {
    var sum := total / 0x1_0000 + total % 0x1_0000;
    sum := sum + sum / 0x1_0000;
    r := 0xFFFF - sum % 0x1_0000;
    FoldedRepresents(total);
  }

  /** The result is the RFC 1071 checksum of the host-order words for every buffer that can
      not overflow the 32-bit sum. */
  method PingChecksum(buf: array<Octet>) returns (r: nat)
    ensures r < 0x1_0000
    ensures buf.Length <= LONGEST ==> r == Check(buf[..], false)
  {
    var sum := SumWords(buf);
    r := FoldAndComplement(sum);
    if buf.Length <= LONGEST {
      FoldedIsCheck(buf[..], sum);
    }
  }

  lemma FoldedIsCheck(b: seq<Octet>, sum: nat)
    requires |b| <= LONGEST && sum == Total(b, false) % UINT32
    ensures 0xFFFF - Folded(sum) == Check(b, false)
  {
    SumFits(b, WordCount(b), false);
    SmallRemainder(Total(b, false), UINT32);
    FoldedIsOnesSum(b, WordCount(b), false);
  }

  lemma SumStep(b: seq<Octet>, p: nat, word: nat)
    requires 2 * p < |b| && word == WordAt(b, p, false)
    ensures p + 1 <= WordCount(b)
    ensures Sum(b, p + 1, false) % UINT32 == (Sum(b, p, false) % UINT32 + word) % UINT32
  {
  }

  // ---------------------------------------------------------------- bounds

  lemma {:induction false} SumBound(b: seq<Octet>, n: nat, network: bool)
    requires n <= WordCount(b)
    ensures Sum(b, n, network) <= 0xFFFF * n
  {
    if n > 0 {
      SumBound(b, n - 1, network);
    }
  }

  /** Up to 131074 octets the 32-bit sum never overflows, at no step of the loop. */
  lemma SumFits(b: seq<Octet>, n: nat, network: bool)
    requires |b| <= LONGEST && n <= WordCount(b)
    ensures Sum(b, n, network) < UINT32
  {
    SumBound(b, n, network);
  }

  lemma {:induction false} AllOnesSum(b: seq<Octet>, n: nat)
    requires 2 * n <= |b| && forall i :: 0 <= i < |b| ==> b[i] == 255
    ensures Sum(b, n, false) == 0xFFFF * n
  {
    if n > 0 {
      AllOnesSum(b, n - 1);
    }
  }

  lemma {:induction false} SumGrows(b: seq<Octet>, m: nat, n: nat, network: bool)
    requires m <= n <= WordCount(b)
    ensures Sum(b, m, network) <= Sum(b, n, network)
    decreases n - m
  {
    if m < n {
      SumGrows(b, m, n - 1, network);
    }
  }

  /** The bound is exact: every longer buffer of all ones overflows. */
  lemma LongerBuffersOverflow(b: seq<Octet>)
    requires |b| > LONGEST && forall i :: 0 <= i < |b| ==> b[i] == 255
    ensures Total(b, false) >= UINT32
  {
    var n := LONGEST / 2;
    AllOnesSum(b, n);
    assert WordAt(b, n, false) >= 255;
    SumGrows(b, n + 1, WordCount(b), false);
  }

  // ---------------------------------------------------------------- two folds suffice

  /** z is the 16-bit one's complement representative of x: zero only for zero itself. */
  predicate Represents(z: nat, x: nat) {
    z <= 0xFFFF && z % 0xFFFF == x % 0xFFFF && (z == 0 <==> x == 0)
  }

  lemma RepresentativeIsUnique(z: nat, z': nat, x: nat)
    requires Represents(z, x) && Represents(z', x)
    ensures z == z'
  {
  }

  lemma AddCongruent(a: nat, s: nat, w: nat)
    requires a % 0xFFFF == s % 0xFFFF
    ensures (a + w) % 0xFFFF == (s + w) % 0xFFFF
  {
  }

  lemma ModShift(x: nat, q: nat)
    ensures (x + q * 0xFFFF) % 0xFFFF == x % 0xFFFF
  {
  }

  lemma OnesAddRepresents(z: nat, x: nat, w: nat)
    requires Represents(z, x) && w < 0x1_0000
    ensures Represents(OnesAdd(z, w), x + w)
  {
  }

  lemma {:induction false} OnesSumRepresents(b: seq<Octet>, n: nat, network: bool)
    requires n <= WordCount(b)
    ensures Represents(OnesSum(b, n, network), Sum(b, n, network))
  {
    if n > 0 {
      OnesSumRepresents(b, n - 1, network);
      OnesAddRepresents(OnesSum(b, n - 1, network), Sum(b, n - 1, network), WordAt(b, n - 1, network));
    }
  }

  lemma FoldedRepresents(sum: nat)
    requires sum < UINT32
    ensures Represents(Folded(sum), sum)
  {
    var hi, lo := sum / 0x1_0000, sum % 0x1_0000;
    assert sum == hi + lo + hi * 0xFFFF;
    ModShift(hi + lo, hi);
    if hi + lo >= 0x1_0000 {
      ModShift(hi + lo - 0xFFFF, 1);
    }
  }

  /** Folding the 32-bit sum twice gives the word-by-word one's complement sum. */
  lemma FoldedIsOnesSum(b: seq<Octet>, n: nat, network: bool)
    requires n <= WordCount(b) && Sum(b, n, network) < UINT32
    ensures Folded(Sum(b, n, network)) == OnesSum(b, n, network)
  {
    FoldedRepresents(Sum(b, n, network));
    OnesSumRepresents(b, n, network);
    RepresentativeIsUnique(Folded(Sum(b, n, network)), OnesSum(b, n, network), Sum(b, n, network));
  }

  // ---------------------------------------------------------------- the standard's words

  /** The example of section 3 of RFC 1071: its octets sum to ddf2 in network order, and to the
      same octets swapped in the order of the host. */
  lemma RfcExample()
    ensures
      var b := [0x00, 0x01, 0xF2, 0x03, 0xF4, 0xF5, 0xF6, 0xF7];
      Check(b, true) == 0xFFFF - 0xDDF2 && Check(b, false) == 0xFFFF - 0xF2DD
  {
    var b: seq<Octet> := [0x00, 0x01, 0xF2, 0x03, 0xF4, 0xF5, 0xF6, 0xF7];
    assert OnesSum(b, 2, true) == 0xF204 && OnesSum(b, 2, false) == 0x04F2;
    assert OnesSum(b, 3, true) == 0xE6FA && OnesSum(b, 3, false) == 0xFAE6;
  }

  lemma {:induction false} PaddedSum(b: seq<Octet>, n: nat, network: bool)
    requires |b| % 2 == 1 && n <= WordCount(b)
    ensures OnesSum(b + [0], n, network) == OnesSum(b, n, network)
  {
    if n > 0 {
      PaddedSum(b, n - 1, network);
    }
  }

  /** A last single octet counts as if a zero stood behind it. */
  lemma OddIsPadded(b: seq<Octet>, network: bool)
    requires |b| % 2 == 1
    ensures Check(b + [0], network) == Check(b, network)
  {
    PaddedSum(b, WordCount(b), network);
  }

  // ---------------------------------------------------------------- byte order

  function Swap(w: nat): (r: nat)
    requires w < 0x1_0000
    ensures r < 0x1_0000
  {
    w % 256 * 256 + w / 256
  }

  lemma SwapRepresents(w: nat)
    requires w < 0x1_0000
    ensures Represents(Swap(w), 256 * w)
  {
    var hi, lo := w / 256, w % 256;
    assert 256 * w == Swap(w) + hi * 0xFFFF;
    ModShift(Swap(w), hi);
  }

  lemma ScaleCongruent(a: nat, s: nat)
    requires a % 0xFFFF == s % 0xFFFF
    ensures (256 * a) % 0xFFFF == (256 * s) % 0xFFFF
  {
    var m := a % 0xFFFF;
    assert a == a / 0xFFFF * 0xFFFF + m && s == s / 0xFFFF * 0xFFFF + m;
    ModShift(256 * m, 256 * (a / 0xFFFF));
    ModShift(256 * m, 256 * (s / 0xFFFF));
  }

  /** Swapping the octets commutes with one's complement addition. */
  lemma SwapAdds(x: nat, y: nat)
    requires x < 0x1_0000 && y < 0x1_0000
    ensures Swap(OnesAdd(x, y)) == OnesAdd(Swap(x), Swap(y))
  {
    var z := OnesAdd(x, y);
    OnesAddRepresents(x, x, y);
    ScaleCongruent(z, x + y);
    SwapRepresents(z);
    SwapRepresents(x);
    SwapRepresents(y);
    OnesAddRepresents(Swap(x), 256 * x, Swap(y));
    AddCongruent(Swap(y), 256 * y, 256 * x);
    RepresentativeIsUnique(Swap(z), OnesAdd(Swap(x), Swap(y)), 256 * (x + y));
  }

  lemma SwapOctets(hi: nat, lo: nat)
    requires hi < 256 && lo < 256
    ensures (256 * hi + lo) / 256 == hi && (256 * hi + lo) % 256 == lo
    ensures Swap(256 * hi + lo) == 256 * lo + hi
  {
  }

  lemma SwapComplement(z: nat)
    requires z < 0x1_0000
    ensures Swap(0xFFFF - z) == 0xFFFF - Swap(z)
  {
    var hi, lo := z / 256, z % 256;
    SwapOctets(hi, lo);
    SwapOctets(255 - hi, 255 - lo);
    assert 0xFFFF - z == 256 * (255 - hi) + (255 - lo);
  }

  lemma SwapWord(b: seq<Octet>, k: nat)
    requires 2 * k < |b|
    ensures WordAt(b, k, true) == Swap(WordAt(b, k, false))
  {
  }

  lemma {:induction false} SwappedSum(b: seq<Octet>, n: nat)
    requires n <= WordCount(b)
    ensures OnesSum(b, n, true) == Swap(OnesSum(b, n, false))
  {
    if n > 0 {
      SwappedSum(b, n - 1);
      SwapAdds(OnesSum(b, n - 1, false), WordAt(b, n - 1, false));
      SwapWord(b, n - 1);
    }
  }

  /** Byte-order independence, section 2(B) of RFC 1071: the checksum of the network-order
      words is the swapped checksum of the host-order words, so storing each in its own order
      puts the same two octets on the wire. */
  lemma SameOctetsOnTheWire(b: seq<Octet>)
    ensures Check(b, true) == Swap(Check(b, false))
    ensures Check(b, true) / 256 == Check(b, false) % 256 && Check(b, true) % 256 == Check(b, false) / 256
  {
    SwappedSum(b, WordCount(b));
    SwapComplement(OnesSum(b, WordCount(b), false));
    var r := Check(b, false);
    SwapOctets(r % 256, r / 256);
  }

  // ---------------------------------------------------------------- verification

  /** The buffer with r stored in host order at octet k. */
  function Stamp(b: seq<Octet>, k: nat, r: nat): (b': seq<Octet>)
    requires k + 1 < |b| && r < 0x1_0000
    ensures |b'| == |b|
  {
    b[k := r % 256][k + 1 := r / 256]
  }

  lemma {:induction false} StampedSum(b: seq<Octet>, k: nat, r: nat, n: nat)
    requires k + 1 < |b| && k % 2 == 0 && r < 0x1_0000 && b[k] == b[k + 1] == 0 && n <= WordCount(b)
    ensures Sum(Stamp(b, k, r), n, false) == Sum(b, n, false) + if k / 2 < n then r else 0
  {
    if n > 0 {
      StampedSum(b, k, r, n - 1);
      var b', w := Stamp(b, k, r), n - 1;
      assert 2 * w != k ==> 2 * w + 1 != k && 2 * w != k + 1;
      assert WordAt(b', w, false) == if 2 * w == k then r else WordAt(b, w, false);
    }
  }

  /** Stored in its zeroed, even-aligned field, the checksum makes the whole buffer check to
      zero, section 1 of RFC 1071. */
  lemma StampedChecksZero(b: seq<Octet>, k: nat)
    requires k + 1 < |b| && k % 2 == 0 && b[k] == b[k + 1] == 0
    ensures Check(Stamp(b, k, Check(b, false)), false) == 0
  {
    var n, r := WordCount(b), Check(b, false);
    var b', z := Stamp(b, k, r), OnesSum(b, n, false);
    OnesSumRepresents(b, n, false);
    OnesSumRepresents(b', n, false);
    StampedSum(b, k, r, n);
    AddCongruent(z, Sum(b, n, false), r);
    assert z + r == 0xFFFF;
  }

  /** The checksum step of os_ping: the field at octets 2 and 3 is zeroed, the checksum of the
      packet is stored there, and the packet then checks to zero. */
  method StampPacket(packet: array<Octet>)
    requires 4 <= packet.Length <= LONGEST
    modifies packet
    ensures packet[..] == Stamp(old(packet[..])[2 := 0][3 := 0], 2, Check(old(packet[..])[2 := 0][3 := 0], false))
    ensures Check(packet[..], false) == 0
  {
    ghost var zeroed := packet[..][2 := 0][3 := 0];
    packet[2] := 0;
    packet[3] := 0;
    assert packet[..] == zeroed;
    var r := PingChecksum(packet);
    packet[2] := r % 256;
    packet[3] := r / 256;
    assert packet[..] == Stamp(zeroed, 2, r);
    StampedChecksZero(zeroed, 2);
  }
}
