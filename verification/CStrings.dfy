/** The C string and memory primitives the firmware is written with: NUL-terminated
    text inside a character buffer, and the library calls that move such text around. */
module CStrings {

  const NUL: char := '\0'

  datatype Option<+T> = None | Some(value: T)

  predicate NulFree(s: string) {
    Without(s, NUL)
  }

  /** The first n elements of s: of a string, what a bounded copy keeps. */
  function Prefix<T>(s: seq<T>, n: nat): (r: seq<T>)
    ensures r <= s && |r| == if |s| <= n then |s| else n
  {
    if |s| <= n then s else s[..n]
  }

  predicate Without(s: string, c: char) {
    forall k :: 0 <= k < |s| ==> s[k] != c
  }

  function Last<T>(s: seq<T>): T
    requires s != []
  {
    s[|s| - 1]
  }

  /** The last n elements of s. */
  function LastN<T>(s: seq<T>, n: nat): seq<T> {
    if |s| <= n then s else s[|s| - n..]
  }

  lemma Assoc<T>(a: seq<T>, b: seq<T>, c: seq<T>)
    ensures a + (b + c) == a + b + c
  {
  }

  lemma PushAssoc<T>(a: seq<T>, x: T, b: seq<T>)
    ensures a + ([x] + b) == a + [x] + b
  {
  }

  /** The C string starting at index p of memory m: everything up to the next NUL. */
  function StrAt(m: seq<char>, p: nat): (r: string)
    requires p <= |m|
    ensures NulFree(r) && p + |r| <= |m| && m[p..p + |r|] == r
    ensures p + |r| < |m| ==> m[p + |r|] == NUL
    decreases |m| - p
  {
    if p == |m| || m[p] == NUL then "" else [m[p]] + StrAt(m, p + 1)
  }

  /** Memory m holds the text t at index p, followed by a NUL. */
  predicate HoldsAt(m: seq<char>, p: nat, t: string) {
    p + |t| < |m| && m[p..p + |t|] == t && m[p + |t|] == NUL
  }

  /** From index p on, the buffer m holds the original text s and its NUL. */
  ghost predicate Intact(m: seq<char>, s: string, p: nat) {
    p <= |s| < |m| && m[|s|] == NUL && NulFree(s) && forall i :: p <= i < |s| ==> m[i] == s[i]
  }

  /** Reading a C string back finds exactly the NUL-free text stored there. */
  lemma ReadBack(m: seq<char>, p: nat, t: string)
    requires NulFree(t) && HoldsAt(m, p, t)
    ensures StrAt(m, p) == t
  {
  }

  /** memmove inside one buffer. */
  method MemMove(a: array<char>, dst: nat, src: nat, n: nat)
    requires dst + n <= a.Length && src + n <= a.Length
    modifies a
    ensures forall i :: 0 <= i < a.Length ==>
              a[i] == if dst <= i < dst + n then old(a[i - dst + src]) else old(a[i])
  {
    forall i | dst <= i < dst + n {
      a[i] := a[i - dst + src];
    }
  }

  /** strncpy of the C string s: copies at most n characters and fills up to n with NULs. */
  method StrNCpy(d: array<char>, s: string, n: nat)
    requires NulFree(s) && n <= d.Length
    modifies d
    ensures forall i :: 0 <= i < d.Length ==>
              d[i] == if i < |s| && i < n then s[i] else if i < n then NUL else old(d[i])
  {
    forall i | 0 <= i < n {
      d[i] := if i < |s| then s[i] else NUL;
    }
  }
}
