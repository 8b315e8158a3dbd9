/** The argc/argv parser of the shell: it splits a line in place by overwriting the
    character after each token with a NUL. */
module Tokenizer {
  import opened CStrings

  const NULL: int := -1  // an absent argv entry

  // ---------------------------------------------------------------- the pure model

  /** isspace in the C locale. */
  predicate IsSpace(c: char) {
    c == ' ' || '\t' <= c <= '\r'
  }

  /** White space is the space and the codes 9 to 13, and no other character. */
  lemma IsSpaceIs(c: char)
    ensures IsSpace(c) <==> c as int in {32, 9, 10, 11, 12, 13}
  {
  }

  /** Does c end a word? A quoted word ends only at the closing quote. */
  predicate Stops(c: char, quoted: bool) {
    if quoted then c == '"' else IsSpace(c)
  }

  /** The first index from i on that holds no white space. */
  function SkipSpace(s: string, i: nat): (r: nat)
    requires i <= |s|
    ensures i <= r <= |s| && (r < |s| ==> !IsSpace(s[r]))
    decreases |s| - i
  {
    if i == |s| || !IsSpace(s[i]) then i else SkipSpace(s, i + 1)
  }

  /** Where the word at index i ends. */
  function WordEnd(s: string, i: nat, quoted: bool): (r: nat)
    requires i <= |s|
    ensures i <= r <= |s| && (r < |s| ==> Stops(s[r], quoted))
    decreases |s| - i
  {
    if i == |s| || Stops(s[i], quoted) then i else WordEnd(s, i + 1, quoted)
  }

  /** The token whose first character stands at index at: its text is s[start..end] and
      parsing goes on at next. A quote opens a token that runs to the next quote, or to the
      end of the line when there is none. */
  datatype Span = Span(start: nat, end: nat, next: nat)

  function SpanAt(s: string, at: nat): (r: Span)
    requires at < |s| && !IsSpace(s[at])
    ensures at <= r.start <= r.end <= |s| && at < r.next <= |s|
  {
    var quoted := s[at] == '"';
    var start := if quoted then at + 1 else at;
    var end := WordEnd(s, start, quoted);
    Span(start, end, if end < |s| then end + 1 else end)
  }

  /** The first limit tokens of the part of s that starts at index i. */
  function TokensFrom(s: string, i: nat, limit: nat): (r: seq<string>)
    requires i <= |s|
    ensures |r| <= limit
    decreases |s| - i
  {
    var at := SkipSpace(s, i);
    if limit == 0 || at == |s| then []
    else
      var t := SpanAt(s, at);
      [s[t.start..t.end]] + TokensFrom(s, t.next, limit - 1)
  }

  function Tokens(s: string, limit: nat): seq<string> {
    TokensFrom(s, 0, limit)
  }

  // ---------------------------------------------------------------- parse_args

  method SkipSpaces(line: array<char>, start: nat, ghost s: string) returns (p: nat)
    requires Intact(line[..], s, start)
    ensures p == SkipSpace(s, start)
  {
    p := start;
    while line[p] != NUL && IsSpace(line[p])
      invariant start <= p <= |s| && SkipSpace(s, p) == SkipSpace(s, start)
      decreases |s| - p
    {
      p := p + 1;
    }
  }

  method ScanWord(line: array<char>, start: nat, quoted: bool, ghost s: string) returns (p: nat)
    requires Intact(line[..], s, start)
    ensures p == WordEnd(s, start, quoted)
  {
    p := start;
    while line[p] != NUL && !Stops(line[p], quoted)
      invariant start <= p <= |s| && WordEnd(s, p, quoted) == WordEnd(s, start, quoted)
      decreases |s| - p
    {
      p := p + 1;
    }
  }

  /** Cuts off the token at index at: start is where its text begins, p where parsing goes on. */
  method CutWord(line: array<char>, at: nat, ghost s: string) returns (start: nat, p: nat)
    requires Intact(line[..], s, at) && at < |s| && !IsSpace(s[at])
    modifies line
    ensures
      var t := SpanAt(s, at);
      && start == t.start && p == t.next
      && line[t.end] == NUL && Intact(line[..], s, p)
      && forall i :: 0 <= i < line.Length && i != t.end ==> line[i] == old(line[i])
  {
    var quoted := line[at] == '"';
    start := if quoted then at + 1 else at;
    p := ScanWord(line, start, quoted, s);
    if line[p] != NUL {
      line[p] := NUL;
      p := p + 1;
    }
  }

  function Text(s: string, t: Span): string {
    if t.start <= t.end <= |s| then s[t.start..t.end] else ""
  }

  /** Where the search for the next token begins. */
  function Resume(spans: seq<Span>): nat {
    if spans == [] then 0 else Last(spans).next
  }

  /** spans are the first tokens of s: each one starts after the white space that follows
      the one before. */
  ghost predicate Chain(s: string, spans: seq<Span>)
    ensures Chain(s, spans) ==> Resume(spans) <= |s|
  {
    spans == [] ||
    var before := spans[..|spans| - 1];
    && Chain(s, before)
    && SkipSpace(s, Resume(before)) < |s|
    && Last(spans) == SpanAt(s, SkipSpace(s, Resume(before)))
  }

  function Words(s: string, spans: seq<Span>): (r: seq<string>)
    ensures |r| == |spans| && forall k :: 0 <= k < |r| ==> r[k] == Text(s, spans[k])
  {
    seq(|spans|, k requires 0 <= k < |spans| => Text(s, spans[k]))
  }

  /** A chain is the beginning of the token list, and the rest comes from where it stops. */
  lemma {:induction false} ChainWords(s: string, spans: seq<Span>, limit: nat)
    requires Chain(s, spans) && |spans| <= limit
    ensures Tokens(s, limit) == Words(s, spans) + TokensFrom(s, Resume(spans), limit - |spans|)
    decreases |spans|
  {
    if spans == [] {
    } else {
      var before, t := spans[..|spans| - 1], Last(spans);
      ChainWords(s, before, limit);
      assert Words(s, spans) == Words(s, before) + [Text(s, t)];
      TokensFromStep(s, Resume(before), limit - |before|);
      PushAssoc(Words(s, before), Text(s, t), TokensFrom(s, t.next, limit - |spans|));
    }
  }

  lemma TokensFromStep(s: string, i: nat, limit: nat)
    requires i <= |s| && limit > 0 && SkipSpace(s, i) < |s|
    ensures
      var t := SpanAt(s, SkipSpace(s, i));
      TokensFrom(s, i, limit) == [Text(s, t)] + TokensFrom(s, t.next, limit - 1)
  {
  }

  /** The text of token t stands in memory m, followed by a NUL. */
  ghost predicate Stands(m: seq<char>, s: string, t: Span) {
    && t.start <= t.end <= |s| < |m| && m[t.end] == NUL
    && forall i :: t.start <= i < t.end ==> m[i] == s[i]
  }

  /** The tokens cut off so far: in order and disjoint, each followed by a NUL and otherwise
      untouched, with argv pointing at it. */
  ghost predicate Cut(m: seq<char>, argv: seq<int>, s: string, spans: seq<Span>) {
    && |argv| == |spans| && |s| < |m|
    && (forall k :: 0 <= k < |spans| ==>
          argv[k] == spans[k].start && Stands(m, s, spans[k]))
    && (forall k :: 0 <= k < |spans| ==>
          spans[k].end < Resume(spans) || spans[k].end == Resume(spans) == |s|)
    && (forall j, k :: 0 <= j < k < |spans| ==> spans[j].end < spans[k].start)
  }

  /** Only white space and quotes before p have been overwritten, and by NULs. */
  ghost predicate OnlyDelimitersCut(m: seq<char>, before: seq<char>, p: nat) {
    && |m| == |before|
    && forall i :: 0 <= i < |m| && m[i] != before[i] ==>
         i < p && m[i] == NUL && (IsSpace(before[i]) || before[i] == '"')
  }

  /** Cutting one more token leaves the earlier ones in place. */
  lemma CutExtends(m: seq<char>, m': seq<char>, argv: seq<int>, s: string, spans: seq<Span>, t: Span)
    requires Cut(m, argv, s, spans) && |m'| == |m| && Intact(m, s, Resume(spans))
    requires Resume(spans) <= t.start <= t.end <= |s| && Resume(spans) < |s|
    requires t.next == if t.end < |s| then t.end + 1 else t.end
    requires m'[t.end] == NUL && forall i :: 0 <= i < |m| && i != t.end ==> m'[i] == m[i]
    ensures Cut(m', argv + [t.start], s, spans + [t])
  {
  }

  /** How far the loop has come, with spans cut off so far. */
  ghost predicate Progress(m: seq<char>, argv: seq<int>, before: seq<char>, s: string, spans: seq<Span>) {
    && Chain(s, spans) && Cut(m, argv, s, spans)
    && Intact(m, s, Resume(spans)) && OnlyDelimitersCut(m, before, Resume(spans))
  }

  lemma ProgressExtends(m: seq<char>, m': seq<char>, argv: seq<int>, before: seq<char>, s: string,
                        spans: seq<Span>, first: nat)
    requires Intact(before, s, 0) && Progress(m, argv, before, s, spans) && |m'| == |m|
    requires first == SkipSpace(s, Resume(spans)) < |s|
    requires
      var t := SpanAt(s, first);
      && m'[t.end] == NUL && Intact(m', s, t.next)
      && forall i :: 0 <= i < |m| && i != t.end ==> m'[i] == m[i]
    ensures
      var t := SpanAt(s, first);
      Progress(m', argv + [t.start], before, s, spans + [t])
  {
    var t := SpanAt(s, first);
    CutExtends(m, m', argv, s, spans, t);
    ChainExtends(s, spans, first);
    DelimiterCut(m, m', before, s, Resume(spans), t);
  }

  lemma ChainExtends(s: string, spans: seq<Span>, first: nat)
    requires Chain(s, spans) && first == SkipSpace(s, Resume(spans)) < |s|
    ensures Chain(s, spans + [SpanAt(s, first)])
  {
    assert (spans + [SpanAt(s, first)])[..|spans|] == spans;
  }

  lemma DelimiterCut(m: seq<char>, m': seq<char>, before: seq<char>, s: string, p: nat, t: Span)
    requires Intact(before, s, 0) && OnlyDelimitersCut(m, before, p) && |m'| == |m|
    requires p <= t.end <= |s| && t.next == (if t.end < |s| then t.end + 1 else t.end)
    requires t.end < |s| ==> IsSpace(s[t.end]) || s[t.end] == '"'
    requires m'[t.end] == NUL && forall i :: 0 <= i < |m| && i != t.end ==> m'[i] == m[i]
    ensures OnlyDelimitersCut(m', before, t.next)
  {
  }

  /** One round of the loop: the next token is cut off and recorded, unless only white space
      is left. */
  method TakeArg(line: array<char>, argv: array<int>, argc: nat, at: nat, ghost s: string,
                 ghost spans: seq<Span>, ghost before: seq<char>)
    returns (more: bool, p: nat, ghost spans': seq<Span>)
    requires argc == |spans| < argv.Length && at == Resume(spans)
    requires Intact(before, s, 0) && Progress(line[..], argv[..argc], before, s, spans)
    modifies line, argv
    ensures |spans'| == argc + (if more then 1 else 0) && p == Resume(spans') && (more ==> at < p)
    ensures Progress(line[..], argv[..|spans'|], before, s, spans')
    ensures more || SkipSpace(s, p) == |s|
  {
    var first := SkipSpaces(line, at, s);
    if line[first] == NUL {
      more, p, spans' := false, at, spans;
      return;
    }
    ghost var m, args, t := line[..], argv[..argc], SpanAt(s, first);
    var start;
    start, p := CutWord(line, first, s);
    ghost var m' := line[..];
    ProgressExtends(m, m', args, before, s, spans, first);
    argv[argc] := start;
    assert line[..] == m' && argv[..argc + 1] == args + [start];
    more, spans' := true, spans + [t];
  }

  /** What argv points at, read as C strings. */
  function CStringsAt(m: seq<char>, argv: seq<int>): (r: seq<string>)
    ensures |r| == |argv|
  {
    seq(|argv|, k requires 0 <= k < |argv| => if 0 <= argv[k] <= |m| then StrAt(m, argv[k]) else "")
  }

  /** The tokens lie in order and disjoint in the line, each with room for its NUL. */
  ghost predicate Disjoint(argv: seq<int>, ts: seq<string>) {
    |argv| == |ts| && forall j, k :: 0 <= j < k < |ts| ==> argv[j] + |ts[j]| < argv[k]
  }

  lemma Finished(m: seq<char>, argv: seq<int>, before: seq<char>, s: string, spans: seq<Span>, limit: nat)
    requires Progress(m, argv, before, s, spans) && |spans| <= limit
    requires |spans| == limit || SkipSpace(s, Resume(spans)) == |s|
    ensures CStringsAt(m, argv) == Tokens(s, limit) && Disjoint(argv, Tokens(s, limit))
    ensures OnlyDelimitersCut(m, before, |s|)
  {
    ChainWords(s, spans, limit);
    assert TokensFrom(s, Resume(spans), limit - |spans|) == [];
    CutReadsBack(m, argv, s, spans);
  }

  lemma StandsReadsBack(m: seq<char>, s: string, t: Span)
    requires Stands(m, s, t) && NulFree(s)
    ensures StrAt(m, t.start) == Text(s, t)
  {
  }

  lemma CutReadsBack(m: seq<char>, argv: seq<int>, s: string, spans: seq<Span>)
    requires Cut(m, argv, s, spans) && NulFree(s)
    ensures CStringsAt(m, argv) == Words(s, spans) && Disjoint(argv, Words(s, spans))
  {
    forall k | 0 <= k < |spans|
      ensures CStringsAt(m, argv)[k] == Words(s, spans)[k]
    {
      StandsReadsBack(m, s, spans[k]);
    }
    forall j, k | 0 <= j < k < |spans| ensures argv[j] + |Words(s, spans)[j]| < argv[k] {
      assert Stands(m, s, spans[j]);
    }
  }

  /** The loop of parse_args. */
  method CutArgs(line: array<char>, argv: array<int>, limit: nat, ghost s: string) returns (argc: nat)
    requires Intact(line[..], s, 0) && limit < argv.Length
    modifies line, argv
    ensures argc <= limit
    ensures CStringsAt(line[..], argv[..argc]) == Tokens(s, limit)
    ensures Disjoint(argv[..argc], Tokens(s, limit))
    ensures OnlyDelimitersCut(line[..], old(line[..]), |s|)
  {
    argc := 0;
    var p := 0;
    ghost var spans, before := [], line[..];
    while line[p] != NUL && argc < limit
      invariant argc == |spans| <= limit && p == Resume(spans) <= |s| < line.Length
      invariant Progress(line[..], argv[..argc], before, s, spans)
      decreases |s| - p
    {
      var more;
      more, p, spans := TakeArg(line, argv, argc, p, s, spans, before);
      if !more {
        break;
      }
      argc := argc + 1;
    }
    Finished(line[..], argv[..argc], before, s, spans, limit);
  }

  /** parse_args refines the tokenizer, for every line s in the buffer: after all the NULs are
      written argv, read as C strings, is the list of the tokens; it ends with NULL; and only
      delimiters are overwritten. */
  method ParseArgs(line: array<char>, argv: array<int>, maxArgc: nat, ghost s: string) returns (argc: nat)
    requires Intact(line[..], s, 0) && 0 < maxArgc <= argv.Length
    modifies line, argv
    ensures argc <= maxArgc - 1 && argv[argc] == NULL
    ensures CStringsAt(line[..], argv[..argc]) == Tokens(s, maxArgc - 1)
    ensures Disjoint(argv[..argc], Tokens(s, maxArgc - 1))
    ensures OnlyDelimitersCut(line[..], old(line[..]), |s|)
  {
    argc := CutArgs(line, argv, maxArgc - 1, s);
    ghost var m, args := line[..], argv[..argc];
    argv[argc] := NULL;
    assert line[..] == m && argv[..argc] == args;
  }
}
