/** Printing an argument list back into a line, and what parsing that line yields. */
module CommandLines {
  import opened CStrings
  import opened Tokenizer

  /** Words joined by single spaces. */
  function Join(ts: seq<string>): string {
    if ts == [] then "" else if |ts| == 1 then ts[0] else ts[0] + " " + Join(ts[1..])
  }

  /** A word the parser reads back as itself when it is written without quotes. */
  predicate PlainWord(t: string) {
    t != "" && t[0] != '"' && forall k :: 0 <= k < |t| ==> !IsSpace(t[k])
  }

  predicate AllPlain(ts: seq<string>) {
    forall k :: 0 <= k < |ts| ==> PlainWord(ts[k])
  }

  /** What a token of any line looks like: unquoted, or without quotes inside. */
  predicate ParserWord(t: string) {
    Without(t, '"') || PlainWord(t)
  }

  // ---------------------------------------------------------------- tokens in context

  /** From index d on, s is the line b. */
  ghost predicate EndsIn(s: string, d: nat, b: string) {
    d + |b| == |s| && forall k :: 0 <= k < |b| ==> s[d + k] == b[k]
  }

  lemma Concatenated(a: string, b: string)
    ensures EndsIn(a + b, |a|, b)
  {
  }

  lemma {:induction false} SkipShift(s: string, d: nat, b: string, i: nat)
    requires EndsIn(s, d, b) && i <= |b|
    ensures SkipSpace(s, d + i) == d + SkipSpace(b, i)
    decreases |b| - i
  {
    if i < |b| && IsSpace(b[i]) {
      SkipShift(s, d, b, i + 1);
    }
  }

  lemma {:induction false} WordShift(s: string, d: nat, b: string, i: nat, quoted: bool)
    requires EndsIn(s, d, b) && i <= |b|
    ensures WordEnd(s, d + i, quoted) == d + WordEnd(b, i, quoted)
    decreases |b| - i
  {
    if i < |b| && !Stops(b[i], quoted) {
      WordShift(s, d, b, i + 1, quoted);
    }
  }

  lemma SameText(s: string, d: nat, b: string, i: nat, j: nat)
    requires EndsIn(s, d, b) && i <= j <= |b|
    ensures s[d + i..d + j] == b[i..j]
  {
  }

  lemma SpanShift(s: string, d: nat, b: string, at: nat)
    requires EndsIn(s, d, b) && at < |b| && !IsSpace(b[at])
    ensures
      var t, u := SpanAt(b, at), SpanAt(s, d + at);
      u == Span(d + t.start, d + t.end, d + t.next) && Text(s, u) == Text(b, t)
  {
    WordShift(s, d, b, if b[at] == '"' then at + 1 else at, b[at] == '"');
    var t := SpanAt(b, at);
    SameText(s, d, b, t.start, t.end);
  }

  lemma NoTokens(s: string, i: nat, limit: nat)
    requires i <= |s| && (limit == 0 || SkipSpace(s, i) == |s|)
    ensures TokensFrom(s, i, limit) == []
  {
  }

  /** The search from i in s and the one from j in b find the same word, as spans u and t. */
  predicate SameStart(s: string, i: nat, b: string, j: nat, u: Span, t: Span) {
    && i <= |s| && j <= |b| && SkipSpace(s, i) < |s| && SkipSpace(b, j) < |b|
    && u == SpanAt(s, SkipSpace(s, i)) && t == SpanAt(b, SkipSpace(b, j)) && Text(s, u) == Text(b, t)
  }

  lemma ShiftedStart(s: string, d: nat, b: string, i: nat, u: Span, t: Span)
    requires EndsIn(s, d, b) && i <= |b| && SkipSpace(b, i) < |b|
    requires t == SpanAt(b, SkipSpace(b, i)) && u == Span(d + t.start, d + t.end, d + t.next)
    ensures SameStart(s, d + i, b, i, u, t)
  {
    SkipShift(s, d, b, i);
    SpanShift(s, d, b, SkipSpace(b, i));
  }

  lemma ShiftedEnd(s: string, d: nat, b: string, i: nat, limit: nat)
    requires EndsIn(s, d, b) && i <= |b| && (limit == 0 || SkipSpace(b, i) == |b|)
    ensures TokensFrom(s, d + i, limit) == TokensFrom(b, i, limit) == []
  {
    SkipShift(s, d, b, i);
    NoTokens(b, i, limit);
    NoTokens(s, d + i, limit);
  }

  /** If both searches go on alike as well, they find the same tokens. */
  lemma SameStep(s: string, i: nat, b: string, j: nat, limit: nat, u: Span, t: Span)
    requires SameStart(s, i, b, j, u, t) && limit > 0
    requires TokensFrom(s, u.next, limit - 1) == TokensFrom(b, t.next, limit - 1)
    ensures TokensFrom(s, i, limit) == TokensFrom(b, j, limit)
  {
    TokensFromStep(s, i, limit);
    TokensFromStep(b, j, limit);
  }

  lemma ShiftStep(s: string, d: nat, b: string, i: nat, limit: nat, t: Span)
    requires EndsIn(s, d, b) && i <= |b| && limit > 0 && SkipSpace(b, i) < |b| && t == SpanAt(b, SkipSpace(b, i))
    requires TokensFrom(s, d + t.next, limit - 1) == TokensFrom(b, t.next, limit - 1)
    ensures TokensFrom(s, d + i, limit) == TokensFrom(b, i, limit)
  {
    var u := Span(d + t.start, d + t.end, d + t.next);
    ShiftedStart(s, d, b, i, u, t);
    SameStep(s, d + i, b, i, limit, u, t);
  }

  /** Tokens depend only on the text from where the search starts. */
  lemma {:induction false} TokensShift(s: string, d: nat, b: string, i: nat, limit: nat)
    requires EndsIn(s, d, b) && i <= |b|
    ensures TokensFrom(s, d + i, limit) == TokensFrom(b, i, limit)
    decreases |b| - i
  {
    if limit == 0 || SkipSpace(b, i) == |b| {
      ShiftedEnd(s, d, b, i, limit);
    } else {
      var t := SpanAt(b, SkipSpace(b, i));
      TokensShift(s, d, b, t.next, limit - 1);
      ShiftStep(s, d, b, i, limit, t);
    }
  }

  lemma {:induction false} WordEndIs(s: string, i: nat, n: nat, quoted: bool)
    requires i + n <= |s| && forall k :: i <= k < i + n ==> !Stops(s[k], quoted)
    requires i + n < |s| ==> Stops(s[i + n], quoted)
    ensures WordEnd(s, i, quoted) == i + n
    decreases n
  {
    if n > 0 {
      WordEndIs(s, i + 1, n - 1, quoted);
    }
  }

  lemma SkipOneSpace(s: string, i: nat, limit: nat)
    requires i < |s| && IsSpace(s[i])
    ensures TokensFrom(s, i, limit) == TokensFrom(s, i + 1, limit)
  {
  }

  /** A plain word at the start of a line is its first token, and the one character of white
      space behind it is used up. */
  lemma FirstToken(s: string, w: string, next: nat, limit: nat)
    requires PlainWord(w) && |w| <= |s| && s[..|w|] == w && (|w| < |s| ==> IsSpace(s[|w|])) && limit > 0
    requires next == if |w| < |s| then |w| + 1 else |w|
    ensures Tokens(s, limit) == [w] + TokensFrom(s, next, limit - 1)
  {
    assert s[0] == s[..|w|][0];
    forall k | 0 <= k < |w|
      ensures !Stops(s[k], false)
    {
      assert s[k] == s[..|w|][k];
    }
    WordEndIs(s, 0, |w|, false);
    assert SpanAt(s, 0) == Span(0, |w|, next) && s[0..|w|] == w;
    TokensFromStep(s, 0, limit);
  }

  /** What follows it: the white space that ended the word is skipped either way. */
  lemma RestOfLine(s: string, d: nat, rest: string, next: nat, limit: nat)
    requires EndsIn(s, d, rest) && (rest != "" ==> IsSpace(rest[0]))
    requires next == if rest != "" then d + 1 else d
    ensures TokensFrom(s, next, limit) == Tokens(rest, limit)
  {
    if rest != "" {
      TokensShift(s, d, rest, 1, limit);
      SkipOneSpace(rest, 0, limit);
    } else {
      TokensShift(s, d, rest, 0, limit);
    }
  }

  /** A plain word at the start of a line, followed by white space or nothing. */
  lemma FirstWord(w: string, rest: string, limit: nat)
    requires PlainWord(w) && (rest != "" ==> IsSpace(rest[0])) && limit > 0
    ensures Tokens(w + rest, limit) == [w] + Tokens(rest, limit - 1)
  {
    var s, next := w + rest, if rest != "" then |w| + 1 else |w|;
    Concatenated(w, rest);
    FirstToken(s, w, next, limit);
    RestOfLine(s, |w|, rest, next, limit - 1);
  }

  lemma SpaceSkipped(s: string, rest: string, limit: nat)
    requires EndsIn(s, 1, rest) && IsSpace(s[0])
    ensures Tokens(s, limit) == Tokens(rest, limit)
  {
    TokensShift(s, 1, rest, 0, limit);
    SkipOneSpace(s, 0, limit);
  }

  /** White space in front changes nothing. */
  lemma LeadingSpace(c: char, s: string, limit: nat)
    requires IsSpace(c)
    ensures Tokens([c] + s, limit) == Tokens(s, limit)
  {
    Concatenated([c], s);
    SpaceSkipped([c] + s, s, limit);
  }

  lemma WordThenRest(w: string, rest: string, limit: nat)
    requires PlainWord(w) && limit > 0
    ensures Tokens(w + " " + rest, limit) == [w] + Tokens(rest, limit - 1)
  {
    Assoc(w, " ", rest);
    FirstWord(w, " " + rest, limit);
    LeadingSpace(' ', rest, limit - 1);
  }

  lemma PrefixStep<T>(ts: seq<T>, n: nat)
    requires ts != [] && n > 0
    ensures Prefix(ts, n) == [ts[0]] + Prefix(ts[1..], n - 1)
  {
  }

  lemma SameLimit(s: string, m: nat, n: nat)
    requires m == n
    ensures Tokens(s, m) == Tokens(s, n)
  {
  }

  /** A list of plain words survives printing and parsing. */
  lemma {:induction false} JoinedWordsParse(ts: seq<string>, limit: nat)
    requires AllPlain(ts)
    ensures Tokens(Join(ts), limit) == Prefix(ts, limit)
  {
    if ts == [] || limit == 0 {
      NoTokens(Join(ts), 0, limit);
    } else if |ts| == 1 {
      OneWordParses(ts[0], limit);
      assert ts == [ts[0]];
    } else {
      JoinedWordsParse(ts[1..], limit - 1);
      WordThenRest(ts[0], Join(ts[1..]), limit);
      PrefixStep(ts, limit);
    }
  }

  lemma OneWordParses(w: string, limit: nat)
    requires PlainWord(w) && limit > 0
    ensures Tokens(w, limit) == [w]
  {
    FirstWord(w, "", limit);
    NoTokens("", 0, limit - 1);
    assert w + "" == w;
  }

  /** Words in front of a line become its first tokens. */
  lemma {:induction false} WordsInFront(ws: seq<string>, s: string, limit: nat)
    requires AllPlain(ws) && ws != [] && |ws| <= limit
    ensures Tokens(Join(ws) + " " + s, limit) == ws + Tokens(s, limit - |ws|)
    decreases |ws|
  {
    var w, left := ws[0], limit - |ws|;
    if |ws| == 1 {
      WordThenRest(w, s, limit);
      SameLimit(s, limit - 1, left);
      assert ws == [w];
    } else {
      var more := ws[1..];
      var rest := Join(more) + " " + s;
      WordsInFront(more, s, limit - 1);
      SameLimit(s, limit - 1 - |more|, left);
      assert Join(ws) + " " + s == w + " " + rest;
      WordThenRest(w, rest, limit);
      Assoc([w], more, Tokens(s, left));
      assert ws == [w] + more;
    }
  }

  lemma ConsPrefix<T>(t: T, ts: seq<T>, n: nat)
    requires n > 0
    ensures Prefix([t] + ts, n) == [t] + Prefix(ts, n - 1)
  {
  }

  /** A larger limit only adds tokens at the end. */
  lemma {:induction false} LimitCuts(s: string, i: nat, m: nat, n: nat)
    requires i <= |s| && m <= n
    ensures TokensFrom(s, i, m) == Prefix(TokensFrom(s, i, n), m)
    decreases |s| - i
  {
    var at := SkipSpace(s, i);
    if m == 0 || at == |s| {
      NoTokens(s, i, m);
      if n == 0 || at == |s| {
        NoTokens(s, i, n);
      }
    } else {
      var t := SpanAt(s, at);
      LimitCuts(s, t.next, m - 1, n - 1);
      TokensFromStep(s, i, m);
      TokensFromStep(s, i, n);
      ConsPrefix(Text(s, t), TokensFrom(s, t.next, n - 1), m);
    }
  }

  // ---------------------------------------------------------------- the shape of tokens

  lemma {:induction false} WordClear(s: string, i: nat, quoted: bool)
    requires i <= |s|
    ensures forall k :: i <= k < WordEnd(s, i, quoted) ==> !Stops(s[k], quoted)
    decreases |s| - i
  {
    if i < |s| && !Stops(s[i], quoted) {
      WordClear(s, i + 1, quoted);
    }
  }

  /** The shape of one token, and that its characters come from the line. */
  lemma SpanWord(s: string, at: nat)
    requires at < |s| && !IsSpace(s[at])
    ensures ParserWord(Text(s, SpanAt(s, at)))
    ensures s[at] != '"' ==> PlainWord(Text(s, SpanAt(s, at)))
    ensures forall c :: Without(s, c) ==> Without(Text(s, SpanAt(s, at)), c)
  {
    var t := SpanAt(s, at);
    WordClear(s, t.start, s[at] == '"');
    var w := Text(s, t);
    assert forall k :: 0 <= k < |w| ==> w[k] == s[t.start + k];
  }

  lemma {:induction false} TokensAreParserWords(s: string, i: nat, limit: nat)
    requires i <= |s|
    ensures forall k :: 0 <= k < |TokensFrom(s, i, limit)| ==> ParserWord(TokensFrom(s, i, limit)[k])
    decreases |s| - i
  {
    var at := SkipSpace(s, i);
    if limit > 0 && at < |s| {
      SpanWord(s, at);
      TokensFromStep(s, i, limit);
      TokensAreParserWords(s, SpanAt(s, at).next, limit - 1);
    }
  }

  /** A character that is not in the line is in none of its tokens. */
  lemma {:induction false} TokensWithout(s: string, i: nat, limit: nat, c: char)
    requires i <= |s| && Without(s, c)
    ensures forall k :: 0 <= k < |TokensFrom(s, i, limit)| ==> Without(TokensFrom(s, i, limit)[k], c)
    decreases |s| - i
  {
    var at := SkipSpace(s, i);
    if limit > 0 && at < |s| {
      SpanWord(s, at);
      TokensFromStep(s, i, limit);
      TokensWithout(s, SpanAt(s, at).next, limit - 1, c);
    }
  }

  lemma {:induction false} JoinWithout(ts: seq<string>, c: char)
    requires c != ' ' && forall k :: 0 <= k < |ts| ==> Without(ts[k], c)
    ensures Without(Join(ts), c)
  {
    if |ts| > 1 {
      JoinWithout(ts[1..], c);
    }
  }

  /** No quote stands where a token could begin. */
  predicate NoQuoteOpens(s: string) {
    forall k :: 0 <= k < |s| && s[k] == '"' ==> k > 0 && !IsSpace(s[k - 1])
  }

  lemma {:induction false} SkippedSpace(s: string, i: nat)
    requires i <= |s|
    ensures SkipSpace(s, i) > i ==> IsSpace(s[SkipSpace(s, i) - 1])
    decreases |s| - i
  {
    if i < |s| && IsSpace(s[i]) {
      SkippedSpace(s, i + 1);
    }
  }

  /** In such a line every token is a plain word. */
  lemma {:induction false} TokensArePlain(s: string, i: nat, limit: nat)
    requires i <= |s| && NoQuoteOpens(s) && (i == 0 || i == |s| || IsSpace(s[i - 1]))
    ensures AllPlain(TokensFrom(s, i, limit))
    decreases |s| - i
  {
    var at := SkipSpace(s, i);
    if limit > 0 && at < |s| {
      SkippedSpace(s, i);
      SpanWord(s, at);
      TokensFromStep(s, i, limit);
      TokensArePlain(s, SpanAt(s, at).next, limit - 1);
    }
  }

  lemma {:induction false} JoinOpensNoQuote(ts: seq<string>)
    requires forall k :: 0 <= k < |ts| ==> ParserWord(ts[k])
    ensures NoQuoteOpens(Join(ts))
  {
    if |ts| > 1 {
      var rest := Join(ts[1..]);
      JoinOpensNoQuote(ts[1..]);
      ConcatOpensNoQuote(ts[0], rest);
    }
  }

  lemma ConcatOpensNoQuote(w: string, rest: string)
    requires ParserWord(w) && NoQuoteOpens(rest)
    ensures NoQuoteOpens(w + " " + rest)
  {
  }

  /** Parsing the printed form gives the arguments back exactly when all of them are plain:
      quoting that protected white space or emptiness is lost. */
  lemma JoinedArgsParseIff(line: string, limit: nat, n: nat)
    requires n >= limit
    ensures Tokens(Join(Tokens(line, limit)), n) == Tokens(line, limit) <==> AllPlain(Tokens(line, limit))
  {
    var ts := Tokens(line, limit);
    TokensAreParserWords(line, 0, limit);
    JoinOpensNoQuote(ts);
    TokensArePlain(Join(ts), 0, n);
    if AllPlain(ts) {
      JoinedWordsParse(ts, n);
    }
  }

  // ---------------------------------------------------------------- lengths

  /** The printed form is never longer than the line the arguments came from. */
  lemma {:induction false} JoinFits(s: string, i: nat, limit: nat)
    requires i <= |s|
    ensures |Join(TokensFrom(s, i, limit))| <= |s| - i
    decreases |s| - i
  {
    var at := SkipSpace(s, i);
    if limit > 0 && at < |s| {
      var t := SpanAt(s, at);
      JoinFits(s, t.next, limit - 1);
      TokensFromStep(s, i, limit);
      var rest := TokensFrom(s, t.next, limit - 1);
      assert ([Text(s, t)] + rest)[1..] == rest;
      if rest == [] {
      } else {
        assert t.end < |s|;
      }
    }
  }

  lemma {:induction false} JoinTail(ts: seq<string>, k: nat)
    requires 0 < k < |ts|
    ensures |Join(ts[k..])| + |Join(ts[..k])| + 1 == |Join(ts)|
    decreases k
  {
    if k == 1 {
      assert ts[..1] == [ts[0]];
    } else {
      JoinTail(ts[1..], k - 1);
      assert ts[1..][k - 1..] == ts[k..];
      assert ts[..k][1..] == ts[1..][..k - 1];
    }
  }

  // ---------------------------------------------------------------- trailing white space

  /** How much of the first n characters is left without the white space at their end. */
  function TrimLen(s: string, n: nat): (r: nat)
    requires n <= |s|
    ensures r <= n && (r > 0 ==> !IsSpace(s[r - 1]))
    decreases n
  {
    if n == 0 || !IsSpace(s[n - 1]) then n else TrimLen(s, n - 1)
  }

  function TrimRight(s: string): (r: string)
    ensures |r| <= |s| && forall k :: 0 <= k < |r| ==> r[k] == s[k]
    ensures r != "" ==> !IsSpace(Last(r))
  {
    s[..TrimLen(s, |s|)]
  }

  lemma {:induction false} TrimLenShift(s: string, d: nat, b: string, n: nat)
    requires EndsIn(s, d, b) && n <= |b|
    ensures TrimLen(s, d + n) == if TrimLen(b, n) == 0 then TrimLen(s, d) else d + TrimLen(b, n)
    decreases n
  {
    if n > 0 && IsSpace(b[n - 1]) {
      TrimLenShift(s, d, b, n - 1);
    }
  }

  lemma {:induction false} TrimLenPrefix(s: string, s': string, n: nat)
    requires n <= |s| && n <= |s'| && forall k :: 0 <= k < n ==> s[k] == s'[k]
    ensures TrimLen(s, n) == TrimLen(s', n)
    decreases n
  {
    if n > 0 && IsSpace(s[n - 1]) {
      TrimLenPrefix(s, s', n - 1);
    }
  }

  lemma TrimAfter(a: string, b: string)
    ensures TrimRight(a + b) == if TrimRight(b) == "" then TrimRight(a) else a + TrimRight(b)
  {
    Concatenated(a, b);
    TrimLenShift(a + b, |a|, b, |b|);
    TrimLenPrefix(a + b, a, |a|);
  }

  lemma NotTrimmed(s: string)
    requires s != "" && !IsSpace(Last(s))
    ensures TrimRight(s) == s
  {
  }

  /** What trimming takes away is white space. */
  lemma {:induction false} TrimmedAway(s: string, n: nat)
    requires n <= |s|
    ensures forall k :: TrimLen(s, n) <= k < n ==> IsSpace(s[k])
    decreases n
  {
    if n > 0 && IsSpace(s[n - 1]) {
      TrimmedAway(s, n - 1);
    }
  }

  lemma {:induction false} LastOfJoin(ts: seq<string>)
    requires AllPlain(ts) && ts != []
    ensures Join(ts) != "" && Join(ts)[0] == ts[0][0] && !IsSpace(Last(Join(ts)))
  {
    if |ts| > 1 {
      LastOfJoin(ts[1..]);
      assert Last(ts[0] + " " + Join(ts[1..])) == Last(Join(ts[1..]));
    }
  }

  /** A line of plain words is not changed by trimming. */
  lemma JoinedWordsTrimmed(ts: seq<string>)
    requires AllPlain(ts)
    ensures TrimRight(Join(ts)) == Join(ts)
  {
  }

  /** Trimming a line that starts with words. */
  lemma TrimBehindWords(ws: seq<string>, x: string)
    requires AllPlain(ws) && ws != []
    ensures TrimRight(Join(ws) + " " + x)
         == if TrimRight(x) == "" then Join(ws) else Join(ws) + " " + TrimRight(x)
  {
    JoinedWordsTrimmed(ws);
    TrimAfter(Join(ws) + " ", x);
    TrimAfter(Join(ws), " ");
    assert " "[..0] == "" && TrimRight("") == "";
  }

  lemma WordsAlone(ws: seq<string>, n: nat)
    requires AllPlain(ws) && |ws| <= n
    ensures Tokens(Join(ws), n) == ws + Tokens("", n - |ws|)
  {
    JoinedWordsParse(ws, n);
    NoTokens("", 0, n - |ws|);
  }

  /** Words in front of a line that is trimmed and then parsed. */
  lemma WordsBeforeTrimmed(ws: seq<string>, x: string, n: nat)
    requires AllPlain(ws) && 0 < |ws| <= n
    ensures Tokens(TrimRight(Join(ws) + " " + x), n) == ws + Tokens(TrimRight(x), n - |ws|)
  {
    TrimBehindWords(ws, x);
    if TrimRight(x) == "" {
      WordsAlone(ws, n);
    } else {
      WordsInFront(ws, TrimRight(x), n);
    }
  }

  // ---------------------------------------------------------------- quoted words

  /** s starts with the quoted word w, and rest follows. */
  ghost predicate QuoteCloses(s: string, w: string, rest: string) {
    && EndsIn(s, |w| + 2, rest) && s[0] == '"' && s[|w| + 1] == '"'
    && forall k :: 0 <= k < |w| ==> s[k + 1] == w[k] && w[k] != '"'
  }

  lemma QuotedSpan(s: string, w: string, rest: string)
    requires QuoteCloses(s, w, rest)
    ensures SpanAt(s, 0) == Span(1, |w| + 1, |w| + 2) && Text(s, SpanAt(s, 0)) == w
  {
    assert forall k :: 1 <= k < |w| + 1 ==> s[k] == w[k - 1];
    WordEndIs(s, 1, |w|, true);
  }

  lemma QuotedFirst(s: string, w: string, rest: string, limit: nat)
    requires QuoteCloses(s, w, rest) && limit > 0
    ensures Tokens(s, limit) == [w] + Tokens(rest, limit - 1)
  {
    QuotedSpan(s, w, rest);
    TokensFromStep(s, 0, limit);
    TokensShift(s, |w| + 2, rest, 0, limit - 1);
  }

  lemma QuoteInFront(w: string, rest: string)
    requires Without(w, '"')
    ensures QuoteCloses("\"" + w + "\"" + rest, w, rest)
  {
  }

  /** A quoted word at the start of a line, whatever follows the closing quote. */
  lemma QuotedWordFirst(w: string, rest: string, limit: nat)
    requires Without(w, '"') && limit > 0
    ensures Tokens("\"" + w + "\"" + rest, limit) == [w] + Tokens(rest, limit - 1)
  {
    QuoteInFront(w, rest);
    QuotedFirst("\"" + w + "\"" + rest, w, rest, limit);
  }

  /** A quoted word at the end of a line. */
  lemma QuotedWord(w: string, limit: nat)
    requires Without(w, '"')
    ensures Tokens("\"" + w + "\"", limit + 1) == [w]
  {
    QuotedWordFirst(w, "", limit + 1);
    NoTokens("", 0, limit);
    assert "\"" + w + "\"" + "" == "\"" + w + "\"";
  }

  lemma OpenFirst(s: string, w: string, limit: nat)
    requires EndsIn(s, 1, w) && s[0] == '"' && Without(w, '"') && limit > 0
    ensures Tokens(s, limit) == [w]
  {
    assert forall k :: 1 <= k < |s| ==> s[k] == w[k - 1];
    WordEndIs(s, 1, |w|, true);
    assert SpanAt(s, 0) == Span(1, |s|, |s|) && s[1..|s|] == w;
    TokensFromStep(s, 0, limit);
    NoTokens(s, |s|, limit - 1);
  }

  /** A quote that is never closed takes the rest of the line. */
  lemma OpenQuote(w: string, limit: nat)
    requires Without(w, '"') && limit > 0
    ensures Tokens("\"" + w, limit) == [w]
  {
    OpenFirst("\"" + w, w, limit);
  }

  // ---------------------------------------------------------------- the grammar of lines

  /** How a line can start, with what follows. */
  datatype Start =
    | End
    | Space(c: char, rest: string)
    | Word(w: string, rest: string)
    | Quoted(w: string, rest: string)
    | Open(w: string)

  /** The line that starts so, for a plain word with white space or nothing behind it. */
  predicate StartsAs(s: string, start: Start) {
    match start
    case End => s == ""
    case Space(c, rest) => IsSpace(c) && s == [c] + rest
    case Word(w, rest) => PlainWord(w) && (rest != "" ==> IsSpace(rest[0])) && s == w + rest
    case Quoted(w, rest) => Without(w, '"') && s == "\"" + w + "\"" + rest
    case Open(w) => Without(w, '"') && s == "\"" + w
  }

  /** What the start adds to the tokens. */
  lemma TokensOfStart(s: string, start: Start, limit: nat)
    requires StartsAs(s, start) && limit > 0
    ensures Tokens(s, limit)
         == match start
            case End => []
            case Space(_, rest) => Tokens(rest, limit)
            case Word(w, rest) => [w] + Tokens(rest, limit - 1)
            case Quoted(w, rest) => [w] + Tokens(rest, limit - 1)
            case Open(w) => [w]
    ensures Tokens(s, 0) == []
  {
    match start {
      case End => NoTokens("", 0, limit);
      case Space(c, rest) => LeadingSpace(c, rest, limit);
      case Word(w, rest) => FirstWord(w, rest, limit);
      case Quoted(w, rest) => QuotedWordFirst(w, rest, limit);
      case Open(w) => OpenQuote(w, limit);
    }
  }

  lemma QuoteStart(s: string)
    requires s != "" && s[0] == '"'
    ensures exists start :: StartsAs(s, start)
  {
    var end := WordEnd(s, 1, true);
    WordClear(s, 1, true);
    var w := s[1..end];
    if end < |s| {
      assert StartsAs(s, Quoted(w, s[end + 1..])) by {
        assert s == "\"" + w + "\"" + s[end + 1..];
      }
    } else {
      assert StartsAs(s, Open(w));
    }
  }

  /** Every line starts in one of these ways, so the laws settle its tokens. */
  lemma EveryLineStarts(s: string)
    ensures exists start :: StartsAs(s, start)
  {
    if s == "" {
      assert StartsAs(s, End);
    } else if IsSpace(s[0]) {
      assert StartsAs(s, Space(s[0], s[1..]));
    } else if s[0] == '"' {
      QuoteStart(s);
    } else {
      var end := WordEnd(s, 0, false);
      WordClear(s, 0, false);
      assert StartsAs(s, Word(s[..end], s[end..]));
    }
  }
}
