/** Executing a line, and the commands that print their arguments back into a line which is
    executed later: run, at and every. */
module Replay {
  import opened CIntegers
  import opened CStrings
  import opened ShellHistory
  import opened Tokenizer
  import opened CommandLines
  import opened Environment
  import opened EnvExpansion

  const SHELL_MAX_ARGS: nat := 16
  const LINE_CAP: nat := SHELL_MAX_LINE_LEN - 1
  const ARGS_CAP: nat := SHELL_MAX_ARGS - 1

  // ---------------------------------------------------------------- shell_execute

  /** What a line leads to: nothing, the help text of a command, or a call of its handler. */
  datatype Outcome = Ignored | HelpFor(cmd: string) | Dispatch(argv: seq<string>)

  function Decide(argv: seq<string>): Outcome {
    if argv == [] then Ignored
    else if |argv| >= 2 && argv[1] == "--help" then HelpFor(argv[0])
    else Dispatch(argv)
  }

  /** The line as it is parsed: cut, expanded, cut again and trimmed. */
  function Prepared(es: seq<Entry>, raw: string): string {
    TrimRight(Prefix(Expansion(es, Prefix(raw, LINE_CAP)), LINE_CAP))
  }

  function Execute(es: seq<Entry>, raw: string): Outcome {
    if raw == "" || raw[0] == '#' then Ignored else Decide(Tokens(Prepared(es, raw), ARGS_CAP))
  }

  /** The line fills its buffer, as far as it is kept it dangles, and its expansion leaves room
      in the other buffer. In a shorter line the padding stops the scan. */
  predicate RunsOver(es: seq<Entry>, raw: string) {
    && |raw| >= LINE_CAP && Dangles(Prefix(raw, LINE_CAP))
    && |Expansion(es, Prefix(raw, LINE_CAP))| < LINE_CAP
  }

  /** strncpy of s into all but the last cell of d, and a NUL there: NULs pad the rest. */
  method CopyIn(d: array<char>, s: string)
    requires NulFree(s) && d.Length > 0
    modifies d
    ensures Intact(d[..], Prefix(s, d.Length - 1), 0)
    ensures StrAt(d[..], 0) == Prefix(s, d.Length - 1)
    ensures forall i :: |s| <= i < d.Length ==> d[i] == NUL
  {
    StrNCpy(d, s, d.Length - 1);
    d[d.Length - 1] := NUL;
    ghost var kept := Prefix(s, d.Length - 1);
    assert d[0..|kept|] == kept;
    ReadBack(d[..], 0, kept);
  }

  /** Overwrites trailing white space by NULs. */
  method TrimInPlace(line: array<char>, ghost s: string)
    requires Intact(line[..], s, 0)
    modifies line
    ensures Intact(line[..], TrimRight(s), 0)
  {
    IntactReads(line[..], s);
    var len := |StrAt(line[..], 0)|;
    while len > 0 && IsSpace(line[len - 1])
      invariant 0 <= len <= |s| < line.Length
      invariant TrimLen(s, len) == TrimLen(s, |s|)
      invariant line[len] == NUL && forall i :: 0 <= i < len ==> line[i] == s[i]
    {
      len := len - 1;
      line[len] := NUL;
    }
  }

  lemma IntactReads(m: seq<char>, s: string)
    requires Intact(m, s, 0)
    ensures StrAt(m, 0) == s
  {
  }

  lemma HeldReads(m: seq<char>, len: nat, full: string)
    requires HoldsPrefix(m, len, full) && m[len] == NUL && NulFree(full)
    ensures StrAt(m, 0) == Prefix(full, |m| - 1)
  {
    assert m[0..len] == m[..len];
    ReadBack(m, 0, m[..len]);
  }

  /** The line buffer of shell_execute after expansion and trimming. overrun says that the
      expansion has read behind the buffer. */
  method Prepare(env: Store, raw: string, line: array<char>) returns (overrun: bool)
    requires env.Valid() && NulFree(raw) && line.Length == SHELL_MAX_LINE_LEN
    modifies line
    ensures !overrun ==> Intact(line[..], Prepared(Visible(env), raw), 0)
    ensures overrun <==> RunsOver(Visible(env), raw)
  {
    var expanded := new char[SHELL_MAX_LINE_LEN](i => NUL);
    CopyIn(line, raw);
    ghost var kept, full := Prefix(raw, LINE_CAP), Expansion(Visible(env), Prefix(raw, LINE_CAP));
    assert NulBehind(line[..], kept) <==> |raw| < LINE_CAP;
    var len;
    len, overrun := Expand(env, line, expanded, kept);
    if !overrun {
      ExpansionNulFree(env, Prefix(raw, LINE_CAP));
      HeldReads(expanded[..], len, full);
      CopyIn(line, StrAt(expanded[..], 0));
      TrimInPlace(line, Prefix(full, LINE_CAP));
    }
  }

  /** Parsing and the look at the first two arguments. */
  method ParseAndDecide(line: array<char>, ghost s: string) returns (o: Outcome)
    requires Intact(line[..], s, 0)
    modifies line
    ensures o == Decide(Tokens(s, ARGS_CAP))
  {
    var argv := new int[SHELL_MAX_ARGS](i => NULL);
    var argc := ParseArgs(line, argv, SHELL_MAX_ARGS, s);
    o := Decide(CStringsAt(line[..], argv[..argc]));
  }

  /** shell_execute up to the call of the handler, for every line. The only exception is a line
      of 255 characters or more for which the expansion reads behind its buffer. */
  method ShellExecute(env: Store, raw: string) returns (o: Outcome, overrun: bool)
    requires env.Valid() && NulFree(raw)
    ensures !overrun ==> o == Execute(Visible(env), raw)
    ensures |raw| < LINE_CAP ==> !overrun
    ensures overrun <==> raw != "" && raw[0] != '#' && RunsOver(Visible(env), raw)
  {
    o, overrun := Ignored, false;
    if raw != "" && raw[0] != '#' {
      var line := new char[SHELL_MAX_LINE_LEN](i => NUL);
      overrun := Prepare(env, raw, line);
      if !overrun {
        o := ParseAndDecide(line, Prepared(Visible(env), raw));
      }
    }
  }

  lemma ExpansionNulFree(env: Store, s: string)
    requires env.Valid() && NulFree(s)
    ensures NulFree(Expansion(Visible(env), s))
  {
    var es := Visible(env);
    forall n ensures NulFree(Answers(es)(n)) {
      if Find(es, n) < |es| {
        assert Storable(es[Find(es, n)]);
      }
    }
    ExpandNulFree(Answers(es), s, 0);
  }

  lemma {:induction false} ExpandNulFree(env: string -> string, s: string, i: nat)
    requires NulFree(s) && forall n :: NulFree(env(n))
    ensures NulFree(ExpandFrom(env, s, i))
    decreases |s| - i
  {
    if i < |s| {
      ExpandNulFree(env, s, RoundAt(s, i).next);
    }
  }

  // ---------------------------------------------------------------- run, at, every

  /** A size_t subtraction that may wrap. */
  function SizeT(x: int): nat {
    x % UINT32
  }

  lemma JoinFrom(argv: seq<string>, i: nat)
    requires i < |argv|
    ensures Join(argv[i..]) == argv[i] + if i + 1 < |argv| then " " + Join(argv[i + 1..]) else ""
  {
  }

  /** One argument appended by strncat, and a space if another one follows. */
  method AppendArg(command: string, argv: seq<string>, i: nat) returns (longer: string)
    requires i < |argv|
    ensures |command + Join(argv[i..])| < LINE_CAP ==>
              longer + Join(argv[i + 1..]) == command + Join(argv[i..])
  {
    ghost var rest := Join(argv[i + 1..]);
    JoinFrom(argv, i);
    longer := command + Prefix(argv[i], SizeT(SHELL_MAX_LINE_LEN - |command| - 2));
    if i < |argv| - 1 {
      longer := longer + Prefix(" ", SizeT(SHELL_MAX_LINE_LEN - |longer| - 1));
      Assoc(command, argv[i], " " + rest);
      Assoc(command + argv[i], " ", rest);
    } else {
      assert argv[i + 1..] == [];
    }
  }

  /** The strncat loops: the arguments from index first on, joined by spaces. */
  method JoinArgs(argv: seq<string>, first: nat) returns (command: string)
    requires first <= |argv|
    ensures |Join(argv[first..])| < LINE_CAP ==> command == Join(argv[first..])
  {
    command := "";
    for i := first to |argv|
      invariant |Join(argv[first..])| < LINE_CAP ==> command + Join(argv[i..]) == Join(argv[first..])
    {
      command := AppendArg(command, argv, i);
    }
    assert argv[|argv|..] == [];
  }

  /** What a command that takes its arguments from index first on as a command line hands to
      the background task or to the scheduler; None when it refuses. */
  function Handed(argv: seq<string>, first: nat): Option<string> {
    if |argv| <= first || Join(argv[first..]) == "" then None else Some(Join(argv[first..]))
  }

  /** cmd_run (first = 1), and cmd_at and cmd_every (first = 2) for a delay and a slot that
      the scheduler accepts. The arguments come from a parsed line, so nothing is cut. */
  method HandOver(line: string, argv: seq<string>, first: nat) returns (r: Option<string>)
    requires |line| <= LINE_CAP && argv == Tokens(line, ARGS_CAP)
    requires 0 < first && (argv != [] ==> argv[0] != "")
    ensures r == Handed(argv, first)
  {
    if |argv| <= first {
      return None;
    }
    JoinFits(line, 0, ARGS_CAP);
    JoinTail(argv, first);
    JoinNonEmpty(argv[..first]);
    var command := JoinArgs(argv, first);
    if command == "" {
      return None;
    }
    r := Some(Prefix(command, LINE_CAP));
  }

  lemma JoinNonEmpty(ts: seq<string>)
    requires ts != [] && ts[0] != ""
    ensures Join(ts) != "" && Join(ts)[0] == ts[0][0]
  {
  }

  // ---------------------------------------------------------------- replay

  /** The effect of a line without '$': the environment plays no part in it. */
  function Effect(x: string): Outcome {
    if x == "" || x[0] == '#' then Ignored else Decide(Tokens(TrimRight(x), ARGS_CAP))
  }

  lemma ExecuteLiteral(es: seq<Entry>, x: string)
    requires Without(x, '$') && |x| <= LINE_CAP
    ensures Execute(es, x) == Effect(x)
  {
    NoDollarNoChange(es, x);
  }

  /** What comes in the end of a line with outcome o, such as "run X" or "at 500 X", when exec
      tells what executing the handed-over command leads to. */
  function Relayed(o: Outcome, first: nat, exec: string -> Outcome): Outcome {
    if o.Dispatch? && Handed(o.argv, first).Some? then exec(Handed(o.argv, first).value) else Ignored
  }

  function ExecuteIn(es: seq<Entry>): string -> Outcome {
    c => Execute(es, c)
  }

  function EffectOf(): string -> Outcome {
    c => Effect(c)
  }

  /** When entering X behind the words of a relaying command has the effect of X itself. */
  predicate Replayable(x: string, first: nat) {
    x == "" || x[0] == '#' || ReplayableArgs(Tokens(TrimRight(x), ARGS_CAP), first)
  }

  /** The command name is plain and neither hidden as a comment nor taken for --help, and
      either help is asked for or all arguments are plain and few enough. */
  predicate ReplayableArgs(ts: seq<string>, first: nat) {
    ts == [] ||
    (PlainWord(ts[0]) && ts[0][0] != '#' && (first == 1 ==> ts[0] != "--help")
     && ((|ts| >= 2 && ts[1] == "--help") || (AllPlain(ts) && |ts| + first <= ARGS_CAP)))
  }

  lemma NonBlankHasTokens(s: string, limit: nat)
    requires s != "" && !IsSpace(Last(s)) && limit > 0
    ensures Tokens(s, limit) != []
  {
    SkippedSpace(s, 0);
    TokensFromStep(s, 0, limit);
  }

  lemma HashWord(s: string, limit: nat)
    requires s != "" && s[0] == '#' && limit > 0
    ensures Tokens(s, limit) != [] && Tokens(s, limit)[0] != "" && Tokens(s, limit)[0][0] == '#'
  {
  }

  /** The arguments a relaying line passes on: those of X, as far as the limit allows. */
  lemma RelayedArgs(ws: seq<string>, x: string)
    requires AllPlain(ws) && 0 < |ws| <= ARGS_CAP
    ensures Tokens(TrimRight(Join(ws) + " " + x), ARGS_CAP)
         == ws + Tokens(TrimRight(x), ARGS_CAP - |ws|)
  {
    WordsBeforeTrimmed(ws, x, ARGS_CAP);
  }

  /** The printed arguments contain no '$' and fit a line when X does. */
  lemma PrintedIsLiteral(t: string, limit: nat)
    requires Without(t, '$') && |t| <= LINE_CAP
    ensures Without(Join(Tokens(t, limit)), '$') && |Join(Tokens(t, limit))| <= LINE_CAP
  {
    TokensWithout(t, 0, limit, '$');
    JoinWithout(Tokens(t, limit), '$');
    JoinFits(t, 0, limit);
  }

  /** Plain arguments are parsed back as they are. */
  lemma PlainReparsed(us: seq<string>, n: nat)
    requires AllPlain(us) && |us| <= n
    ensures Tokens(TrimRight(Join(us)), n) == us
  {
    JoinedWordsTrimmed(us);
    JoinedWordsParse(us, n);
  }

  lemma JoinTwoAndMore(a: string, b: string, rest: seq<string>)
    requires rest != []
    ensures Join([a, b] + rest) == Join([a, b]) + " " + Join(rest)
  {
  }

  lemma HelpReparsedLong(cmd: string, rest: seq<string>)
    requires PlainWord(cmd) && rest != []
    ensures Decide(Tokens(TrimRight(Join([cmd, "--help"] + rest)), ARGS_CAP)) == HelpFor(cmd)
  {
    var two := [cmd, "--help"];
    assert PlainWord("--help");
    JoinTwoAndMore(cmd, "--help", rest);
    RelayedArgs(two, Join(rest));
    HelpDecided(two, Tokens(TrimRight(Join(rest)), ARGS_CAP - 2));
  }

  lemma HelpReparsedShort(cmd: string)
    requires PlainWord(cmd)
    ensures Decide(Tokens(TrimRight(Join([cmd, "--help"])), ARGS_CAP)) == HelpFor(cmd)
  {
    assert PlainWord("--help");
    PlainReparsed([cmd, "--help"], ARGS_CAP);
  }

  lemma HelpDecided(two: seq<string>, more: seq<string>)
    requires |two| == 2 && two[1] == "--help"
    ensures Decide(two + more) == HelpFor(two[0])
  {
  }

  /** A plain command name and --help in second place are parsed back as they are, whatever
      follows them. */
  lemma HelpReparsed(us: seq<string>)
    requires |us| >= 2 && PlainWord(us[0]) && us[1] == "--help"
    ensures Decide(Tokens(TrimRight(Join(us)), ARGS_CAP)) == HelpFor(us[0])
  {
    if |us| == 2 {
      assert us == [us[0], "--help"];
      HelpReparsedShort(us[0]);
    } else {
      assert us == [us[0], "--help"] + us[2..];
      HelpReparsedLong(us[0], us[2..]);
    }
  }

  lemma HandedArgs(ws: seq<string>, us: seq<string>)
    requires 0 < |ws|
    ensures Handed(ws + us, |ws|) == if us == [] || Join(us) == "" then None else Some(Join(us))
  {
  }

  /** What a relaying line is dispatched with. */
  lemma RelayingEffect(ws: seq<string>, x: string)
    requires AllPlain(ws) && 0 < |ws| <= ARGS_CAP && ws[0][0] != '#'
    ensures Effect(Join(ws) + " " + x) == Decide(ws + Tokens(TrimRight(x), ARGS_CAP - |ws|))
  {
    LastOfJoin(ws);
    RelayedArgs(ws, x);
  }

  /** From the arguments us that are handed over to the final effect. */
  lemma RelayedEffect(ws: seq<string>, us: seq<string>, exec: string -> Outcome)
    requires 0 < |ws| && (|ws| >= 2 ==> ws[1] != "--help")
    ensures Relayed(Decide(ws + us), |ws|, exec)
         == if us == [] || Join(us) == "" || (|ws| == 1 && us[0] == "--help") then Ignored else exec(Join(us))
  {
  }

  /** The equivalence on argument lists: ts is what X is dispatched with, us what is handed
      over, c the printed form of us, and vs what c is parsed into. */
  lemma ReplayDecision(ts: seq<string>, us: seq<string>, c: string, vs: seq<string>, k: nat)
    requires 0 < k <= ARGS_CAP - 2 && 0 < |ts| <= ARGS_CAP && us == Prefix(ts, ARGS_CAP - k)
    requires us[0] != "" ==> c != "" && c[0] == us[0][0]
    requires AllPlain(vs) && (AllPlain(us) ==> vs == us)
    requires |us| >= 2 && PlainWord(us[0]) && us[1] == "--help" ==> Decide(vs) == HelpFor(us[0])
    ensures
      var effect := if (k == 1 && us[0] == "--help") || c == "" || c[0] == '#' then Ignored else Decide(vs);
      effect == Decide(ts) <==> ReplayableArgs(ts, k)
  {
  }

  /** The facts that ReplayDecision needs, for the arguments us of a line. */
  lemma ReparsedArgs(us: seq<string>)
    requires 0 < |us| <= ARGS_CAP && forall k :: 0 <= k < |us| ==> ParserWord(us[k])
    ensures
      var vs := Tokens(TrimRight(Join(us)), ARGS_CAP);
      && (us[0] != "" ==> Join(us) != "" && Join(us)[0] == us[0][0])
      && AllPlain(vs) && (AllPlain(us) ==> vs == us)
      && (|us| >= 2 && PlainWord(us[0]) && us[1] == "--help" ==> Decide(vs) == HelpFor(us[0]))
  {
    JoinOpensNoQuote(us);
    TokensArePlain(TrimRight(Join(us)), 0, ARGS_CAP);
    if us[0] != "" {
      JoinNonEmpty(us);
    }
    if AllPlain(us) {
      PlainReparsed(us, ARGS_CAP);
    }
    if |us| >= 2 && PlainWord(us[0]) && us[1] == "--help" {
      HelpReparsed(us);
    }
  }

  /** The equivalence on effects. */
  lemma ReplayEffectIff(ws: seq<string>, x: string)
    requires AllPlain(ws) && 0 < |ws| <= ARGS_CAP - 2 && ws[0][0] != '#'
    requires |ws| >= 2 ==> ws[1] != "--help"
    ensures Relayed(Effect(Join(ws) + " " + x), |ws|, EffectOf()) == Effect(x)
            <==> Replayable(x, |ws|)
  {
    var t, k := TrimRight(x), |ws|;
    var us := Tokens(t, ARGS_CAP - k);
    RelayingEffect(ws, x);
    RelayedEffect(ws, us, EffectOf());
    if t == "" {
      NoTokens("", 0, ARGS_CAP);
      NoTokens("", 0, ARGS_CAP - k);
    } else {
      NonBlankHasTokens(t, ARGS_CAP);
      LimitCuts(t, 0, ARGS_CAP - k, ARGS_CAP);
      TokensAreParserWords(t, 0, ARGS_CAP - k);
      ReparsedArgs(us);
      ReplayDecision(Tokens(t, ARGS_CAP), us, Join(us), Tokens(TrimRight(Join(us)), ARGS_CAP), k);
      if x[0] == '#' {
        HashWord(t, ARGS_CAP);
      }
    }
  }

  /** The command that is handed over, if any, is free of '$' and short enough. */
  ghost predicate HandsOverLiteral(o: Outcome, first: nat) {
    o.Dispatch? && Handed(o.argv, first).Some? ==>
      Without(Handed(o.argv, first).value, '$') && |Handed(o.argv, first).value| <= LINE_CAP
  }

  lemma HandedIsLiteral(ws: seq<string>, t: string, limit: nat)
    requires 0 < |ws| && Without(t, '$') && |t| <= LINE_CAP
    ensures HandsOverLiteral(Decide(ws + Tokens(t, limit)), |ws|)
  {
    HandedArgs(ws, Tokens(t, limit));
    PrintedIsLiteral(t, limit);
  }

  lemma RelayedLiteral(later: seq<Entry>, o: Outcome, first: nat)
    requires HandsOverLiteral(o, first)
    ensures Relayed(o, first, ExecuteIn(later)) == Relayed(o, first, EffectOf())
  {
    if o.Dispatch? && Handed(o.argv, first).Some? {
      ExecuteLiteral(later, Handed(o.argv, first).value);
    }
  }

  /** What is executed later has no '$' either, so the environment then plays no part. */
  lemma LaterIsLiteral(later: seq<Entry>, ws: seq<string>, x: string)
    requires AllPlain(ws) && 0 < |ws| <= ARGS_CAP && ws[0][0] != '#'
    requires Without(x, '$') && |x| <= LINE_CAP
    ensures Relayed(Effect(Join(ws) + " " + x), |ws|, ExecuteIn(later))
         == Relayed(Effect(Join(ws) + " " + x), |ws|, EffectOf())
  {
    var o := Decide(ws + Tokens(TrimRight(x), ARGS_CAP - |ws|));
    RelayingEffect(ws, x);
    HandedIsLiteral(ws, TrimRight(x), ARGS_CAP - |ws|);
    RelayedLiteral(later, o, |ws|);
  }

  /** For every line X without '$', any quoting included: "run X", "at n X" and "every n X"
      end in exactly what X itself leads to if and only if X is Replayable; es is the
      environment when the line is entered, later that when its command is executed. */
  lemma ReplayIff(es: seq<Entry>, later: seq<Entry>, ws: seq<string>, x: string)
    requires AllPlain(ws) && 0 < |ws| <= ARGS_CAP - 2 && ws[0][0] != '#'
    requires |ws| >= 2 ==> ws[1] != "--help"
    requires Without(Join(ws), '$') && Without(x, '$') && |Join(ws)| + 1 + |x| <= LINE_CAP
    ensures Relayed(Execute(es, Join(ws) + " " + x), |ws|, ExecuteIn(later)) == Execute(es, x)
            <==> Replayable(x, |ws|)
  {
    ExecuteLiteral(es, Join(ws) + " " + x);
    ExecuteLiteral(es, x);
    LaterIsLiteral(later, ws, x);
    ReplayEffectIff(ws, x);
  }

  /** A quoted argument with white space in it, or an empty one, does not survive a replay. */
  lemma QuotedArgumentIsLost(cmd: string, w: string, first: nat)
    requires PlainWord(cmd) && cmd[0] != '#' && Without(w, '"') && !PlainWord(w)
    ensures !Replayable(cmd + " " + ("\"" + w + "\""), first)
  {
    var quoted := "\"" + w + "\"";
    var x := cmd + " " + quoted;
    assert Last(x) == '"' && x[0] == cmd[0];
    NotTrimmed(x);
    WordThenRest(cmd, quoted, ARGS_CAP);
    QuotedWord(w, ARGS_CAP - 2);
    assert Tokens(x, ARGS_CAP) == [cmd, w];
    assert !AllPlain([cmd, w]) by {
      assert [cmd, w][1] == w;
    }
  }
}
