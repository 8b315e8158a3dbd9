/** What executing a line means, in terms of the text that was typed and the variables that were
    set before. */
module Execution {
  import opened CStrings
  import opened Tokenizer
  import opened CommandLines
  import opened Environment
  import opened EnvExpansion
  import opened Replay

  /** Nothing is done for an empty line and for one that starts with a '#'. */
  lemma CommentsIgnored(es: seq<Entry>, raw: string)
    requires raw == "" || raw[0] == '#'
    ensures Execute(es, raw) == Ignored
  {
  }

  /** Of a longer line the first 255 characters count. */
  lemma OnlyFirstCharactersCount(es: seq<Entry>, raw: string)
    ensures Execute(es, raw) == Execute(es, Prefix(raw, 255))
  {
  }

  /** A line of plain words calls the handler with the first 15 of them. */
  lemma PlainLineDispatches(es: seq<Entry>, ws: seq<string>)
    requires AllPlain(ws) && ws != [] && ws[0][0] != '#' && (|ws| >= 2 ==> ws[1] != "--help")
    requires Without(Join(ws), '$') && |Join(ws)| <= 255
    ensures Execute(es, Join(ws)) == Dispatch(Prefix(ws, 15))
  {
    ExecuteLiteral(es, Join(ws));
    LastOfJoin(ws);
    JoinedWordsTrimmed(ws);
    JoinedWordsParse(ws, ARGS_CAP);
  }

  /** --help in second place asks for the help text of the command. */
  lemma HelpIsShown(es: seq<Entry>, ws: seq<string>)
    requires AllPlain(ws) && |ws| >= 2 && ws[0][0] != '#' && ws[1] == "--help"
    requires Without(Join(ws), '$') && |Join(ws)| <= 255
    ensures Execute(es, Join(ws)) == HelpFor(ws[0])
  {
    ExecuteLiteral(es, Join(ws));
    LastOfJoin(ws);
    HelpReparsed(ws);
  }

  /** A line that is written from a template leads to what its expansion leads to: the values are
      put in first, and the result is cut, trimmed and split. */
  lemma TemplateExecutes(es: seq<Entry>, items: seq<Item>)
    requires WellFormed(items) && 0 < |Render(items)| <= LINE_CAP && Render(items)[0] != '#'
    ensures Execute(es, Render(items))
         == Decide(Tokens(TrimRight(Prefix(Meaning(Answers(es), items), LINE_CAP)), ARGS_CAP))
  {
    TemplateExpands(es, items);
  }

  /** A reference behind a command name, as a template. */
  function Referring(cmd: string, item: Item): seq<Item> {
    [Text(cmd + " "), item]
  }

  lemma ReferringIs(env: string -> string, cmd: string, item: Item)
    requires Without(cmd, '$') && ItemFits(item, NUL) && !item.Unclosed?
    ensures WellFormed(Referring(cmd, item)) && Render(Referring(cmd, item)) == cmd + " " + Written(item)
    ensures Meaning(env, Referring(cmd, item)) == cmd + " " + Contribution(env, item)
  {
    var items := Referring(cmd, item);
    assert items[1..] == [item] && [item][1..] == [];
    assert Render([item]) == Written(item) && Meaning(env, [item]) == Contribution(env, item);
  }

  /** What becomes of a command with a reference behind it. */
  lemma ReferenceExecutes(es: seq<Entry>, cmd: string, item: Item)
    requires PlainWord(cmd) && cmd[0] != '#' && Without(cmd, '$') && ItemFits(item, NUL) && !item.Unclosed?
    requires |cmd| + 1 + |Written(item)| <= LINE_CAP
    requires |cmd| + 1 + |Contribution(Answers(es), item)| <= LINE_CAP
    ensures Execute(es, cmd + " " + Written(item))
         == Decide(Tokens(TrimRight(cmd + " " + Contribution(Answers(es), item)), ARGS_CAP))
  {
    ReferringIs(Answers(es), cmd, item);
    TemplateExecutes(es, Referring(cmd, item));
  }

  /** A name that a '$' can be followed by. */
  ghost predicate BareName(n: string) {
    0 < |n| <= 15 && forall k :: 0 <= k < |n| ==> NameChar(n[k])
  }

  lemma BareNameFits(n: string)
    requires BareName(n)
    ensures ItemFits(Bare(n), NUL) && ItemFits(Braced(n), NUL)
  {
  }

  lemma SetIsAnswered(es: seq<Entry>, n: string, v: string)
    requires |n| <= 15 && |v| <= 127 && SetSlot(es, n) < |es|
    ensures Answers(Set(es, n, v))(n) == v
  {
    SetThenLookup(es, n, v, n);
  }

  lemma ValueSplits(cmd: string, vs: seq<string>)
    requires PlainWord(cmd) && AllPlain(vs) && vs != [] && vs[0] != "--help"
    ensures Decide(Tokens(TrimRight(cmd + " " + Join(vs)), ARGS_CAP)) == Dispatch(Prefix([cmd] + vs, 15))
  {
    var ws := [cmd] + vs;
    assert ws[1..] == vs;
    assert Join(ws) == cmd + " " + Join(vs);
    JoinedWordsTrimmed(ws);
    JoinedWordsParse(ws, ARGS_CAP);
  }

  /** From the store to the handler: after a variable is set to words, a command with $NAME or
      ${NAME} behind it is called with these words, each an argument of its own. */
  lemma SetThenUsed(es: seq<Entry>, n: string, vs: seq<string>, cmd: string)
    requires BareName(n) && SetSlot(es, n) < |es|
    requires AllPlain(vs) && vs != [] && vs[0] != "--help" && |Join(vs)| <= 127
    requires PlainWord(cmd) && cmd[0] != '#' && Without(cmd, '$') && |cmd| <= 127
    ensures Execute(Set(es, n, Join(vs)), cmd + " " + ("$" + n)) == Dispatch(Prefix([cmd] + vs, 15))
    ensures Execute(Set(es, n, Join(vs)), cmd + " " + ("${" + n + "}")) == Dispatch(Prefix([cmd] + vs, 15))
  {
    var es' := Set(es, n, Join(vs));
    SetIsAnswered(es, n, Join(vs));
    BareNameFits(n);
    ReferenceExecutes(es', cmd, Bare(n));
    ReferenceExecutes(es', cmd, Braced(n));
    ValueSplits(cmd, vs);
  }

  /** A name that is not set leaves the command without the argument. */
  lemma UnsetLeavesNothing(es: seq<Entry>, n: string, cmd: string)
    requires BareName(n) && Lookup(es, n) == None
    requires PlainWord(cmd) && cmd[0] != '#' && Without(cmd, '$') && |cmd| <= 127
    ensures Execute(es, cmd + " " + ("$" + n)) == Dispatch([cmd])
  {
    BareNameFits(n);
    ReferenceExecutes(es, cmd, Bare(n));
    WordsBeforeTrimmed([cmd], "", ARGS_CAP);
    NoTokens("", 0, ARGS_CAP - 1);
    assert TrimRight("") == "" && Join([cmd]) == cmd;
  }

  /** The words behind "run", or behind "at" or "every" and a delay, are handed over as a line. */
  lemma WordsAreHandedOver(es: seq<Entry>, ws: seq<string>, xs: seq<string>)
    requires AllPlain(ws) && AllPlain(xs) && ws != [] && xs != [] && |ws + xs| <= 15
    requires ws[0][0] != '#' && (ws + xs)[1] != "--help"
    requires Without(Join(ws + xs), '$') && |Join(ws + xs)| <= 255
    ensures Execute(es, Join(ws + xs)) == Dispatch(ws + xs) && Handed(ws + xs, |ws|) == Some(Join(xs))
  {
    PlainLineDispatches(es, ws + xs);
    HandedArgs(ws, xs);
    LastOfJoin(xs);
  }

  /** The expansion reads behind the line buffer exactly if what is kept of the line fills it, ends
      in an open brace, and means less than 255 characters. */
  lemma RunsOverIff(es: seq<Entry>, raw: string, items: seq<Item>)
    requires WellFormed(items) && Prefix(raw, 255) == Render(items)
    ensures RunsOver(es, raw) <==> |raw| >= 255 && EndsOpen(items) && |Meaning(Answers(es), items)| < 255
  {
    TemplateExpands(es, items);
  }
}
