/** The per-session command history of the shell: a ring of SHELL_HISTORY_DEPTH lines
    with a navigation index. */
module ShellHistory {
  import opened CStrings

  const SHELL_HISTORY_DEPTH: nat := 20
  const SHELL_MAX_LINE_LEN: nat := 256

  // ---------------------------------------------------------------- the pure model

  /** What the ring stands for: the retained lines, oldest first, and the navigation
      index (-1 when not navigating). */
  datatype Ring = Ring(kept: seq<string>, nav: int) {

    predicate Valid() {
      |kept| <= SHELL_HISTORY_DEPTH && -1 <= nav < |kept|
    }

    /** The line the navigation index points at, counted from the newest. */
    function Shown(): string
      requires 0 <= nav < |kept|
    {
      kept[|kept| - 1 - nav]
    }
  }

  function Add(v: Ring, line: string): Ring {
    if line == "" then v
    else if v.kept != [] && Last(v.kept) == line then v.(nav := -1)
    else Ring(LastN(v.kept + [Prefix(line, SHELL_MAX_LINE_LEN - 1)], SHELL_HISTORY_DEPTH), -1)
  }

  function Prev(v: Ring): Ring {
    if v.kept == [] then v
    else if v.nav < 0 then v.(nav := |v.kept| - 1)
    else if v.nav > 0 then v.(nav := v.nav - 1)
    else v
  }

  function Next(v: Ring): Ring {
    if v.nav < 0 then v else v.(nav := v.nav - 1)
  }

  /** What the Up key recalls: nothing on an empty history. */
  function PrevText(v: Ring): Option<string>
    requires v.Valid()
  {
    if v.kept == [] then None else Some(Prev(v).Shown())
  }

  /** What the Down key recalls: the empty line when it leaves the history. */
  function NextText(v: Ring): Option<string>
    requires v.Valid()
  {
    if v.nav < 0 then None else if v.nav == 0 then Some("") else Some(Next(v).Shown())
  }

  // ---------------------------------------------------------------- the ring

  predicate StorableLine(s: string) {
    |s| < SHELL_MAX_LINE_LEN && NulFree(s)
  }

  /** The ring slot of the k-th oldest of count lines, when head is the next to write. */
  function Slot(head: nat, count: nat, k: int): nat
    requires head < SHELL_HISTORY_DEPTH && count <= SHELL_HISTORY_DEPTH && 0 <= k <= count
  {
    var i := head - count + k;
    if i < 0 then i + SHELL_HISTORY_DEPTH else i
  }

  ghost predicate Stores(ring: seq<string>, head: nat, kept: seq<string>) {
    && |ring| == SHELL_HISTORY_DEPTH && head < SHELL_HISTORY_DEPTH && |kept| <= SHELL_HISTORY_DEPTH
    && forall k :: 0 <= k < |kept| ==> ring[Slot(head, |kept|, k)] == kept[k]
  }

  ghost predicate AllStorable(lines: seq<string>) {
    forall i :: 0 <= i < |lines| ==> StorableLine(lines[i])
  }

  lemma PushStores(ring: seq<string>, head: nat, kept: seq<string>, line: string, kept': seq<string>)
    requires Stores(ring, head, kept) && kept' == LastN(kept + [line], SHELL_HISTORY_DEPTH)
    ensures Stores(ring[head := line], (head + 1) % SHELL_HISTORY_DEPTH, kept')
  {
  }

  lemma PushStorable(kept: seq<string>, line: string)
    requires AllStorable(kept) && StorableLine(line)
    ensures AllStorable(LastN(kept + [line], SHELL_HISTORY_DEPTH))
  {
  }

  class History {
    const lines: array<string>
    var head: nat   // next slot to write
    var count: nat  // lines stored
    var nav: int    // navigation index
    ghost var kept: seq<string>

    ghost predicate Valid()
      reads this, lines
    {
      && Stores(lines[..], head, kept)
      && -1 <= nav < count == |kept|
      && AllStorable(kept)
    }

    ghost function View(): Ring
      reads this
    {
      Ring(kept, nav)
    }

    constructor ()
      ensures Valid() && fresh(lines) && View() == Ring([], -1)
    {
      lines := new string[SHELL_HISTORY_DEPTH](i => "");
      head, count, nav := 0, 0, -1;
      kept := [];
    }

    method AddLine(line: string)
      requires Valid() && NulFree(line)
      modifies this, lines
      ensures Valid() && View() == Add(old(View()), line)
    {
      if line == "" {
        return;
      }
      if count > 0 {
        var last := (head - 1 + SHELL_HISTORY_DEPTH) % SHELL_HISTORY_DEPTH;
        assert last == Slot(head, count, count - 1);
        assert lines[..][last] == kept[count - 1];
        // strncmp over SHELL_MAX_LINE_LEN characters; a stored line is shorter than that
        if Prefix(lines[last], SHELL_MAX_LINE_LEN) == Prefix(line, SHELL_MAX_LINE_LEN) {
          nav := -1;
          return;
        }
      }
      Store(Prefix(line, SHELL_MAX_LINE_LEN - 1));
    }

    /** Writes the next slot and advances the ring. */
    method Store(line: string)
      requires Valid() && StorableLine(line)
      modifies this, lines
      ensures Valid() && View() == Ring(LastN(old(kept) + [line], SHELL_HISTORY_DEPTH), -1)
    {
      ghost var ring, kept' := lines[..][head := line], LastN(kept + [line], SHELL_HISTORY_DEPTH);
      PushStores(lines[..], head, kept, line, kept');
      PushStorable(kept, line);
      lines[head] := line;
      head := (head + 1) % SHELL_HISTORY_DEPTH;
      assert lines[..] == ring;
      kept := kept';
      if count < SHELL_HISTORY_DEPTH {
        count := count + 1;
      }
      nav := -1;
    }

    method PrevLine() returns (r: Option<string>)
      requires Valid()
      modifies this`nav
      ensures Valid() && View() == Prev(old(View())) && r == PrevText(old(View()))
    {
      if count == 0 {
        return None;
      }
      if nav < 0 {
        nav := count - 1;
      } else if nav > 0 {
        nav := nav - 1;
      }
      var idx := (head - 1 - nav + SHELL_HISTORY_DEPTH * 2) % SHELL_HISTORY_DEPTH;
      assert idx == Slot(head, count, count - 1 - nav);
      r := Some(lines[idx]);
      assert lines[..][idx] == kept[count - 1 - nav];
    }

    method NextLine() returns (r: Option<string>)
      requires Valid()
      modifies this`nav
      ensures Valid() && View() == Next(old(View())) && r == NextText(old(View()))
    {
      if nav < 0 {
        return None;
      }
      if nav == 0 {
        nav := -1;
        return Some("");
      }
      nav := nav - 1;
      var idx := (head - 1 - nav + SHELL_HISTORY_DEPTH * 2) % SHELL_HISTORY_DEPTH;
      assert idx == Slot(head, count, count - 1 - nav);
      r := Some(lines[idx]);
      assert lines[..][idx] == kept[count - 1 - nav];
    }
  }

  // ---------------------------------------------------------------- whole runs

  datatype Op = AddOp(line: string) | PrevOp | NextOp

  function Apply(v: Ring, op: Op): Ring {
    match op
    case AddOp(line) => Add(v, line)
    case PrevOp => Prev(v)
    case NextOp => Next(v)
  }

  /** The history after a run of operations on an empty one. */
  function Run(ops: seq<Op>): Ring {
    if ops == [] then Ring([], -1) else Apply(Run(ops[..|ops| - 1]), Last(ops))
  }

  /** The lines a run adds, in order. */
  function Added(ops: seq<Op>): seq<string> {
    if ops == [] then []
    else Added(ops[..|ops| - 1]) + match Last(ops) case AddOp(line) => [line] case _ => []
  }

  /** One more line: empty ones are dropped, and so is a line equal to the one remembered
      just before it; the others are cut to what a slot holds. */
  function Remember(all: seq<string>, line: string): seq<string> {
    if line == "" || (all != [] && Last(all) == line) then all
    else all + [Prefix(line, SHELL_MAX_LINE_LEN - 1)]
  }

  /** All lines worth remembering, without any bound on their number. */
  function Collapse(lines: seq<string>): seq<string> {
    if lines == [] then [] else Remember(Collapse(lines[..|lines| - 1]), Last(lines))
  }

  lemma AddTracksRemember(v: Ring, all: seq<string>, line: string)
    requires v.kept == LastN(all, SHELL_HISTORY_DEPTH)
    ensures Add(v, line).kept == LastN(Remember(all, line), SHELL_HISTORY_DEPTH)
  {
  }

  /** After any mix of additions and navigation the ring holds exactly the last 20
      remembered lines, and the navigation index stays inside it. */
  lemma {:induction false} RingHoldsLastLines(ops: seq<Op>)
    ensures Run(ops).Valid()
    ensures Run(ops).kept == LastN(Collapse(Added(ops)), 20)
  {
    if ops == [] {
    } else {
      var before := ops[..|ops| - 1];
      RingHoldsLastLines(before);
      match Last(ops)
      case AddOp(line) =>
        assert Added(ops)[..|Added(ops)| - 1] == Added(before);
        AddTracksRemember(Run(before), Collapse(Added(before)), line);
      case _ => assert Added(ops) == Added(before);
    }
  }

  /** What is remembered of the lines, in their order: out[k] is the line at index marks[k], and
      up to the next mark there are only repetitions of it and empty lines. */
  ghost predicate Marks(lines: seq<string>, out: seq<string>, marks: seq<nat>) {
    && |marks| == |out|
    && (forall k :: 0 <= k < |out| ==> marks[k] < |lines| && out[k] == lines[marks[k]] && out[k] != "")
    && (forall j, k :: 0 <= j < k < |out| ==> marks[j] < marks[k])
    && (forall i :: 0 <= i < |lines| ==> Covered(lines[i], i, out, marks))
  }

  /** The line at index i is empty, or the one remembered last when it was entered. */
  ghost predicate Covered(line: string, i: nat, out: seq<string>, marks: seq<nat>)
    requires |marks| == |out|
  {
    line == "" ||
    exists k :: 0 <= k < |out| && out[k] == line && marks[k] <= i && (k + 1 < |out| ==> i < marks[k + 1])
  }

  lemma KeptMarks(before: seq<string>, line: string, out: seq<string>, marks: seq<nat>)
    requires Marks(before, out, marks) && (line == "" || (out != [] && Last(out) == line))
    ensures Marks(before + [line], out, marks)
  {
    var lines := before + [line];
    forall i | 0 <= i < |lines|
      ensures Covered(lines[i], i, out, marks)
    {
      if i < |before| {
        assert Covered(before[i], i, out, marks);
      } else if line != "" {
        assert out[|out| - 1] == line && marks[|out| - 1] <= i;
      }
    }
  }

  lemma AddedMark(before: seq<string>, line: string, out: seq<string>, marks: seq<nat>)
    requires Marks(before, out, marks) && line != ""
    ensures Marks(before + [line], out + [line], marks + [|before|])
  {
    var lines, out', marks' := before + [line], out + [line], marks + [|before|];
    forall i | 0 <= i < |lines|
      ensures Covered(lines[i], i, out', marks')
    {
      if i < |before| {
        assert Covered(before[i], i, out, marks);
        if before[i] != "" {
          var k :| 0 <= k < |out| && out[k] == before[i] && marks[k] <= i && (k + 1 < |out| ==> i < marks[k + 1]);
          assert out'[k] == before[i] && marks'[k] <= i && i < marks'[k + 1];
        }
      } else {
        assert out'[|out|] == line && marks'[|out|] <= i;
      }
    }
  }

  lemma {:induction false} CollapseMarks(lines: seq<string>) returns (marks: seq<nat>)
    requires forall i :: 0 <= i < |lines| ==> |lines[i]| < SHELL_MAX_LINE_LEN
    ensures Marks(lines, Collapse(lines), marks)
  {
    if lines == [] {
      marks := [];
    } else {
      var before, line := lines[..|lines| - 1], Last(lines);
      assert lines == before + [line];
      marks := CollapseMarks(before);
      if line == "" || (Collapse(before) != [] && Last(Collapse(before)) == line) {
        KeptMarks(before, line, Collapse(before), marks);
      } else {
        AddedMark(before, line, Collapse(before), marks);
        marks := marks + [|before|];
      }
    }
  }

  /** Collapsing drops nothing but empty lines and immediate repetitions. */
  lemma {:induction false} CollapseMeaning(lines: seq<string>)
    requires forall i :: 0 <= i < |lines| ==> |lines[i]| < SHELL_MAX_LINE_LEN
    ensures forall s :: s in Collapse(lines) <==> s in lines && s != ""
    ensures NoRepeats(Collapse(lines))
    ensures "" !in lines && NoRepeats(lines) ==> Collapse(lines) == lines
  {
    if lines == [] {
    } else {
      var before, line := lines[..|lines| - 1], Last(lines);
      assert lines == before + [line];
      CollapseMeaning(before);
      assert NoRepeats(lines) ==> NoRepeats(before) && (before != [] ==> Last(before) != line);
    }
  }

  /** The remembered lines keep their order: they split the added ones into consecutive blocks,
      each made of one line, its repetitions and empty lines. */
  lemma CollapseKeepsOrder(lines: seq<string>)
    requires forall i :: 0 <= i < |lines| ==> |lines[i]| < SHELL_MAX_LINE_LEN
    ensures exists marks :: Marks(lines, Collapse(lines), marks)
  {
    var marks := CollapseMarks(lines);
  }

  ghost predicate NoRepeats(lines: seq<string>) {
    forall i :: 0 < i < |lines| ==> lines[i - 1] != lines[i]
  }

  /** k presses of Up from rest: the walk starts at the oldest retained line and moves
      towards the newest, where it stays. */
  function Ups(v: Ring, k: nat): Ring {
    if k == 0 then v else Prev(Ups(v, k - 1))
  }

  lemma {:induction false} UpWalksFromOldest(v: Ring, k: nat)
    requires v.Valid() && v.nav == -1 && v.kept != [] && k > 0
    ensures Ups(v, k).Valid() && Ups(v, k).kept == v.kept && Ups(v, k).nav >= 0
    ensures Ups(v, k).Shown() == v.kept[(if k <= |v.kept| then k else |v.kept|) - 1]
  {
    if k == 1 {
      assert Ups(v, 0) == v;
      assert Ups(v, 1) == Prev(Ups(v, 0));
    } else {
      UpWalksFromOldest(v, k - 1);
      UpNav(v, k - 1);
      UpNav(v, k);
    }
  }

  lemma {:induction false} UpNav(v: Ring, k: nat)
    requires v.Valid() && v.nav == -1 && v.kept != [] && k > 0
    ensures Ups(v, k).kept == v.kept
    ensures Ups(v, k).nav == if k <= |v.kept| then |v.kept| - k else 0
  {
    if k == 1 {
      assert Ups(v, 0) == v;
      assert Ups(v, 1) == Prev(Ups(v, 0));
    } else {
      UpNav(v, k - 1);
    }
  }

  /** k presses of Down. */
  function Downs(v: Ring, k: nat): Ring {
    if k == 0 then v else Next(Downs(v, k - 1))
  }

  /** What becomes of a line that is added: the empty one is passed over, a repetition of the newest
      only ends the navigation, and any other is kept as the newest of at most 20, up to 255
      characters of it. */
  lemma AddOutcome(v: Ring, line: string)
    requires v.Valid()
    ensures line == "" ==> Add(v, line) == v
    ensures line != "" ==> Add(v, line).Valid() && Add(v, line).nav == -1
    ensures line != "" && v.kept != [] && Last(v.kept) == line ==> Add(v, line).kept == v.kept
    ensures line != "" && (v.kept == [] || Last(v.kept) != line) ==>
              var newest := if |line| <= 255 then line else line[..255];
              Add(v, line).kept == (if |v.kept| < 20 then v.kept else v.kept[1..]) + [newest]
  {
  }

  /** From nav j Down moves towards the newest line too; after that it shows the empty line, once,
      and then nothing. */
  lemma {:induction false} DownWalksToNewest(v: Ring, k: nat)
    requires v.Valid() && v.nav >= 0
    ensures Downs(v, k).Valid() && Downs(v, k).kept == v.kept
    ensures Downs(v, k).nav == if k <= v.nav then v.nav - k else -1
    ensures NextText(Downs(v, k))
         == if k < v.nav then Some(v.kept[|v.kept| - v.nav + k]) else if k == v.nav then Some("") else None
  {
    if k > 0 {
      DownWalksToNewest(v, k - 1);
    }
  }

  /** So while there are newer lines Up and Down are the same key. */
  lemma UpIsDown(v: Ring)
    requires v.Valid() && v.nav > 0
    ensures Prev(v) == Next(v) && PrevText(v) == NextText(v)
  {
  }

  /** At rest Down recalls nothing and changes nothing. */
  lemma DownAtRest(v: Ring)
    requires v.Valid() && v.nav == -1
    ensures Next(v) == v && NextText(v) == None
  {
  }

  /** A first Up recalls the line entered last only if that is also the oldest one kept. */
  lemma FirstUpIsNewestIff(v: Ring)
    requires v.Valid() && v.nav == -1 && v.kept != []
    ensures PrevText(v) == Some(Last(v.kept)) <==> v.kept[0] == Last(v.kept)
  {
  }

  /** Two different lines entered on a fresh history: Up shows the older one. */
  lemma FirstUpShowsOldest()
    ensures PrevText(Add(Add(Ring([], -1), "ls"), "ps")) == Some("ls")
  {
  }
}
