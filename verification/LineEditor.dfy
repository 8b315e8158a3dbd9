/** The shell's line editor: a byte-driven escape state machine that edits a fixed buffer
    in place and recalls lines from the history. */
module LineEditor {
  import opened CStrings
  import opened ShellHistory

  // ---------------------------------------------------------------- the pure model

  /** The edited line, split at the cursor. */
  datatype Zipper = Zipper(left: string, right: string) {
    function Text(): string {
      left + right
    }
  }

  datatype Escape = Plain | AfterEsc | AfterBracket

  datatype Session = Session(line: Zipper, esc: Escape, hist: Ring)

  datatype Outcome =
    | Editing(session: Session)
    | Entered(text: string, hist: Ring)  // Enter
    | Closed(hist: Ring)                 // end of file; on a socket also a pause or a lost peer

  /** What one poll of the console yields: a byte, nothing within the timeout (on a socket also a
      closed peer), or an error. */
  datatype Event = Byte(c: char) | Nothing | Failure

  const CTRL_A: char := 1 as char
  const CTRL_C: char := 3 as char
  const CTRL_D: char := 4 as char
  const CTRL_E: char := 5 as char
  const BS: char := 8 as char
  const LF: char := 10 as char
  const CTRL_L: char := 12 as char
  const CR: char := 13 as char
  const CTRL_U: char := 21 as char
  const ESC: char := 27 as char
  const DEL: char := 127 as char

  predicate Printable(c: char) {
    ' ' <= c < DEL
  }

  predicate AllPrintable(s: string) {
    forall i :: 0 <= i < |s| ==> Printable(s[i])
  }

  const EMPTY := Zipper("", "")

  function Insert(z: Zipper, c: char): Zipper {
    z.(left := z.left + [c])
  }

  function Backspace(z: Zipper): Zipper {
    if z.left == "" then z else z.(left := z.left[..|z.left| - 1])
  }

  function DeleteAt(z: Zipper): Zipper {
    if z.right == "" then z else z.(right := z.right[1..])
  }

  function Left(z: Zipper): Zipper {
    if z.left == "" then z else Zipper(z.left[..|z.left| - 1], [Last(z.left)] + z.right)
  }

  function Right(z: Zipper): Zipper {
    if z.right == "" then z else Zipper(z.left + [z.right[0]], z.right[1..])
  }

  function Home(z: Zipper): Zipper {
    Zipper("", z.Text())
  }

  function End(z: Zipper): Zipper {
    Zipper(z.Text(), "")
  }

  /** A recalled line replaces the edited one, cut to the buffer; the cursor goes to its end. */
  function Recall(z: Zipper, r: Option<string>, cap: nat): Zipper {
    if r.Some? then Zipper(Prefix(r.value, cap), "") else z
  }

  /** The last byte of an ESC [ x sequence. cap is the longest line the buffer holds. */
  function Bracket(s: Session, c: char, cap: nat): Session
    requires s.hist.Valid()
  {
    var line :=
      match c
      case 'A' => Recall(s.line, PrevText(s.hist), cap)
      case 'B' => Recall(s.line, NextText(s.hist), cap)
      case 'C' => Right(s.line)
      case 'D' => Left(s.line)
      case 'H' => Home(s.line)
      case '1' => Home(s.line)
      case 'F' => End(s.line)
      case '4' => End(s.line)
      case '3' => DeleteAt(s.line)
      case _ => s.line;
    var hist := if c == 'A' then Prev(s.hist) else if c == 'B' then Next(s.hist) else s.hist;
    Session(line, Plain, hist)
  }

  /** A byte outside any escape sequence. */
  function Key(s: Session, c: char, cap: nat): Outcome {
    var z := s.line;
    if c == ESC then Editing(s.(esc := AfterEsc))
    else if c == CR || c == LF then Entered(z.Text(), Add(s.hist, z.Text()))
    else if c == DEL || c == BS then Editing(s.(line := Backspace(z)))
    else if c == CTRL_C || c == CTRL_U then Editing(s.(line := EMPTY))
    else if c == CTRL_D then if z.Text() == "" then Closed(s.hist) else Editing(s)
    else if c == CTRL_A then Editing(s.(line := Home(z)))
    else if c == CTRL_E then Editing(s.(line := End(z)))
    else if Printable(c) && |z.Text()| < cap then Editing(s.(line := Insert(z, c)))
    else Editing(s)
  }

  function Feed(s: Session, c: char, cap: nat): Outcome
    requires s.hist.Valid()
  {
    match s.esc
    case Plain => Key(s, c, cap)
    case AfterEsc =>
      if c == '[' then Editing(s.(esc := AfterBracket)) else Key(s.(esc := Plain), c, cap)
    case AfterBracket => Editing(Bracket(s, c, cap))
  }

  function Poll(s: Session, e: Event, cap: nat, socket: bool): Outcome
    requires s.hist.Valid()
  {
    match e
    case Byte(c) => Feed(s, c, cap)
    case Nothing => if socket then Closed(s.hist) else Editing(s)
    case Failure => Editing(s)
  }

  /** The whole call, for a given stream of polls; Editing means it is still waiting. */
  function Read(s: Session, events: seq<Event>, cap: nat, socket: bool): Outcome
    requires s.hist.Valid()
    decreases |events|
  {
    if events == [] then Editing(s)
    else
      var o := Poll(s, events[0], cap, socket);
      PollKeepsHistory(s, events[0], cap, socket);
      if o.Editing? then Read(o.session, events[1..], cap, socket) else o
  }

  function HistoryOf(o: Outcome): Ring {
    if o.Editing? then o.session.hist else o.hist
  }

  lemma PollKeepsHistory(s: Session, e: Event, cap: nat, socket: bool)
    requires s.hist.Valid()
    ensures HistoryOf(Poll(s, e, cap, socket)).Valid()
  {
  }

  // ---------------------------------------------------------------- the edit buffer

  lemma KeptNulFree(text: string, m: seq<char>, k: nat, len: nat)
    requires k <= len < |m| && |text| == len + 1 && NulFree(text)
    requires m[..k] == text[..k] && m[k..len] == text[k + 1..]
    ensures forall i :: 0 <= i < len ==> m[i] != NUL
  {
    forall i | 0 <= i < len
      ensures m[i] != NUL
    {
      assert i < k ==> m[i] == m[..k][i] == text[i];
      assert i >= k ==> m[i] == m[k..len][i - k] == text[i + 1];
    }
  }

  /** The buffer of shell_readline with its length and cursor; size is the caller's buf_sz. */
  class EditBuffer {
    const buf: array<char>
    const size: nat
    var len: nat
    var cursor: nat

    ghost predicate Valid()
      reads this, buf
    {
      && 0 < size <= buf.Length == SHELL_MAX_LINE_LEN
      && cursor <= len < size
      && (forall i :: 0 <= i < len ==> buf[i] != NUL)
      && forall i :: size - 1 <= i < buf.Length ==> buf[i] == NUL
    }

    function View(): Zipper
      reads this, buf
      requires cursor <= len <= buf.Length
    {
      Zipper(buf[..cursor], buf[cursor..len])
    }

    constructor (size: nat)
      requires 0 < size <= SHELL_MAX_LINE_LEN
      ensures Valid() && fresh(buf) && this.size == size && View() == EMPTY
    {
      this.size := size;
      buf := new char[SHELL_MAX_LINE_LEN](i => NUL);
      len, cursor := 0, 0;
    }

    method Put(c: char)
      requires Valid() && c != NUL
      modifies this, buf
      ensures Valid()
      ensures View() == if |old(View()).Text()| < size - 1 then Insert(old(View()), c) else old(View())
    {
      if len < size - 1 {
        MakeRoom();
        buf[cursor] := c;
        len := len + 1;
        cursor := cursor + 1;
        assert View().left == old(View()).left + [c];
        assert View().right == old(View()).right;
      }
    }

    /** Moves the text from the cursor on one place to the right, if there is any. */
    method MakeRoom()
      requires Valid() && len < size - 1
      modifies buf
      ensures forall i :: 0 <= i < cursor ==> buf[i] == old(buf[i])
      ensures forall i :: cursor < i <= len ==> buf[i] == old(buf[i - 1])
      ensures forall i :: len < i < buf.Length ==> buf[i] == old(buf[i])
    {
      if cursor < len {
        MemMove(buf, cursor + 1, cursor, len - cursor);
      }
    }

    /** Moves the text behind index k down over the character at k. */
    method RemoveAt(k: nat)
      requires k < len < buf.Length
      modifies this`len, buf
      ensures len == old(len) - 1 && buf[len] == NUL
      ensures buf[..k] == old(buf[..k]) && buf[k..len] == old(buf[k + 1..len])
      ensures forall i :: len < i < buf.Length ==> buf[i] == old(buf[i])
    {
      MemMove(buf, k, k + 1, len - k - 1);
      len := len - 1;
      buf[len] := NUL;
    }

    method Rubout()
      requires Valid()
      modifies this, buf
      ensures Valid() && View() == Backspace(old(View()))
    {
      if cursor > 0 && len > 0 {
        ghost var text := buf[..len];
        assert NulFree(text);
        RemoveAt(cursor - 1);
        cursor := cursor - 1;
        KeptNulFree(text, buf[..], cursor, len);
      }
    }

    method Delete()
      requires Valid()
      modifies this, buf
      ensures Valid() && View() == DeleteAt(old(View()))
    {
      if cursor < len {
        ghost var text := buf[..len];
        assert NulFree(text);
        RemoveAt(cursor);
        KeptNulFree(text, buf[..], cursor, len);
      }
    }

    method MoveLeft()
      requires Valid()
      modifies this`cursor
      ensures Valid() && View() == Left(old(View()))
    {
      if cursor > 0 {
        cursor := cursor - 1;
      }
    }

    method MoveRight()
      requires Valid()
      modifies this`cursor
      ensures Valid() && View() == Right(old(View()))
    {
      if cursor < len {
        cursor := cursor + 1;
      }
    }

    method MoveHome()
      requires Valid()
      modifies this`cursor
      ensures Valid() && View() == Home(old(View()))
    {
      assert View().Text() == buf[..len];
      cursor := 0;
    }

    method MoveEnd()
      requires Valid()
      modifies this`cursor
      ensures Valid() && View() == End(old(View()))
    {
      assert View().Text() == buf[..len];
      cursor := len;
    }

    /** Ctrl+C: only the first byte is cleared; older bytes stay behind the new length. */
    method Cancel()
      requires Valid()
      modifies this, buf
      ensures Valid() && View() == EMPTY
    {
      buf[0] := NUL;
      len, cursor := 0, 0;
    }

    /** Ctrl+U */
    method KillLine()
      requires Valid()
      modifies this, buf
      ensures Valid() && View() == EMPTY
    {
      if len > 0 {
        forall i | 0 <= i < buf.Length {
          buf[i] := NUL;
        }
        len, cursor := 0, 0;
      }
    }

    /** Replaces the line by a recalled one. */
    method Load(r: Option<string>)
      requires Valid() && (r.Some? ==> NulFree(r.value))
      modifies this, buf
      ensures Valid() && View() == Recall(old(View()), r, size - 1)
    {
      if r.Some? {
        var text := Prefix(r.value, size - 1);
        StrNCpy(buf, r.value, size - 1);
        assert HoldsAt(buf[..], 0, text);
        ReadBack(buf[..], 0, text);
        len := |StrAt(buf[..], 0)|;
        cursor := len;
        assert buf[..len] == text;
      }
    }

    /** Enter: terminates the line and copies it out. */
    method CopyOut(out: array<char>)
      requires Valid() && out.Length >= size && out != buf
      modifies buf, out
      ensures Valid() && View() == old(View())
      ensures HoldsAt(out[..], 0, View().Text()) && StrAt(buf[..], 0) == View().Text()
    {
      ghost var text := View().Text();
      assert text == buf[..len];
      buf[len] := NUL;
      assert buf[..len] == text && HoldsAt(buf[..], 0, text);
      ReadBack(buf[..], 0, text);
      StrNCpy(out, StrAt(buf[..], 0), size - 1);
      out[size - 1] := NUL;
      assert out[..len] == text;
    }
  }

  // ---------------------------------------------------------------- shell_readline

  datatype Result =
    | Returned(n: int)                        // the length of the line, or -1
    | Waiting(line: Zipper, esc: Escape)      // no more input yet

  /** The history and the caller's buffer are left as the outcome says. */
  ghost predicate Delivers(o: Outcome, r: Result, hist: History, out: array<char>, before: seq<char>)
    reads hist, hist.lines, out
  {
    && hist.Valid() && hist.View() == HistoryOf(o)
    && match o
       case Editing(s) => r == Waiting(s.line, s.esc) && out[..] == before
       case Entered(text, _) => r == Returned(|text|) && HoldsAt(out[..], 0, text)
       case Closed(_) => r == Returned(-1) && out[..] == before
  }

  /** ... and so is the edit buffer. */
  ghost predicate Shows(o: Outcome, r: Result, e: EditBuffer, hist: History, out: array<char>, before: seq<char>)
    requires e.Valid()
    reads e, e.buf, hist, hist.lines, out
  {
    Delivers(o, r, hist, out, before) && (o.Editing? ==> e.View() == o.session.line)
  }

  method OnBracket(e: EditBuffer, hist: History, c: char)
    requires e.Valid() && hist.Valid()
    modifies e, e.buf, hist
    ensures e.Valid() && hist.Valid()
    ensures Session(e.View(), Plain, hist.View())
         == Bracket(Session(old(e.View()), AfterBracket, old(hist.View())), c, e.size - 1)
  {
    match c {
      case 'A' =>
        var h := hist.PrevLine();
        e.Load(h);
      case 'B' =>
        var h := hist.NextLine();
        e.Load(h);
      case 'C' => e.MoveRight();
      case 'D' => e.MoveLeft();
      case 'H' => e.MoveHome();
      case '1' => e.MoveHome();
      case 'F' => e.MoveEnd();
      case '4' => e.MoveEnd();
      case '3' => e.Delete();
      case _ =>
    }
  }

  method OnEnter(e: EditBuffer, hist: History, out: array<char>) returns (r: Result)
    requires e.Valid() && hist.Valid() && out.Length >= e.size && out != e.buf
    modifies e.buf, hist, hist.lines, out
    ensures e.Valid()
    ensures Shows(Key(Session(old(e.View()), Plain, old(hist.View())), CR, e.size - 1),
                  r, e, hist, out, old(out[..]))
  {
    e.CopyOut(out);
    hist.AddLine(StrAt(e.buf[..], 0));
    r := Returned(e.len);
  }

  method OnEdit(e: EditBuffer, c: char)
    requires e.Valid() && c != ESC && c != CR && c != LF && c != CTRL_D
    modifies e, e.buf
    ensures e.Valid()
    ensures forall h :: Key(Session(old(e.View()), Plain, h), c, e.size - 1)
                     == Editing(Session(e.View(), Plain, h))
  {
    if c == DEL || c == BS {
      e.Rubout();
    } else if c == CTRL_C {
      e.Cancel();
    } else if c == CTRL_L {
      // redraw only
    } else if c == CTRL_U {
      e.KillLine();
    } else if c == CTRL_A {
      e.MoveHome();
    } else if c == CTRL_E {
      e.MoveEnd();
    } else if Printable(c) {
      e.Put(c);
    }
  }

  method OnKey(e: EditBuffer, hist: History, c: char, out: array<char>) returns (r: Result)
    requires e.Valid() && hist.Valid() && out.Length >= e.size && out != e.buf
    modifies e, e.buf, hist, hist.lines, out
    ensures e.Valid()
    ensures Shows(Key(Session(old(e.View()), Plain, old(hist.View())), c, e.size - 1),
                  r, e, hist, out, old(out[..]))
  {
    if c == ESC {
      r := Waiting(e.View(), AfterEsc);
    } else if c == CR || c == LF {
      r := OnEnter(e, hist, out);
    } else if c == CTRL_D {
      r := if e.len == 0 then Returned(-1) else Waiting(e.View(), Plain);
    } else {
      OnEdit(e, c);
      r := Waiting(e.View(), Plain);
    }
  }

  method OnByte(e: EditBuffer, hist: History, esc: Escape, c: char, out: array<char>) returns (r: Result)
    requires e.Valid() && hist.Valid() && out.Length >= e.size && out != e.buf
    modifies e, e.buf, hist, hist.lines, out
    ensures e.Valid()
    ensures Shows(Feed(Session(old(e.View()), esc, old(hist.View())), c, e.size - 1),
                  r, e, hist, out, old(out[..]))
  {
    if esc == AfterEsc && c == '[' {
      r := Waiting(e.View(), AfterBracket);
    } else if esc == AfterBracket {
      OnBracket(e, hist, c);
      r := Waiting(e.View(), Plain);
    } else {
      r := OnKey(e, hist, c, out);
    }
  }

  method OnPoll(e: EditBuffer, hist: History, esc: Escape, event: Event, socket: bool, out: array<char>)
    returns (r: Result)
    requires e.Valid() && hist.Valid() && out.Length >= e.size && out != e.buf
    modifies e, e.buf, hist, hist.lines, out
    ensures e.Valid()
    ensures Shows(Poll(Session(old(e.View()), esc, old(hist.View())), event, e.size - 1, socket),
                  r, e, hist, out, old(out[..]))
  {
    match event {
      case Byte(c) => r := OnByte(e, hist, esc, c, out);
      case Nothing => r := if socket then Returned(-1) else Waiting(e.View(), esc);
      case Failure => r := Waiting(e.View(), esc);
    }
  }

  method ReadInto(e: EditBuffer, socket: bool, out: array<char>, hist: History, events: seq<Event>)
    returns (r: Result, ghost o: Outcome)
    requires e.Valid() && hist.Valid() && out.Length >= e.size && out != e.buf
    modifies e, e.buf, hist, hist.lines, out
    ensures e.Valid()
    ensures o == Read(Session(old(e.View()), Plain, old(hist.View())), events, e.size - 1, socket)
    ensures Shows(o, r, e, hist, out, old(out[..]))
  {
    ghost var before, start := out[..], Session(e.View(), Plain, hist.View());
    o := Editing(start);
    r := Waiting(e.View(), Plain);
    var i := 0;
    while i < |events| && r.Waiting?
      invariant 0 <= i <= |events|
      invariant e.Valid()
      invariant Shows(o, r, e, hist, out, before)
      invariant Read(start, events, e.size - 1, socket)
             == if o.Editing? then Read(o.session, events[i..], e.size - 1, socket) else o
    {
      ghost var s := o.session;
      r := OnPoll(e, hist, r.esc, events[i], socket, out);
      o := Poll(s, events[i], e.size - 1, socket);
      assert events[i..][1..] == events[i + 1..];
      i := i + 1;
    }
  }

  /** shell_readline against every stream of console polls: the buffer and cursor follow the
      zipper editor byte by byte, and Enter hands out exactly the edited line. */
  method ReadLine(socket: bool, out: array<char>, size: nat, hist: History, events: seq<Event>)
    returns (r: Result)
    requires 0 < size <= SHELL_MAX_LINE_LEN && out.Length >= size && hist.Valid()
    modifies out, hist, hist.lines
    ensures Delivers(Read(Session(EMPTY, Plain, old(hist.View())), events, size - 1, socket),
                     r, hist, out, old(out[..]))
  {
    var e := new EditBuffer(size);
    ghost var o;
    r, o := ReadInto(e, socket, out, hist, events);
  }

  // ---------------------------------------------------------------- what the editor promises

  ghost predicate PrintableLines(lines: seq<string>) {
    forall i :: 0 <= i < |lines| ==> AllPrintable(lines[i])
  }

  ghost predicate SoundLine(z: Zipper, cap: nat) {
    AllPrintable(z.left) && AllPrintable(z.right) && |z.left| + |z.right| <= cap
  }

  ghost predicate SoundHistory(h: Ring) {
    h.Valid() && PrintableLines(h.kept)
  }

  ghost predicate Sound(s: Session, cap: nat) {
    SoundLine(s.line, cap) && SoundHistory(s.hist)
  }

  lemma BracketIsSound(s: Session, c: char, cap: nat)
    requires Sound(s, cap)
    ensures Sound(Bracket(s, c, cap), cap)
  {
  }

  lemma KeyIsSound(s: Session, c: char, cap: nat)
    requires Sound(s, cap) && cap < SHELL_MAX_LINE_LEN
    ensures
      match Key(s, c, cap)
      case Editing(s') => Sound(s', cap)
      case Entered(text, h) => AllPrintable(text) && |text| <= cap && SoundHistory(h)
      case Closed(h) => SoundHistory(h)
  {
    assert AllPrintable(s.line.Text());
  }

  /** Whatever bytes arrive, the line that Enter returns is printable text that fits the
      caller's buffer, and so is everything the history holds afterwards. */
  lemma {:induction false} ReadIsSound(s: Session, events: seq<Event>, cap: nat, socket: bool)
    requires Sound(s, cap) && cap < SHELL_MAX_LINE_LEN
    ensures
      match Read(s, events, cap, socket)
      case Editing(s') => Sound(s', cap)
      case Entered(text, h) =>
        AllPrintable(text) && NulFree(text) && |text| <= cap && SoundHistory(h)
      case Closed(h) => SoundHistory(h)
    decreases |events|
  {
    if events == [] {
    } else {
      match events[0] {
        case Byte(c) =>
          BracketIsSound(s, c, cap);
          KeyIsSound(s.(esc := Plain), c, cap);
        case _ =>
      }
      var o := Poll(s, events[0], cap, socket);
      if o.Editing? {
        ReadIsSound(o.session, events[1..], cap, socket);
      }
    }
  }

  // ---------------------------------------------------------------- sessions at the keyboard

  function Bytes(text: string): (r: seq<Event>)
    ensures |r| == |text| && forall i :: 0 <= i < |text| ==> r[i] == Byte(text[i])
  {
    seq(|text|, i requires 0 <= i < |text| => Byte(text[i]))
  }

  lemma {:induction false} ReadInParts(s: Session, a: seq<Event>, b: seq<Event>, cap: nat, socket: bool)
    requires s.hist.Valid()
    ensures HistoryOf(Read(s, a, cap, socket)).Valid()
    ensures
      var o := Read(s, a, cap, socket);
      Read(s, a + b, cap, socket) == if o.Editing? then Read(o.session, b, cap, socket) else o
    decreases |a|
  {
    if a == [] {
      assert a + b == b;
    } else {
      PollKeepsHistory(s, a[0], cap, socket);
      assert (a + b)[1..] == a[1..] + b;
      var o := Poll(s, a[0], cap, socket);
      if o.Editing? {
        ReadInParts(o.session, a[1..], b, cap, socket);
      }
    }
  }

  lemma TypingOneByte(s: Session, c: char, cap: nat, socket: bool)
    requires s.hist.Valid() && s.esc == Plain && Printable(c)
    ensures Read(s, [Byte(c)], cap, socket)
         == Editing(if |s.line.Text()| < cap then s.(line := Insert(s.line, c)) else s)
  {
  }

  /** What typing text at the cursor of z leaves: as much of it as still fits. */
  function Typed(z: Zipper, text: string, cap: nat): Zipper
    requires |z.Text()| <= cap
  {
    z.(left := z.left + Prefix(text, cap - |z.Text()|))
  }

  /** Typed text goes in at the cursor, in order, until the buffer is full. */
  lemma {:induction false} TypingInserts(s: Session, text: string, cap: nat, socket: bool)
    requires s.hist.Valid() && s.esc == Plain && AllPrintable(text) && |s.line.Text()| <= cap
    ensures Read(s, Bytes(text), cap, socket) == Editing(s.(line := Typed(s.line, text, cap)))
    decreases |text|
  {
    if text == "" {
      assert Typed(s.line, text, cap).left == s.line.left;
    } else {
      var shorter, c := text[..|text| - 1], Last(text);
      TypingInserts(s, shorter, cap, socket);
      assert Bytes(text) == Bytes(shorter) + [Byte(c)];
      ReadInParts(s, Bytes(shorter), [Byte(c)], cap, socket);
      TypingOneByte(s.(line := Typed(s.line, shorter, cap)), c, cap, socket);
      assert Typed(s.line, text, cap).left
          == if |text| <= cap - |s.line.Text()| then s.line.left + shorter + [c]
             else Typed(s.line, shorter, cap).left;
    }
  }

  /** Every printable line that fits can be entered, and Enter gives back exactly that line. */
  lemma EnterReturnsTyped(h: Ring, text: string, cap: nat, socket: bool)
    requires h.Valid() && AllPrintable(text) && |text| <= cap
    ensures Read(Session(EMPTY, Plain, h), Bytes(text) + [Byte(CR)], cap, socket)
         == Entered(text, Add(h, text))
  {
    var s := Session(EMPTY, Plain, h);
    TypingInserts(s, text, cap, socket);
    ReadInParts(s, Bytes(text), [Byte(CR)], cap, socket);
    assert "" + text == text && text + "" == text;
  }

  /** As many backspaces as characters typed take the line back to what it was. */
  lemma {:induction false} BackspacesUndoTyping(s: Session, text: string, cap: nat, socket: bool)
    requires s.hist.Valid() && s.esc == Plain && AllPrintable(text)
    requires |s.line.Text()| + |text| <= cap
    ensures Read(s, Bytes(text) + seq(|text|, i => Byte(DEL)), cap, socket) == Editing(s)
    decreases |text|
  {
    var dels := seq(|text|, i => Byte(DEL));
    if text == "" {
      assert Bytes(text) + dels == [];
    } else {
      var shorter := text[..|text| - 1];
      var fewer := seq(|shorter|, i => Byte(DEL));
      assert text == shorter + [Last(text)];
      TypingInserts(s, text, cap, socket);
      TypingInserts(s, shorter, cap, socket);
      ReadInParts(s, Bytes(text), dels, cap, socket);
      ReadInParts(s, Bytes(shorter), fewer, cap, socket);
      assert dels[1..] == fewer;
      var full := s.line.(left := s.line.left + text);
      assert Backspace(full).left == s.line.left + shorter;
      BackspacesUndoTyping(s, shorter, cap, socket);
    }
  }

  lemma LeftIsSound(z: Zipper)
    ensures Left(z).Text() == z.Text()
    ensures z.left != "" ==> Right(Left(z)) == z && DeleteAt(Left(z)) == Backspace(z)
  {
    if z.left != "" {
      var rest, c := z.left[..|z.left| - 1], Last(z.left);
      assert rest + [c] == z.left && ([c] + z.right)[1..] == z.right;
      PushAssoc(rest, c, z.right);
    }
  }

  lemma RightIsSound(z: Zipper)
    ensures Right(z).Text() == z.Text()
    ensures z.right != "" ==> Left(Right(z)) == z
  {
    if z.right != "" {
      var c, rest := z.right[0], z.right[1..];
      assert [c] + rest == z.right && (z.left + [c])[..|z.left|] == z.left;
      PushAssoc(z.left, c, rest);
    }
  }

  lemma EndsKeepText(z: Zipper)
    ensures Home(z).Text() == End(z).Text() == z.Text()
  {
    assert "" + z.Text() == z.Text() && z.Text() + "" == z.Text();
  }

  /** Cursor movement never changes the text, and each move undoes its opposite. */
  lemma CursorMovesKeepText(z: Zipper)
    ensures Left(z).Text() == Right(z).Text() == Home(z).Text() == End(z).Text() == z.Text()
    ensures z.left != "" ==> Right(Left(z)) == z
    ensures z.right != "" ==> Left(Right(z)) == z
    ensures z.left != "" ==> DeleteAt(Left(z)) == Backspace(z)
  {
    LeftIsSound(z);
    RightIsSound(z);
    EndsKeepText(z);
  }

  // ---------------------------------------------------------------- pauses

  /** The bytes of a stream, without the polls that yield none. */
  function Keys(events: seq<Event>): seq<Event> {
    if events == [] then []
    else if events[0].Byte? then [events[0]] + Keys(events[1..])
    else Keys(events[1..])
  }

  /** On the serial line pauses and errors change nothing: only the bytes count. */
  lemma {:induction false} PausesDoNotMatter(s: Session, events: seq<Event>, cap: nat)
    requires s.hist.Valid()
    ensures Read(s, events, cap, false) == Read(s, Keys(events), cap, false)
    decreases |events|
  {
    if events == [] {
    } else {
      var o, rest := Poll(s, events[0], cap, false), events[1..];
      PollKeepsHistory(s, events[0], cap, false);
      if o.Editing? {
        PausesDoNotMatter(o.session, rest, cap);
      }
      if events[0].Byte? {
        assert Keys(events)[0] == events[0] && Keys(events)[1..] == Keys(rest);
      }
    }
  }

  /** The beginning of a stream, up to the first poll that yields nothing. */
  function BeforePause(events: seq<Event>): (r: seq<Event>)
    ensures r <= events && Nothing !in r
    ensures |r| < |events| ==> events[|r|] == Nothing
  {
    if events == [] || events[0] == Nothing then [] else [events[0]] + BeforePause(events[1..])
  }

  /** On a socket the call behaves as on the serial line up to the first empty poll, and that
      poll ends it with -1. */
  lemma {:induction false} FirstPauseCloses(s: Session, events: seq<Event>, cap: nat)
    requires s.hist.Valid()
    ensures HistoryOf(Read(s, BeforePause(events), cap, false)).Valid()
    ensures
      var o := Read(s, BeforePause(events), cap, false);
      Read(s, events, cap, true) == if o.Editing? && Nothing in events then Closed(o.session.hist) else o
    decreases |events|
  {
    if events == [] {
    } else if events[0] != Nothing {
      var o, before := Poll(s, events[0], cap, true), BeforePause(events);
      PollKeepsHistory(s, events[0], cap, true);
      assert before[0] == events[0] && before[1..] == BeforePause(events[1..]);
      assert Nothing in events <==> Nothing in events[1..];
      if o.Editing? {
        FirstPauseCloses(o.session, events[1..], cap);
      }
    }
  }

  /** So a Telnet session gets a line if and only if the bytes up to Enter come without a pause:
      exactly the line that the serial line would return for them. */
  lemma SocketLineIff(s: Session, events: seq<Event>, cap: nat, text: string, h: Ring)
    requires s.hist.Valid()
    ensures Read(s, events, cap, true) == Entered(text, h)
            <==> Read(s, Keys(BeforePause(events)), cap, false) == Entered(text, h)
  {
    FirstPauseCloses(s, events, cap);
    PausesDoNotMatter(s, BeforePause(events), cap);
  }

  // ---------------------------------------------------------------- escape sequences

  const UP: seq<Event> := [Byte(ESC), Byte('['), Byte('A')]

  function UpKeys(k: nat): seq<Event> {
    if k == 0 then [] else UpKeys(k - 1) + UP
  }

  lemma UpKeyRecalls(s: Session, cap: nat, socket: bool)
    requires s.hist.Valid() && s.esc == Plain
    ensures Read(s, UP, cap, socket)
         == Editing(Session(Recall(s.line, PrevText(s.hist), cap), Plain, Prev(s.hist)))
  {
    var s1 := s.(esc := AfterEsc);
    var s2 := s.(esc := AfterBracket);
    assert UP[1..] == [Byte('['), Byte('A')] && UP[1..][1..] == [Byte('A')] && UP[1..][1..][1..] == [];
    assert Poll(s, UP[0], cap, socket) == Editing(s1);
    assert Poll(s1, UP[1..][0], cap, socket) == Editing(s2);
    var s3 := Session(Recall(s.line, PrevText(s.hist), cap), Plain, Prev(s.hist));
    assert Poll(s2, UP[1..][1..][0], cap, socket) == Editing(s3);
    assert Read(s2, UP[1..][1..], cap, socket) == Read(s3, [], cap, socket);
    assert Read(s1, UP[1..], cap, socket) == Read(s2, UP[1..][1..], cap, socket);
  }

  /** k presses of Up show the k-th oldest retained line; past the newest they stay on it. */
  lemma {:induction false} UpKeysWalkHistory(s: Session, k: nat, cap: nat, socket: bool)
    requires s.hist.Valid() && s.hist.nav == -1 && s.hist.kept != [] && s.esc == Plain && k > 0
    ensures
      var kept := s.hist.kept;
      var shown := kept[(if k <= |kept| then k else |kept|) - 1];
      Read(s, UpKeys(k), cap, socket)
      == Editing(Session(Zipper(Prefix(shown, cap), ""), Plain, Ups(s.hist, k)))
  {
    UpWalksFromOldest(s.hist, k);
    assert Ups(s.hist, k) == Prev(Ups(s.hist, k - 1));
    if k == 1 {
      assert Ups(s.hist, 0) == s.hist;
      assert UpKeys(0) + UP == UP;
      UpKeyRecalls(s, cap, socket);
    } else {
      UpWalksFromOldest(s.hist, k - 1);
      UpKeysWalkHistory(s, k - 1, cap, socket);
      ReadInParts(s, UpKeys(k - 1), UP, cap, socket);
      UpKeyRecalls(Read(s, UpKeys(k - 1), cap, socket).session, cap, socket);
    }
  }

  /** A key that sends ESC [ c ~ , such as Home (1), Delete (3) and End (4) on many terminals. */
  function TildeKey(c: char): seq<Event> {
    [Byte(ESC), Byte('['), Byte(c), Byte('~')]
  }

  /** Typing a tilde, which a full line ignores. */
  function WithTilde(z: Zipper, cap: nat): Zipper {
    if |z.Text()| < cap then Insert(z, '~') else z
  }

  /** Every such key acts at its third byte, and its last one is then taken as ordinary input. */
  lemma TildeKeyEffect(s: Session, c: char, cap: nat, socket: bool)
    requires s.hist.Valid() && s.esc == Plain
    ensures
      var acted := Bracket(s.(esc := AfterBracket), c, cap);
      Read(s, TildeKey(c), cap, socket) == Editing(acted.(line := WithTilde(acted.line, cap)))
  {
    var keys := TildeKey(c);
    var s1, s2 := s.(esc := AfterEsc), s.(esc := AfterBracket);
    var s3 := Bracket(s2, c, cap);
    assert keys[1..] == [Byte('['), Byte(c), Byte('~')];
    assert keys[1..][1..] == [Byte(c), Byte('~')];
    assert keys[1..][1..][1..] == [Byte('~')] && keys[1..][1..][1..][1..] == [];
    assert Poll(s, keys[0], cap, socket) == Editing(s1);
    assert Poll(s1, keys[1..][0], cap, socket) == Editing(s2);
    assert Poll(s2, keys[1..][1..][0], cap, socket) == Editing(s3);
    PollKeepsHistory(s2, Byte(c), cap, socket);
    assert Read(s2, keys[1..][1..], cap, socket) == Read(s3, keys[1..][1..][1..], cap, socket);
    assert Read(s1, keys[1..], cap, socket) == Read(s2, keys[1..][1..], cap, socket);
    TypingOneByte(s3, '~', cap, socket);
  }

  /** Home and End move the cursor and no more if and only if the line is full. */
  lemma HomeEndMoveIff(s: Session, cap: nat, socket: bool)
    requires s.hist.Valid() && s.esc == Plain && |s.line.Text()| <= cap
    ensures Read(s, TildeKey('1'), cap, socket) == Editing(s.(line := Home(s.line))) <==> |s.line.Text()| == cap
    ensures Read(s, TildeKey('4'), cap, socket) == Editing(s.(line := End(s.line))) <==> |s.line.Text()| == cap
  {
    TildeKeyEffect(s, '1', cap, socket);
    TildeKeyEffect(s, '4', cap, socket);
    EndsKeepText(s.line);
    assert Insert(Home(s.line), '~').left != Home(s.line).left;
    assert Insert(End(s.line), '~').left != End(s.line).left;
  }

  const DELETE: seq<Event> := TildeKey('3')

  /** The Delete key deletes, if the cursor is not at the end, and then types a tilde. */
  lemma DeleteKeyEffect(s: Session, cap: nat, socket: bool)
    requires s.hist.Valid() && s.esc == Plain
    ensures Read(s, DELETE, cap, socket) == Editing(s.(line := WithTilde(DeleteAt(s.line), cap)))
  {
    TildeKeyEffect(s, '3', cap, socket);
  }

  lemma DeletedLength(z: Zipper)
    ensures |DeleteAt(z).Text()| == |z.Text()| - if z.right == "" then 0 else 1
  {
  }

  /** The Delete key does what its name says only where there is nothing to delete and no room
      for the tilde: at the end of a full line. */
  lemma DeleteKeyDeletesIff(s: Session, cap: nat, socket: bool)
    requires s.hist.Valid() && s.esc == Plain && |s.line.Text()| <= cap
    ensures Read(s, DELETE, cap, socket) == Editing(s.(line := DeleteAt(s.line)))
            <==> s.line.right == "" && |s.line.Text()| == cap
  {
    DeleteKeyEffect(s, cap, socket);
    DeletedLength(s.line);
    assert Insert(DeleteAt(s.line), '~').left != DeleteAt(s.line).left;
  }

  /** In front of the cursor's character the key replaces it by a tilde. */
  lemma DeleteKeyLeavesTilde(s: Session, cap: nat, socket: bool)
    requires s.hist.Valid() && s.esc == Plain && |s.line.Text()| <= cap && s.line.right != ""
    ensures Read(s, DELETE, cap, socket)
         == Editing(s.(line := Zipper(s.line.left + "~", s.line.right[1..])))
  {
    DeleteKeyEffect(s, cap, socket);
    DeletedLength(s.line);
  }
}
