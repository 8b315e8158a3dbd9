/** What the keys of the line editor do, told in the bytes they send and the lines that Enter
    returns, without reference to the editing operations themselves. */
module Keyboard {
  import opened CStrings
  import opened ShellHistory
  import opened LineEditor

  /** A session at rest, with a in front of the cursor and b behind it. */
  function At(h: Ring, a: string, b: string): Session {
    Session(Zipper(a, b), Plain, h)
  }

  function Send(codes: seq<nat>): seq<Event>
    requires forall i :: 0 <= i < |codes| ==> codes[i] < 256
  {
    seq(|codes|, i requires 0 <= i < |codes| => Byte(codes[i] as char))
  }

  /** The same key n times. */
  function Times(key: seq<Event>, n: nat): seq<Event> {
    if n == 0 then [] else key + Times(key, n - 1)
  }

  // Arrow and position keys send ESC [ and a letter; the control keys send one byte.
  const LEFT := Send([27, 91, 68])
  const RIGHT := Send([27, 91, 67])
  const HOMES := {Send([27, 91, 72]), Send([27, 91, 49]), Send([1])}
  const ENDS := {Send([27, 91, 70]), Send([27, 91, 52]), Send([5])}
  const KILLS := {Send([3]), Send([21])}
  const RUBOUTS := {Send([8]), Send([127])}
  const ENTERS := {Send([13]), Send([10])}
  const EOF := Send([4])

  /** The printable characters are the 95 of ASCII, from the space to the tilde. */
  lemma PrintableIs(c: char)
    ensures Printable(c) <==> 32 <= c as int <= 126
  {
  }

  // ---------------------------------------------------------------- one key

  /** What has been read so far decides where reading goes on. */
  lemma Then(s: Session, first: seq<Event>, t: Session, more: seq<Event>, cap: nat, socket: bool)
    requires s.hist.Valid() && Read(s, first, cap, socket) == Editing(t)
    ensures t.hist.Valid() && Read(s, first + more, cap, socket) == Read(t, more, cap, socket)
  {
    ReadInParts(s, first, more, cap, socket);
  }

  lemma OneByte(s: Session, code: nat, cap: nat, socket: bool)
    requires s.hist.Valid() && s.esc == Plain && code < 256
    ensures Read(s, Send([code]), cap, socket) == Key(s, code as char, cap)
  {
    var o := Key(s, code as char, cap);
    assert Send([code])[1..] == [] && Poll(s, Send([code])[0], cap, socket) == o;
    PollKeepsHistory(s, Byte(code as char), cap, socket);
    assert o.Editing? ==> Read(o.session, [], cap, socket) == o;
  }

  lemma ThreeBytes(s: Session, code: nat, cap: nat, socket: bool)
    requires s.hist.Valid() && s.esc == Plain && code < 256
    ensures Read(s, Send([27, 91, code]), cap, socket)
         == Editing(Bracket(s.(esc := AfterBracket), code as char, cap))
  {
    var keys := Send([27, 91, code]);
    var s1, s2 := s.(esc := AfterEsc), s.(esc := AfterBracket);
    assert keys[1..] == [Byte('['), Byte(code as char)] && keys[1..][1..] == [Byte(code as char)];
    assert keys[1..][1..][1..] == [];
    var s3 := Bracket(s2, code as char, cap);
    assert Poll(s, keys[0], cap, socket) == Editing(s1);
    assert Poll(s1, keys[1..][0], cap, socket) == Editing(s2);
    assert Poll(s2, keys[1..][1..][0], cap, socket) == Editing(s3);
    PollKeepsHistory(s2, Byte(code as char), cap, socket);
    assert Read(s2, keys[1..][1..], cap, socket) == Read(s3, [], cap, socket);
    assert Read(s1, keys[1..], cap, socket) == Read(s2, keys[1..][1..], cap, socket);
  }

  lemma LeftKey(h: Ring, a: string, c: char, b: string, cap: nat, socket: bool)
    requires h.Valid()
    ensures Read(At(h, a + [c], b), LEFT, cap, socket) == Editing(At(h, a, [c] + b))
  {
    ThreeBytes(At(h, a + [c], b), 68, cap, socket);
    assert (a + [c])[..|a|] == a;
  }

  lemma RightKey(h: Ring, a: string, c: char, b: string, cap: nat, socket: bool)
    requires h.Valid()
    ensures Read(At(h, a, [c] + b), RIGHT, cap, socket) == Editing(At(h, a + [c], b))
  {
    ThreeBytes(At(h, a, [c] + b), 67, cap, socket);
    assert ([c] + b)[1..] == b;
  }

  /** At the ends of the line the arrow keys do nothing. */
  lemma ArrowsStop(h: Ring, a: string, cap: nat, socket: bool)
    requires h.Valid()
    ensures Read(At(h, "", a), LEFT, cap, socket) == Editing(At(h, "", a))
    ensures Read(At(h, a, ""), RIGHT, cap, socket) == Editing(At(h, a, ""))
  {
    ThreeBytes(At(h, "", a), 68, cap, socket);
    ThreeBytes(At(h, a, ""), 67, cap, socket);
  }

  lemma HomeKey(h: Ring, a: string, b: string, key: seq<Event>, cap: nat, socket: bool)
    requires h.Valid() && key in HOMES
    ensures Read(At(h, a, b), key, cap, socket) == Editing(At(h, "", a + b))
  {
    ThreeBytes(At(h, a, b), 72, cap, socket);
    ThreeBytes(At(h, a, b), 49, cap, socket);
    OneByte(At(h, a, b), 1, cap, socket);
  }

  lemma EndKey(h: Ring, a: string, b: string, key: seq<Event>, cap: nat, socket: bool)
    requires h.Valid() && key in ENDS
    ensures Read(At(h, a, b), key, cap, socket) == Editing(At(h, a + b, ""))
  {
    ThreeBytes(At(h, a, b), 70, cap, socket);
    ThreeBytes(At(h, a, b), 52, cap, socket);
    OneByte(At(h, a, b), 5, cap, socket);
  }

  lemma KillKey(h: Ring, a: string, b: string, key: seq<Event>, cap: nat, socket: bool)
    requires h.Valid() && key in KILLS
    ensures Read(At(h, a, b), key, cap, socket) == Editing(At(h, "", ""))
  {
    OneByte(At(h, a, b), 3, cap, socket);
    OneByte(At(h, a, b), 21, cap, socket);
  }

  lemma RuboutKey(h: Ring, a: string, c: char, b: string, key: seq<Event>, cap: nat, socket: bool)
    requires h.Valid() && key in RUBOUTS
    ensures Read(At(h, a + [c], b), key, cap, socket) == Editing(At(h, a, b))
    ensures Read(At(h, "", b), key, cap, socket) == Editing(At(h, "", b))
  {
    OneByte(At(h, a + [c], b), 8, cap, socket);
    OneByte(At(h, a + [c], b), 127, cap, socket);
    OneByte(At(h, "", b), 8, cap, socket);
    OneByte(At(h, "", b), 127, cap, socket);
    assert (a + [c])[..|a|] == a;
  }

  /** ESC [ 3 takes out the character behind the cursor. */
  lemma DeleteAtCursor(h: Ring, a: string, c: char, b: string, cap: nat, socket: bool)
    requires h.Valid()
    ensures Read(At(h, a, [c] + b), Send([27, 91, 51]), cap, socket) == Editing(At(h, a, b))
    ensures Read(At(h, a, ""), Send([27, 91, 51]), cap, socket) == Editing(At(h, a, ""))
  {
    ThreeBytes(At(h, a, [c] + b), 51, cap, socket);
    ThreeBytes(At(h, a, ""), 51, cap, socket);
    assert ([c] + b)[1..] == b;
  }

  /** The line goes to the caller and into the history. */
  lemma EnterKey(h: Ring, a: string, b: string, key: seq<Event>, cap: nat, socket: bool)
    requires h.Valid() && key in ENTERS
    ensures Read(At(h, a, b), key, cap, socket) == Entered(a + b, Add(h, a + b))
  {
    OneByte(At(h, a, b), 13, cap, socket);
    OneByte(At(h, a, b), 10, cap, socket);
  }

  /** Ctrl+D ends the session on an empty line and does nothing on any other. */
  lemma EofKey(h: Ring, a: string, b: string, cap: nat, socket: bool)
    requires h.Valid()
    ensures Read(At(h, a, b), EOF, cap, socket) == if a + b == "" then Closed(h) else Editing(At(h, a, b))
  {
    OneByte(At(h, a, b), 4, cap, socket);
  }

  /** All other bytes that are not printable are ignored, Ctrl+L among them. */
  lemma OtherByte(h: Ring, a: string, b: string, code: nat, cap: nat, socket: bool)
    requires h.Valid() && code < 256 && !(32 <= code < 127) && code !in {1, 3, 4, 5, 8, 10, 13, 21, 27, 127}
    ensures Read(At(h, a, b), Send([code]), cap, socket) == Editing(At(h, a, b))
  {
    OneByte(At(h, a, b), code, cap, socket);
  }

  /** ESC in front of any byte but '[' is as good as nothing, and after ESC [ every byte but the
      nine that mean something is swallowed. */
  lemma StrayEscape(h: Ring, a: string, b: string, code: nat, cap: nat, socket: bool)
    requires h.Valid() && code < 256
    ensures code != 91 ==>
              Read(At(h, a, b), Send([27, code]), cap, socket) == Read(At(h, a, b), Send([code]), cap, socket)
    ensures code !in {65, 66, 67, 68, 70, 72, 49, 51, 52} ==>
              Read(At(h, a, b), Send([27, 91, code]), cap, socket) == Editing(At(h, a, b))
  {
    var s := At(h, a, b);
    var keys := Send([27, code]);
    assert keys[1..] == Send([code]) && keys[1..][1..] == [] && Send([code])[1..] == [];
    assert Poll(s, keys[0], cap, socket) == Editing(s.(esc := AfterEsc));
    if code != 91 {
      PollKeepsHistory(s, Byte(code as char), cap, socket);
      assert Poll(s.(esc := AfterEsc), keys[1..][0], cap, socket) == Poll(s, Send([code])[0], cap, socket);
    }
    ThreeBytes(s, code, cap, socket);
  }

  lemma Types(h: Ring, a: string, b: string, t: string, cap: nat, socket: bool)
    requires h.Valid() && AllPrintable(t) && |a| + |t| + |b| <= cap
    ensures Read(At(h, a, b), Bytes(t), cap, socket) == Editing(At(h, a + t, b))
  {
    TypingInserts(At(h, a, b), t, cap, socket);
  }

  // ---------------------------------------------------------------- repeated keys

  lemma {:induction false} LeftKeys(h: Ring, a: string, b: string, t: string, cap: nat, socket: bool)
    requires h.Valid()
    ensures Read(At(h, a + b, t), Times(LEFT, |b|), cap, socket) == Editing(At(h, a, b + t))
    decreases |b|
  {
    if b == "" {
      assert a + b == a && b + t == t;
    } else {
      var b', c := b[..|b| - 1], Last(b);
      assert a + b == a + b' + [c] && b + t == b' + ([c] + t);
      LeftKey(h, a + b', c, t, cap, socket);
      Then(At(h, a + b, t), LEFT, At(h, a + b', [c] + t), Times(LEFT, |b'|), cap, socket);
      LeftKeys(h, a, b', [c] + t, cap, socket);
    }
  }

  lemma {:induction false} RightKeys(h: Ring, a: string, b: string, t: string, cap: nat, socket: bool)
    requires h.Valid()
    ensures Read(At(h, a, b + t), Times(RIGHT, |b|), cap, socket) == Editing(At(h, a + b, t))
    decreases |b|
  {
    if b == "" {
      assert a + b == a && b + t == t;
    } else {
      var c, b' := b[0], b[1..];
      assert b + t == [c] + (b' + t) && a + b == a + [c] + b';
      RightKey(h, a, c, b' + t, cap, socket);
      Then(At(h, a, b + t), RIGHT, At(h, a + [c], b' + t), Times(RIGHT, |b'|), cap, socket);
      RightKeys(h, a + [c], b', t, cap, socket);
    }
  }

  lemma {:induction false} RuboutKeys(h: Ring, a: string, b: string, t: string, key: seq<Event>, cap: nat, socket: bool)
    requires h.Valid() && key in RUBOUTS
    ensures Read(At(h, a + b, t), Times(key, |b|), cap, socket) == Editing(At(h, a, t))
    decreases |b|
  {
    if b == "" {
      assert a + b == a;
    } else {
      var b', c := b[..|b| - 1], Last(b);
      assert a + b == a + b' + [c];
      RuboutKey(h, a + b', c, t, key, cap, socket);
      Then(At(h, a + b, t), key, At(h, a + b', t), Times(key, |b'|), cap, socket);
      RuboutKeys(h, a, b', t, key, cap, socket);
    }
  }

  // ---------------------------------------------------------------- whole lines

  /** From some point of the line on: t is typed at the cursor and the line is entered. */
  lemma TypeAndEnter(h: Ring, a: string, b: string, t: string, enter: seq<Event>, cap: nat, socket: bool)
    requires h.Valid() && AllPrintable(t) && |a| + |t| + |b| <= cap && enter in ENTERS
    ensures Read(At(h, a, b), Bytes(t) + enter, cap, socket) == Entered(a + t + b, Add(h, a + t + b))
  {
    Types(h, a, b, t, cap, socket);
    Then(At(h, a, b), Bytes(t), At(h, a + t, b), enter, cap, socket);
    EnterKey(h, a + t, b, enter, cap, socket);
  }

  /** A line a + b is typed, |b| presses of Left and j of Right follow, then t is typed: it stands
      j characters behind a. */
  lemma ArrowsPlaceText(h: Ring, a: string, b: string, j: nat, t: string, enter: seq<Event>, cap: nat, socket: bool)
    requires h.Valid() && AllPrintable(a + b) && AllPrintable(t) && |a| + |b| + |t| <= cap
    requires j <= |b| && enter in ENTERS
    ensures
      var line := a + b[..j] + t + b[j..];
      Read(At(h, "", ""), Bytes(a + b) + (Times(LEFT, |b|) + (Times(RIGHT, j) + (Bytes(t) + enter))), cap, socket)
      == Entered(line, Add(h, line))
  {
    var tail := Bytes(t) + enter;
    var b1, b2 := b[..j], b[j..];
    assert "" + (a + b) == a + b && b + "" == b == b1 + b2;
    Types(h, "", "", a + b, cap, socket);
    Then(At(h, "", ""), Bytes(a + b), At(h, a + b, ""), Times(LEFT, |b|) + (Times(RIGHT, j) + tail), cap, socket);
    LeftKeys(h, a, b, "", cap, socket);
    Then(At(h, a + b, ""), Times(LEFT, |b|), At(h, a, b), Times(RIGHT, j) + tail, cap, socket);
    RightKeys(h, a, b1, b2, cap, socket);
    Then(At(h, a, b), Times(RIGHT, j), At(h, a + b1, b2), tail, cap, socket);
    TypeAndEnter(h, a + b1, b2, t, enter, cap, socket);
  }

  /** Left alone: the text goes between a and b. */
  lemma LeftPlacesText(h: Ring, a: string, b: string, t: string, enter: seq<Event>, cap: nat, socket: bool)
    requires h.Valid() && AllPrintable(a + b) && AllPrintable(t) && |a| + |b| + |t| <= cap && enter in ENTERS
    ensures Read(At(h, "", ""), Bytes(a + b) + (Times(LEFT, |b|) + (Bytes(t) + enter)), cap, socket)
         == Entered(a + t + b, Add(h, a + t + b))
  {
    ArrowsPlaceText(h, a, b, 0, t, enter, cap, socket);
    assert Times(RIGHT, 0) + (Bytes(t) + enter) == Bytes(t) + enter;
    assert a + b[..0] == a && b[0..] == b;
  }

  /** Home and then t: t comes first. Home, End and then t: t comes last. */
  lemma HomeAndEndPlaceText(h: Ring, a: string, t: string, home: seq<Event>, end: seq<Event>, enter: seq<Event>,
                            cap: nat, socket: bool)
    requires h.Valid() && AllPrintable(a) && AllPrintable(t) && |a| + |t| <= cap
    requires home in HOMES && end in ENDS && enter in ENTERS
    ensures Read(At(h, "", ""), Bytes(a) + (home + (Bytes(t) + enter)), cap, socket) == Entered(t + a, Add(h, t + a))
    ensures Read(At(h, "", ""), Bytes(a) + (home + (end + (Bytes(t) + enter))), cap, socket)
         == Entered(a + t, Add(h, a + t))
  {
    var tail := Bytes(t) + enter;
    assert "" + a == a && a + "" == a && "" + t == t && a + t + "" == a + t;
    Types(h, "", "", a, cap, socket);
    HomeKey(h, a, "", home, cap, socket);
    EndKey(h, "", a, end, cap, socket);
    Then(At(h, "", ""), Bytes(a), At(h, a, ""), home + tail, cap, socket);
    Then(At(h, a, ""), home, At(h, "", a), tail, cap, socket);
    Then(At(h, "", ""), Bytes(a), At(h, a, ""), home + (end + tail), cap, socket);
    Then(At(h, a, ""), home, At(h, "", a), end + tail, cap, socket);
    Then(At(h, "", a), end, At(h, a, ""), tail, cap, socket);
    TypeAndEnter(h, "", a, t, enter, cap, socket);
    TypeAndEnter(h, a, "", t, enter, cap, socket);
  }

  /** Ctrl+C and Ctrl+U throw away what was typed, wherever the cursor is. */
  lemma KillStartsOver(h: Ring, a: string, b: string, t: string, kill: seq<Event>, enter: seq<Event>,
                       cap: nat, socket: bool)
    requires h.Valid() && AllPrintable(t) && |t| <= cap && kill in KILLS && enter in ENTERS
    ensures Read(At(h, a, b), kill + (Bytes(t) + enter), cap, socket) == Entered(t, Add(h, t))
  {
    KillKey(h, a, b, kill, cap, socket);
    Then(At(h, a, b), kill, At(h, "", ""), Bytes(t) + enter, cap, socket);
    TypeAndEnter(h, "", "", t, enter, cap, socket);
    assert "" + t + "" == t;
  }

  /** Backspaces take back what was typed last. */
  lemma RuboutsRetype(h: Ring, a: string, b: string, t: string, key: seq<Event>, enter: seq<Event>,
                      cap: nat, socket: bool)
    requires h.Valid() && AllPrintable(a + b) && AllPrintable(t) && |a| + |b| <= cap && |a| + |t| <= cap
    requires key in RUBOUTS && enter in ENTERS
    ensures Read(At(h, "", ""), Bytes(a + b) + (Times(key, |b|) + (Bytes(t) + enter)), cap, socket)
         == Entered(a + t, Add(h, a + t))
  {
    var tail := Bytes(t) + enter;
    assert "" + (a + b) == a + b && a + t + "" == a + t;
    Types(h, "", "", a + b, cap, socket);
    Then(At(h, "", ""), Bytes(a + b), At(h, a + b, ""), Times(key, |b|) + tail, cap, socket);
    RuboutKeys(h, a, b, "", key, cap, socket);
    Then(At(h, a + b, ""), Times(key, |b|), At(h, a, ""), tail, cap, socket);
    TypeAndEnter(h, a, "", t, enter, cap, socket);
  }

  /** Ctrl+D on an empty line returns -1; on any other line Enter still returns the line. */
  lemma EofOnlyWhenEmpty(h: Ring, a: string, enter: seq<Event>, cap: nat, socket: bool)
    requires h.Valid() && AllPrintable(a) && |a| <= cap && enter in ENTERS
    ensures Read(At(h, "", ""), Bytes(a) + (EOF + enter), cap, socket)
         == if a == "" then Closed(h) else Entered(a, Add(h, a))
  {
    assert "" + a == a && a + "" == a;
    Types(h, "", "", a, cap, socket);
    Then(At(h, "", ""), Bytes(a), At(h, a, ""), EOF + enter, cap, socket);
    EofKey(h, a, "", cap, socket);
    ReadInParts(At(h, a, ""), EOF, enter, cap, socket);
    EnterKey(h, a, "", enter, cap, socket);
  }

  // ---------------------------------------------------------------- recalled lines

  /** Up puts the line that the history recalls in place of the edited one, cut to the buffer,
      with the cursor at its end; on an empty history nothing happens. Down does the same. */
  lemma RecallKeys(h: Ring, a: string, b: string, cap: nat, socket: bool)
    requires h.Valid()
    ensures Read(At(h, a, b), Send([27, 91, 65]), cap, socket)
         == Editing(if PrevText(h) == None then At(Prev(h), a, b) else At(Prev(h), Prefix(PrevText(h).value, cap), ""))
    ensures Read(At(h, a, b), Send([27, 91, 66]), cap, socket)
         == Editing(if NextText(h) == None then At(Next(h), a, b) else At(Next(h), Prefix(NextText(h).value, cap), ""))
  {
    ThreeBytes(At(h, a, b), 65, cap, socket);
    ThreeBytes(At(h, a, b), 66, cap, socket);
  }
}
