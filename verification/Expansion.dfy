/** os_env_expand: the bounded in-place loop against an unbounded recursive expansion. */
module EnvExpansion {
  import opened CStrings
  import opened Environment

  /** The longest name the scan collects. */
  const NAME_CAP: nat := OS_ENV_NAME_LEN - 1

  predicate NameChar(c: char) {
    'A' <= c <= 'Z' || 'a' <= c <= 'z' || '0' <= c <= '9' || c == '_'
  }

  /** The character at index i, or the terminating NUL at the end. */
  function At(s: string, i: nat): char {
    if i < |s| then s[i] else NUL
  }

  /** Where the scan of a braced name stops: at '}', at the end, or after left characters. */
  function BraceEnd(s: string, i: nat, left: nat): (r: nat)
    requires i <= |s|
    ensures i <= r <= |s| && r <= i + left
    decreases left
  {
    if i == |s| || s[i] == '}' || left == 0 then i else BraceEnd(s, i + 1, left - 1)
  }

  function NameEnd(s: string, i: nat, left: nat): (r: nat)
    requires i <= |s|
    ensures i <= r <= |s| && r <= i + left
    decreases left
  {
    if i == |s| || !NameChar(s[i]) || left == 0 then i else NameEnd(s, i + 1, left - 1)
  }

  /** One round of the loop at index i: a piece of the line, and where the next round starts.
      A start of |s| + 1 means that the scan has stepped past the terminating NUL. */
  datatype Piece = Plain(text: string) | Ref(name: string)
  datatype Round = Round(piece: Piece, next: nat)

  function RoundAt(s: string, i: nat): (r: Round)
    requires i < |s|
    ensures i < r.next <= |s| + 1
  {
    if s[i] != '$' then Round(Plain([s[i]]), i + 1)
    else if At(s, i + 1) == '{' then
      var end := BraceEnd(s, i + 2, NAME_CAP);
      Round(if At(s, end) == '}' then Ref(s[i + 2..end]) else Plain(""), end + 1)
    else
      var end := NameEnd(s, i + 1, NAME_CAP);
      if end == i + 1 then Round(Plain("$"), i + 1) else Round(Ref(s[i + 1..end]), end)
  }

  /** What a piece contributes, when env answers for the names. */
  function Emitted(env: string -> string, piece: Piece): string {
    match piece
    case Plain(text) => text
    case Ref(name) => env(name)
  }

  /** The unbounded expansion of s from index i on. */
  function ExpandFrom(env: string -> string, s: string, i: nat): string
    decreases |s| - i
  {
    if i >= |s| then ""
    else Emitted(env, RoundAt(s, i).piece) + ExpandFrom(env, s, RoundAt(s, i).next)
  }

  /** The value of a name in the table; nothing when it is unset. */
  function Value(es: seq<Entry>, name: string): string {
    match Lookup(es, name)
    case Some(v) => Prefix(v, OS_ENV_VALUE_LEN - 1)
    case None => ""
  }

  /** The answers a table gives, as one function. */
  function Answers(es: seq<Entry>): string -> string {
    name => Value(es, name)
  }

  function Expansion(es: seq<Entry>, s: string): string {
    ExpandFrom(Answers(es), s, 0)
  }

  /** Does a braced name that starts at or after index i run to the end of s? */
  predicate DanglesFrom(s: string, i: nat)
    decreases |s| - i
  {
    i > |s| || (i < |s| && DanglesFrom(s, RoundAt(s, i).next))
  }

  predicate Dangles(s: string) {
    DanglesFrom(s, 0)
  }

  // ---------------------------------------------------------------- os_env_expand

  method ScanBrace(input: array<char>, start: nat, ghost s: string) returns (end: nat)
    requires start <= |s| && Intact(input[..], s, 0)
    ensures end == BraceEnd(s, start, NAME_CAP)
  {
    end := start;
    while input[end] != NUL && input[end] != '}' && end - start < NAME_CAP
      invariant start <= end <= |s| && end - start <= NAME_CAP
      invariant BraceEnd(s, end, NAME_CAP - (end - start)) == BraceEnd(s, start, NAME_CAP)
      decreases |s| - end
    {
      end := end + 1;
    }
  }

  method ScanName(input: array<char>, start: nat, ghost s: string) returns (end: nat)
    requires start <= |s| && Intact(input[..], s, 0)
    ensures end == NameEnd(s, start, NAME_CAP)
  {
    end := start;
    while input[end] != NUL && NameChar(input[end]) && end - start < NAME_CAP
      invariant start <= end <= |s| && end - start <= NAME_CAP
      invariant NameEnd(s, end, NAME_CAP - (end - start)) == NameEnd(s, start, NAME_CAP)
      decreases |s| - end
    {
      end := end + 1;
    }
  }

  /** Appends as much of text as the buffer still takes, leaving room for the NUL. */
  method Emit(text: string, out: array<char>, len: nat) returns (len': nat)
    requires len < out.Length
    modifies out
    ensures len' == len + |Prefix(text, out.Length - 1 - len)|
    ensures out[..len'] == old(out[..len]) + Prefix(text, out.Length - 1 - len)
  {
    len' := len;
    var v := 0;
    while v < |text| && len' + 1 < out.Length
      invariant v <= |text| && len' == len + v < out.Length
      invariant out[..len'] == old(out[..len]) + text[..v]
    {
      out[len'] := text[v];
      len' := len' + 1;
      v := v + 1;
      assert text[..v] == text[..v - 1] + [text[v - 1]];
      assert out[..len'] == out[..len' - 1] + [out[len' - 1]];
    }
  }

  /** The variables an expansion sees: none before os_env_init. */
  ghost function Visible(env: Store): seq<Entry>
    reads env, env.entries
  {
    if env.initialised then env.entries[..] else []
  }

  /** os_env_get into a buffer of its own, read back as a C string; "" on an error. */
  method Fetch(env: Store, name: string) returns (value: string)
    requires env.Valid()
    ensures value == Answers(Visible(env))(name)
  {
    var buf := new char[OS_ENV_VALUE_LEN](i => NUL);
    ghost var es := env.entries[..];
    var r := env.Get(name, buf);
    if r == Ok {
      value := StrAt(buf[..], 0);
      assert NulFree(Value(es, name)) by {
        assert Storable(es[Find(es, name)]);
      }
      ReadBack(buf[..], 0, Value(es, name));
    } else {
      value := "";
    }
  }

  lemma SameSlice(m: seq<char>, s: string, i: nat, j: nat)
    requires Intact(m, s, 0) && i <= j <= |s|
    ensures m[i..j] == s[i..j]
  {
  }

  /** The scanning part of one round. */
  method Scan(input: array<char>, i: nat, ghost s: string) returns (round: Round)
    requires Intact(input[..], s, 0) && i < |s|
    ensures round == RoundAt(s, i)
  {
    if input[i] != '$' {
      return Round(Plain([input[i]]), i + 1);
    }
    if input[i + 1] == '{' {
      var end := ScanBrace(input, i + 2, s);
      SameSlice(input[..], s, i + 2, end);
      return Round(if input[end] == '}' then Ref(input[i + 2..end]) else Plain(""), end + 1);
    }
    var end := ScanName(input, i + 1, s);
    SameSlice(input[..], s, i + 1, end);
    return if end == i + 1 then Round(Plain("$"), i + 1) else Round(Ref(input[i + 1..end]), end);
  }

  /** One round of the loop. */
  method OneRound(env: Store, input: array<char>, i: nat, out: array<char>, len: nat, ghost s: string)
    returns (i': nat, len': nat)
    requires env.Valid() && Intact(input[..], s, 0) && i < |s| && len + 1 < out.Length && input != out
    modifies out
    ensures
      var text := Emitted(Answers(Visible(env)), RoundAt(s, i).piece);
      && i' == RoundAt(s, i).next
      && len' == len + |Prefix(text, out.Length - 1 - len)|
      && out[..len'] == old(out[..len]) + Prefix(text, out.Length - 1 - len)
  {
    var round := Scan(input, i, s);
    var text;
    match round.piece {
      case Plain(t) => text := t;
      case Ref(name) => text := Fetch(env, name);
    }
    len' := Emit(text, out, len);
    i' := round.next;
  }

  lemma PrefixAppends(a: string, b: string, cap: nat)
    requires |a| <= cap
    ensures Prefix(a + b, cap) == a + Prefix(b, cap - |a|)
  {
  }

  /** The loop has written the first characters of done, and the rest comes from index i. */
  ghost predicate Reached(env: string -> string, s: string, i: nat, done: string) {
    && i <= |s| + 1
    && ExpandFrom(env, s, 0) == done + ExpandFrom(env, s, i)
    && (Dangles(s) <==> DanglesFrom(s, i))
  }

  lemma ReachedStep(env: string -> string, s: string, i: nat, done: string)
    requires Reached(env, s, i, done) && i < |s|
    ensures Reached(env, s, RoundAt(s, i).next, done + Emitted(env, RoundAt(s, i).piece))
  {
  }

  /** The buffer holds as much of done as fits. */
  ghost predicate HoldsPrefix(m: seq<char>, len: nat, done: string) {
    len < |m| && m[..len] == Prefix(done, |m| - 1)
  }

  /** overrun says that the round has passed the terminator and the next character is no NUL. */
  method NextRound(env: Store, input: array<char>, i: nat, out: array<char>, len: nat, ghost s: string,
                   ghost done: string)
    returns (i': nat, len': nat, overrun: bool, ghost done': string)
    requires env.Valid() && Intact(input[..], s, 0) && i < |s| && len + 1 < out.Length && input != out
    requires Reached(Answers(Visible(env)), s, i, done) && HoldsPrefix(out[..], len, done)
    modifies out
    ensures i < i' && Reached(Answers(Visible(env)), s, i', done') && HoldsPrefix(out[..], len', done')
    ensures i' == |s| + 1 ==> |done'| < out.Length - 1
    ensures overrun <==> i' == |s| + 1 && !NulBehind(input[..], s)
  {
    ghost var text := Emitted(Answers(Visible(env)), RoundAt(s, i).piece);
    assert out[..][..len] == out[..len];
    ReachedStep(Answers(Visible(env)), s, i, done);
    PrefixAppends(done, text, out.Length - 1);
    i', len' := OneRound(env, input, i, out, len, s);
    assert out[..][..len'] == out[..len'];
    done' := done + text;
    overrun := PassedEnd(input, i', s);
  }

  method PassedEnd(input: array<char>, i: nat, ghost s: string) returns (overrun: bool)
    requires Intact(input[..], s, 0) && 0 < i <= |s| + 1
    ensures overrun <==> i == |s| + 1 && !NulBehind(input[..], s)
  {
    overrun := input[i - 1] == NUL && (i == input.Length || input[i] != NUL);
  }

  /** The loop. It ends at a NUL, be it the terminator or one behind it, or with the buffer full. */
  method Rounds(env: Store, input: array<char>, out: array<char>, ghost s: string)
    returns (i: nat, len: nat, overrun: bool, ghost done: string)
    requires env.Valid() && Intact(input[..], s, 0) && out.Length > 0 && input != out
    modifies out
    ensures Reached(Answers(Visible(env)), s, i, done) && HoldsPrefix(out[..], len, done)
    ensures i == |s| + 1 ==> |done| < out.Length - 1
    ensures i >= |s| || len == out.Length - 1
    ensures overrun <==> i == |s| + 1 && !NulBehind(input[..], s)
  {
    i, len, overrun, done := 0, 0, false, "";
    while !overrun && input[i] != NUL && len + 1 < out.Length
      invariant Reached(Answers(Visible(env)), s, i, done) && HoldsPrefix(out[..], len, done)
      invariant i == |s| + 1 ==> |done| < out.Length - 1
      invariant overrun <==> i == |s| + 1 && !NulBehind(input[..], s)
      decreases |s| + 1 - i
    {
      i, len, overrun, done := NextRound(env, input, i, out, len, s, done);
    }
  }

  /** Another NUL stands behind the one that ends the text s. */
  predicate NulBehind(m: seq<char>, s: string) {
    |s| + 1 < |m| && m[|s| + 1] == NUL
  }

  /** What the loop leaves is the whole expansion as far as it fits. */
  lemma RoundsComplete(env: string -> string, s: string, i: nat, m: seq<char>, len: nat, done: string)
    requires Reached(env, s, i, done) && HoldsPrefix(m, len, done)
    requires i >= |s| || len == |m| - 1
    requires i == |s| + 1 ==> |done| < |m| - 1
    ensures i == |s| + 1 <==> Dangles(s) && |ExpandFrom(env, s, 0)| < |m| - 1
    ensures HoldsPrefix(m, len, ExpandFrom(env, s, 0))
  {
  }

  /** Every input and buffer size. The scan goes astray, beyond the terminator of the input,
      exactly when a braced name runs to its end, the text before it leaves room in the buffer,
      and no second NUL stops it. Otherwise the buffer holds the longest prefix of the unbounded
      expansion that fits, with its NUL. */
  method Expand(env: Store, input: array<char>, out: array<char>, ghost s: string) returns (len: nat, overrun: bool)
    requires env.Valid() && Intact(input[..], s, 0) && out.Length > 0 && input != out
    modifies out
    ensures
      var full := Expansion(Visible(env), s);
      && (overrun <==> Dangles(s) && |full| < out.Length - 1 && !NulBehind(input[..], s))
      && (!overrun ==> HoldsPrefix(out[..], len, full) && out[len] == NUL)
  {
    var i;
    ghost var done;
    i, len, overrun, done := Rounds(env, input, out, s);
    RoundsComplete(Answers(Visible(env)), s, i, out[..], len, done);
    if !overrun {
      ghost var m := out[..];
      out[len] := NUL;
      assert out[..][..len] == m[..len];
    }
  }

  // ---------------------------------------------------------------- what an expansion means

  /** The expansion depends on the variables only through their lookups. */
  lemma {:induction false} SameAnswersSameExpansion(env: string -> string, env': string -> string, s: string, i: nat)
    requires forall n :: env(n) == env'(n)
    ensures ExpandFrom(env, s, i) == ExpandFrom(env', s, i)
    decreases |s| - i
  {
    if i < |s| {
      SameAnswersSameExpansion(env, env', s, RoundAt(s, i).next);
    }
  }

  /** Every expansion answers the same after a restart from the stored variables. */
  lemma RestartKeepsExpansions(es: seq<Entry>, s: string)
    requires |es| == OS_ENV_MAX_VARS
    ensures Expansion(Load(Some(Save(es))), s) == Expansion(es, s)
  {
    var es' := Load(Some(Save(es)));
    forall n ensures Answers(es')(n) == Answers(es)(n) {
      PersistenceKeepsLookups(es, n);
    }
    SameAnswersSameExpansion(Answers(es'), Answers(es), s, 0);
  }

  /** The characters of a bare name: digits, capital and small letters, and the underscore. */
  lemma NameCharIs(c: char)
    ensures NameChar(c) <==> 48 <= c as int <= 57 || 65 <= c as int <= 90 || 97 <= c as int <= 122 || c as int == 95
  {
  }

  /** A name stands for the value that is stored for it, and an unset one for nothing. */
  lemma AnswerIs(es: seq<Entry>, name: string)
    requires AllStorable(es)
    ensures Lookup(es, name) == None ==> Answers(es)(name) == ""
    ensures Lookup(es, name).Some? ==> Answers(es)(name) == Lookup(es, name).value
  {
    if Find(es, name) < |es| {
      assert Storable(es[Find(es, name)]);
    }
  }

  /** A line taken apart: plain text, $NAME, ${NAME}, a '$' that starts no name, and the two forms
      of a brace that is not closed in time: with more than 15 characters behind it, 16 of which are
      used up, and with fewer, at the end of the line. */
  datatype Item =
    | Text(text: string) | Bare(name: string) | Braced(name: string)
    | Dollar | Overlong(lost: string) | Unclosed(lost: string)

  function Written(item: Item): string {
    match item
    case Text(t) => t
    case Bare(n) => "$" + n
    case Braced(n) => "${" + n + "}"
    case Dollar => "$"
    case Overlong(w) => "${" + w
    case Unclosed(w) => "${" + w
  }

  function Render(items: seq<Item>): string {
    if items == [] then "" else Written(items[0]) + Render(items[1..])
  }

  function Contribution(env: string -> string, item: Item): string {
    match item
    case Text(t) => t
    case Bare(n) => env(n)
    case Braced(n) => env(n)
    case Dollar => "$"
    case Overlong(_) => ""
    case Unclosed(_) => ""
  }

  /** What the template stands for: each name replaced by its value, once. */
  function Meaning(env: string -> string, items: seq<Item>): string {
    if items == [] then "" else Contribution(env, items[0]) + Meaning(env, items[1..])
  }

  /** Text has no '$'; names have at most 15 characters; a bare name is made of name characters and
      is not followed by one, unless it already has 15; a lone '$' is followed by none either, and
      by no brace. */
  ghost predicate ItemFits(item: Item, follower: char) {
    match item
    case Text(t) => Without(t, '$')
    case Bare(n) =>
      && 0 < |n| <= NAME_CAP && (forall k :: 0 <= k < |n| ==> NameChar(n[k]))
      && (|n| == NAME_CAP || !NameChar(follower))
    case Braced(n) => |n| <= NAME_CAP && Without(n, '}')
    case Dollar => !NameChar(follower) && follower != '{'
    case Overlong(w) => |w| == NAME_CAP + 1 && Without(w, '}')
    case Unclosed(w) => |w| <= NAME_CAP && Without(w, '}')
  }

  ghost predicate WellFormed(items: seq<Item>) {
    items != [] ==>
      && ItemFits(items[0], At(Render(items[1..]), 0)) && WellFormed(items[1..])
      && (items[0].Unclosed? ==> |items| == 1)
  }

  lemma {:induction false} BraceEndIs(s: string, i: nat, n: nat, left: nat)
    requires i + n < |s| && n <= left && s[i + n] == '}'
    requires forall k :: i <= k < i + n ==> s[k] != '}'
    ensures BraceEnd(s, i, left) == i + n
    decreases n
  {
    if n > 0 {
      BraceEndIs(s, i + 1, n - 1, left - 1);
    }
  }

  lemma {:induction false} NameEndIs(s: string, i: nat, n: nat, left: nat)
    requires i + n <= |s| && n <= left
    requires forall k :: i <= k < i + n ==> NameChar(s[k])
    requires n == left || !NameChar(At(s, i + n))
    ensures NameEnd(s, i, left) == i + n
    decreases n
  {
    if n > 0 {
      NameEndIs(s, i + 1, n - 1, left - 1);
    }
  }

  lemma PlainCharacter(env: string -> string, s: string, i: nat)
    requires i < |s| && s[i] != '$'
    ensures ExpandFrom(env, s, i) == [s[i]] + ExpandFrom(env, s, i + 1)
    ensures DanglesFrom(s, i) <==> DanglesFrom(s, i + 1)
  {
  }

  lemma {:induction false} PlainText(env: string -> string, s: string, i: nat, n: nat)
    requires i + n <= |s| && forall k :: i <= k < i + n ==> s[k] != '$'
    ensures ExpandFrom(env, s, i) == s[i..i + n] + ExpandFrom(env, s, i + n)
    ensures DanglesFrom(s, i) <==> DanglesFrom(s, i + n)
    decreases n
  {
    if n == 0 {
      assert s[i..i] == "";
    } else {
      var last := i + n - 1;
      PlainText(env, s, i, n - 1);
      PlainCharacter(env, s, last);
      PlainJoin(s, i, last, ExpandFrom(env, s, i + n));
    }
  }

  lemma PlainJoin(s: string, i: nat, last: nat, rest: string)
    requires i <= last < |s|
    ensures s[i..last] + ([s[last]] + rest) == s[i..last + 1] + rest
  {
  }

  /** The text w stands in s at index i. */
  ghost predicate OccursAt(s: string, i: nat, w: string) {
    i + |w| <= |s| && forall k :: 0 <= k < |w| ==> s[i + k] == w[k]
  }

  lemma BracedReference(s: string, i: nat, name: string)
    requires OccursAt(s, i, "${" + name + "}") && |name| <= NAME_CAP && Without(name, '}')
    ensures RoundAt(s, i) == Round(Ref(name), i + |name| + 3)
  {
    var w, n := "${" + name + "}", |name|;
    assert w[0] == '$' && w[1] == '{' && w[n + 2] == '}';
    forall k | i + 2 <= k < i + 2 + n ensures s[k] == name[k - i - 2] {
      assert w[k - i] == name[k - i - 2];
    }
    BraceEndIs(s, i + 2, n, NAME_CAP);
    assert s[i + 2..i + 2 + n] == name;
  }

  lemma BareReference(s: string, i: nat, name: string)
    requires OccursAt(s, i, "$" + name)
    requires 0 < |name| <= NAME_CAP && forall k :: 0 <= k < |name| ==> NameChar(name[k])
    requires |name| == NAME_CAP || !NameChar(At(s, i + |name| + 1))
    ensures RoundAt(s, i) == Round(Ref(name), i + |name| + 1)
  {
    var w, n := "$" + name, |name|;
    assert w[0] == '$';
    forall k | i + 1 <= k < i + 1 + n ensures s[k] == name[k - i - 1] {
      assert w[k - i] == name[k - i - 1];
    }
    NameEndIs(s, i + 1, n, NAME_CAP);
    assert s[i + 1..i + 1 + n] == name;
  }

  lemma TextItem(env: string -> string, s: string, i: nat, t: string)
    requires OccursAt(s, i, t) && Without(t, '$')
    ensures ExpandFrom(env, s, i) == t + ExpandFrom(env, s, i + |t|)
    ensures DanglesFrom(s, i) <==> DanglesFrom(s, i + |t|)
  {
    forall k | i <= k < i + |t| ensures s[k] != '$' {
      assert s[k] == t[k - i];
    }
    PlainText(env, s, i, |t|);
    assert s[i..i + |t|] == t;
  }

  lemma RefItem(env: string -> string, s: string, i: nat, name: string, next: nat)
    requires i < |s| && next <= |s| && RoundAt(s, i) == Round(Ref(name), next)
    ensures ExpandFrom(env, s, i) == env(name) + ExpandFrom(env, s, next)
    ensures DanglesFrom(s, i) <==> DanglesFrom(s, next)
  {
  }

  lemma LoneDollar(s: string, i: nat)
    requires OccursAt(s, i, "$") && !NameChar(At(s, i + 1)) && At(s, i + 1) != '{'
    ensures RoundAt(s, i) == Round(Plain("$"), i + 1)
  {
    assert s[i] == "$"[0];
  }

  lemma OverlongBrace(s: string, i: nat, w: string)
    requires OccursAt(s, i, "${" + w) && |w| == NAME_CAP + 1 && Without(w, '}')
    ensures RoundAt(s, i) == Round(Plain(""), i + 2 + |w|)
  {
    var all := "${" + w;
    assert all[0] == '$' && all[1] == '{';
    forall k | i + 2 <= k < i + 2 + |w| ensures s[k] == w[k - i - 2] {
      assert all[k - i] == w[k - i - 2];
    }
    BraceCut(s, i + 2, NAME_CAP);
  }

  lemma UnclosedBrace(s: string, i: nat, w: string)
    requires OccursAt(s, i, "${" + w) && i + 2 + |w| == |s| && |w| <= NAME_CAP && Without(w, '}')
    ensures RoundAt(s, i) == Round(Plain(""), |s| + 1)
  {
    var all := "${" + w;
    assert all[0] == '$' && all[1] == '{';
    forall k | i + 2 <= k < |s| ensures s[k] == w[k - i - 2] {
      assert all[k - i] == w[k - i - 2];
    }
    BraceRuns(s, i + 2, |w|, NAME_CAP);
  }

  lemma PlainItem(env: string -> string, s: string, i: nat, text: string, next: nat)
    requires i < |s| && next <= |s| && RoundAt(s, i) == Round(Plain(text), next)
    ensures ExpandFrom(env, s, i) == text + ExpandFrom(env, s, next)
    ensures DanglesFrom(s, i) <==> DanglesFrom(s, next)
  {
  }

  /** One item at index i of the line, with the rest of the line after it. */
  lemma OneItem(env: string -> string, s: string, i: nat, item: Item, next: nat)
    requires OccursAt(s, i, Written(item)) && next == i + |Written(item)|
    requires ItemFits(item, At(s, next)) && !item.Unclosed?
    ensures ExpandFrom(env, s, i) == Contribution(env, item) + ExpandFrom(env, s, next)
    ensures DanglesFrom(s, i) <==> DanglesFrom(s, next)
  {
    match item {
      case Text(t) => TextItem(env, s, i, t);
      case Braced(n) =>
        BracedReference(s, i, n);
        RefItem(env, s, i, n, next);
      case Bare(n) =>
        BareReference(s, i, n);
        RefItem(env, s, i, n, next);
      case Dollar =>
        LoneDollar(s, i);
        PlainItem(env, s, i, "$", next);
      case Overlong(w) =>
        OverlongBrace(s, i, w);
        PlainItem(env, s, i, "", next);
    }
  }

  /** From index i on, s is w. */
  ghost predicate EndsWith(s: string, i: nat, w: string) {
    i + |w| == |s| && OccursAt(s, i, w)
  }

  /** At index i, head and then tail, which ends s. */
  ghost predicate Splits(s: string, i: nat, head: string, tail: string) {
    OccursAt(s, i, head) && EndsWith(s, i + |head|, tail) && At(s, i + |head|) == At(tail, 0)
  }

  lemma SplitEnd(s: string, i: nat, head: string, tail: string)
    requires EndsWith(s, i, head + tail)
    ensures Splits(s, i, head, tail)
  {
    var w := head + tail;
    forall k | 0 <= k < |tail| ensures s[i + |head| + k] == tail[k] {
      assert w[|head| + k] == tail[k];
    }
    forall k | 0 <= k < |head| ensures s[i + k] == head[k] {
      assert w[k] == head[k];
    }
  }

  lemma OpenEnd(env: string -> string, s: string, i: nat, w: string)
    requires OccursAt(s, i, "${" + w) && i + 2 + |w| == |s| && |w| <= NAME_CAP && Without(w, '}')
    ensures ExpandFrom(env, s, i) == "" && DanglesFrom(s, i)
    ensures Meaning(env, [Unclosed(w)]) == ""
  {
    UnclosedBrace(s, i, w);
    assert ExpandFrom(env, s, |s| + 1) == "" && [Unclosed(w)][1..] == [];
  }

  /** A brace left open at the end of the line. */
  predicate EndsOpen(items: seq<Item>) {
    items != [] && Last(items).Unclosed?
  }

  /** The items stand one after the other in s, from index i to the end. */
  ghost predicate Laid(s: string, i: nat, items: seq<Item>)
    decreases |items|
  {
    if items == [] then i == |s|
    else
      var next := i + |Written(items[0])|;
      && OccursAt(s, i, Written(items[0])) && ItemFits(items[0], At(s, next))
      && (if items[0].Unclosed? then next == |s| && |items| == 1 else Laid(s, next, items[1..]))
  }

  lemma FirstRendered(s: string, i: nat, items: seq<Item>)
    requires items != [] && EndsWith(s, i, Render(items))
    ensures Splits(s, i, Written(items[0]), Render(items[1..]))
  {
    SplitEnd(s, i, Written(items[0]), Render(items[1..]));
  }

  lemma NothingRendered(items: seq<Item>)
    requires items == []
    ensures Render(items) == ""
  {
  }

  lemma {:induction false} RenderedIsLaid(s: string, i: nat, items: seq<Item>)
    requires WellFormed(items) && EndsWith(s, i, Render(items))
    ensures Laid(s, i, items)
    decreases |items|
  {
    if items == [] {
    } else {
      FirstRendered(s, i, items);
      if |items| == 1 {
        NothingRendered(items[1..]);
      }
      if !items[0].Unclosed? {
        RenderedIsLaid(s, i + |Written(items[0])|, items[1..]);
      }
    }
  }

  /** Expanding items that stand at the end of a line yields their meaning. */
  lemma {:induction false} LaidExpands(env: string -> string, s: string, i: nat, items: seq<Item>)
    requires Laid(s, i, items)
    ensures ExpandFrom(env, s, i) == Meaning(env, items)
    ensures DanglesFrom(s, i) <==> EndsOpen(items)
    decreases |items|
  {
    if items == [] {
    } else if items[0].Unclosed? {
      assert items == [items[0]];
      OpenEnd(env, s, i, items[0].lost);
    } else {
      var next := i + |Written(items[0])|;
      OneItem(env, s, i, items[0], next);
      LaidExpands(env, s, next, items[1..]);
      assert |items| > 1 ==> Last(items) == Last(items[1..]);
    }
  }

  /** A template expands to its meaning: values are put in verbatim, not expanded again; and it
      dangles exactly if it ends in an open brace. */
  lemma TemplateExpands(es: seq<Entry>, items: seq<Item>)
    requires WellFormed(items)
    ensures Expansion(es, Render(items)) == Meaning(Answers(es), items)
    ensures Dangles(Render(items)) <==> EndsOpen(items)
  {
    RenderedIsLaid(Render(items), 0, items);
    LaidExpands(Answers(es), Render(items), 0, items);
  }

  lemma {:induction false} BraceScanClear(s: string, i: nat, left: nat)
    requires i <= |s|
    ensures forall k :: i <= k < BraceEnd(s, i, left) ==> s[k] != '}'
    ensures BraceEnd(s, i, left) == |s| || s[BraceEnd(s, i, left)] == '}' || BraceEnd(s, i, left) == i + left
    decreases left
  {
    if i < |s| && s[i] != '}' && left > 0 {
      BraceScanClear(s, i + 1, left - 1);
    }
  }

  lemma {:induction false} NameScanEnds(s: string, i: nat, left: nat)
    requires i <= |s|
    ensures !NameChar(At(s, NameEnd(s, i, left))) || NameEnd(s, i, left) == i + left
    decreases left
  {
    if i < |s| && NameChar(s[i]) && left > 0 {
      NameScanEnds(s, i + 1, left - 1);
    }
  }

  /** The line at index i is this item and the rest from next on, or, with next behind the end,
      this item alone. */
  ghost predicate TakenOff(s: string, i: nat, item: Item, next: nat) {
    i < |s| &&
    if next <= |s| then s[i..] == Written(item) + s[next..] && ItemFits(item, At(s, next)) && !item.Unclosed?
    else s[i..] == Written(item) && ItemFits(item, NUL) && item.Unclosed?
  }

  /** The item that a round of the loop takes off the line. */
  lemma RoundItem(s: string, i: nat) returns (item: Item)
    requires i < |s|
    ensures TakenOff(s, i, item, RoundAt(s, i).next)
  {
    if s[i] != '$' {
      return Text([s[i]]);
    }
    if At(s, i + 1) == '{' {
      item := BraceItem(s, i);
      return;
    }
    var end := NameEnd(s, i + 1, NAME_CAP);
    NameScanClear(s, i + 1, NAME_CAP);
    NameScanEnds(s, i + 1, NAME_CAP);
    if end == i + 1 {
      item := Dollar;
    } else {
      item := Bare(s[i + 1..end]);
      assert s[i..] == "$" + s[i + 1..end] + s[end..];
    }
  }

  lemma UnclosedTaken(s: string, i: nat)
    requires i + 2 <= |s| <= i + 2 + NAME_CAP && s[i] == '$' && s[i + 1] == '{'
    requires forall k :: i + 2 <= k < |s| ==> s[k] != '}'
    ensures TakenOff(s, i, Unclosed(s[i + 2..]), |s| + 1)
  {
    BraceText(s, i, |s|);
  }

  lemma BracedTaken(s: string, i: nat, end: nat)
    requires i + 2 <= end <= i + 2 + NAME_CAP && end < |s| && s[i] == '$' && s[i + 1] == '{' && s[end] == '}'
    requires forall k :: i + 2 <= k < end ==> s[k] != '}'
    ensures TakenOff(s, i, Braced(s[i + 2..end]), end + 1)
  {
    ClosedText(s, i, end);
  }

  lemma OverlongTaken(s: string, i: nat)
    requires i + 3 + NAME_CAP <= |s| && s[i] == '$' && s[i + 1] == '{'
    requires forall k :: i + 2 <= k < i + 3 + NAME_CAP ==> s[k] != '}'
    ensures TakenOff(s, i, Overlong(s[i + 2..i + 3 + NAME_CAP]), i + 3 + NAME_CAP)
  {
    BraceText(s, i, i + 3 + NAME_CAP);
  }

  lemma BraceItem(s: string, i: nat) returns (item: Item)
    requires i < |s| && s[i] == '$' && At(s, i + 1) == '{'
    ensures TakenOff(s, i, item, RoundAt(s, i).next)
  {
    var end := BraceEnd(s, i + 2, NAME_CAP);
    BraceScanClear(s, i + 2, NAME_CAP);
    assert RoundAt(s, i).next == end + 1;
    if end == |s| {
      UnclosedTaken(s, i);
      item := Unclosed(s[i + 2..]);
    } else if s[end] == '}' {
      BracedTaken(s, i, end);
      item := Braced(s[i + 2..end]);
    } else {
      OverlongTaken(s, i);
      item := Overlong(s[i + 2..end + 1]);
    }
  }

  lemma ClosedText(s: string, i: nat, end: nat)
    requires i + 2 <= end < |s| && s[i] == '$' && s[i + 1] == '{' && s[end] == '}'
    ensures s[i..] == "${" + s[i + 2..end] + "}" + s[end + 1..]
  {
    BraceText(s, i, end);
    assert s[end..] == "}" + s[end + 1..];
    Assoc("${" + s[i + 2..end], "}", s[end + 1..]);
  }

  lemma BraceText(s: string, i: nat, k: nat)
    requires i + 2 <= k <= |s| && s[i] == '$' && s[i + 1] == '{'
    ensures s[i..] == "${" + s[i + 2..k] + s[k..]
  {
    assert s[i..] == s[i..i + 2] + s[i + 2..k] + s[k..];
    assert s[i..i + 2] == "${";
  }

  lemma {:induction false} TakenApart(s: string, i: nat) returns (items: seq<Item>)
    requires i <= |s|
    ensures WellFormed(items) && Render(items) == s[i..]
    decreases |s| - i
  {
    if i == |s| {
      items := [];
    } else {
      var item := RoundItem(s, i);
      var next := RoundAt(s, i).next;
      if next > |s| {
        items := [item];
        assert items[1..] == [] && Render(items[1..]) == "" && Render(items) == Written(item) + "";
      } else {
        var rest := TakenApart(s, next);
        items := [item] + rest;
        assert items[1..] == rest;
        assert At(s[next..], 0) == At(s, next);
      }
    }
  }

  /** Every line is a template, so its expansion is the meaning of the items it is made of. */
  lemma EveryLineIsATemplate(es: seq<Entry>, s: string)
    ensures exists items :: WellFormed(items) && Render(items) == s && Expansion(es, s) == Meaning(Answers(es), items)
  {
    var items := TakenApart(s, 0);
    assert s[0..] == s;
    TemplateExpands(es, items);
  }

  /** Without a '$' a line expands to itself. */
  lemma NoDollarNoChange(es: seq<Entry>, s: string)
    requires Without(s, '$')
    ensures Expansion(es, s) == s && !Dangles(s)
  {
    PlainText(Answers(es), s, 0, |s|);
    assert s[0..|s|] == s;
  }

  /** A "${" at index k with no '}' anywhere behind it. */
  predicate UnclosedAt(s: string, k: nat) {
    && k + 1 < |s| && s[k] == '$' && s[k + 1] == '{'
    && forall j :: k + 2 <= j < |s| ==> s[j] != '}'
  }

  /** The first such index from i on; |s| when there is none. */
  function FirstUnclosed(s: string, i: nat): (r: nat)
    requires i <= |s|
    ensures i <= r <= |s| && (r < |s| ==> UnclosedAt(s, r))
    decreases |s| - i
  {
    if i == |s| || UnclosedAt(s, i) then i else FirstUnclosed(s, i + 1)
  }

  /** The first unclosed brace from i on has at most 15 characters behind it, or one does that is
      found past the 16 that a longer one uses up. */
  predicate Overruns(s: string, i: nat)
    requires i <= |s|
    decreases |s| - i
  {
    var k := FirstUnclosed(s, i);
    k < |s| && (|s| <= k + 2 + NAME_CAP || Overruns(s, k + 3 + NAME_CAP))
  }

  lemma {:induction false} NoneUnclosed(s: string, i: nat, next: nat)
    requires i <= next <= |s| && forall m :: i <= m < next ==> !UnclosedAt(s, m)
    ensures FirstUnclosed(s, i) == FirstUnclosed(s, next)
    decreases next - i
  {
    if i < next {
      NoneUnclosed(s, i + 1, next);
    }
  }

  lemma {:induction false} NameScanClear(s: string, i: nat, left: nat)
    requires i <= |s|
    ensures forall k :: i <= k < NameEnd(s, i, left) ==> NameChar(s[k])
    decreases left
  {
    if i < |s| && NameChar(s[i]) && left > 0 {
      NameScanClear(s, i + 1, left - 1);
    }
  }

  lemma {:induction false} BraceScanBefore(s: string, i: nat, left: nat, j: nat)
    requires i <= j < |s| && s[j] == '}'
    ensures BraceEnd(s, i, left) <= j
    decreases left
  {
    if s[i] != '}' && left > 0 {
      BraceScanBefore(s, i + 1, left - 1, j);
    }
  }

  /** A round that does not start at an unclosed brace does not pass one either. */
  lemma RoundPassesNone(s: string, i: nat)
    requires i < |s| && !UnclosedAt(s, i)
    ensures RoundAt(s, i).next <= |s|
    ensures FirstUnclosed(s, i) == FirstUnclosed(s, RoundAt(s, i).next)
  {
    var next := RoundAt(s, i).next;
    if s[i] == '$' && At(s, i + 1) == '{' {
      var j :| i + 2 <= j < |s| && s[j] == '}';
      BraceScanBefore(s, i + 2, NAME_CAP, j);
      forall m | i <= m < next ensures !UnclosedAt(s, m) {
        assert m + 1 < |s| && s[m + 1] == '{' && s[m] == '$' ==> m + 2 <= j;
      }
    } else if s[i] == '$' {
      NameScanClear(s, i + 1, NAME_CAP);
    }
    NoneUnclosed(s, i, next);
  }

  /** When the scan leaves the input is a matter of the braces alone. */
  lemma {:induction false} DanglesIff(s: string, i: nat)
    requires i <= |s|
    ensures DanglesFrom(s, i) <==> Overruns(s, i)
    decreases |s| - i
  {
    if i == |s| {
    } else if !UnclosedAt(s, i) {
      RoundPassesNone(s, i);
      DanglesIff(s, RoundAt(s, i).next);
    } else if |s| <= i + 2 + NAME_CAP {
      BraceRuns(s, i + 2, |s| - (i + 2), NAME_CAP);
    } else {
      BraceCut(s, i + 2, NAME_CAP);
      DanglesIff(s, i + 3 + NAME_CAP);
    }
  }

  /** An unclosed brace of at most 15 characters at the end of the line is what dangles; a
      longer one is cut, loses the character after it, and the line goes on as plain text. */
  lemma UnclosedBraces()
    ensures Dangles("${HOME")
    ensures !Dangles("${ABCDEFGHIJKLMNOPQ") && Expansion([], "${ABCDEFGHIJKLMNOPQ") == "Q"
  {
    var long := "${ABCDEFGHIJKLMNOPQ";
    BraceRuns("${HOME", 2, 4, NAME_CAP);
    assert RoundAt("${HOME", 0).next == 7;
    BraceCut(long, 2, NAME_CAP);
    assert RoundAt(long, 0) == Round(Plain(""), 18);
    PlainText(Answers([]), long, 18, 1);
    assert long[18..19] == "Q";
  }

  lemma {:induction false} BraceRuns(s: string, i: nat, n: nat, left: nat)
    requires i + n == |s| && n <= left && forall k :: i <= k < |s| ==> s[k] != '}'
    ensures BraceEnd(s, i, left) == |s|
    decreases n
  {
    if n > 0 {
      BraceRuns(s, i + 1, n - 1, left - 1);
    }
  }

  lemma {:induction false} BraceCut(s: string, i: nat, left: nat)
    requires i + left <= |s| && forall k :: i <= k < i + left ==> s[k] != '}'
    ensures BraceEnd(s, i, left) == i + left
    decreases left
  {
    if left > 0 {
      BraceCut(s, i + 1, left - 1);
    }
  }
}
