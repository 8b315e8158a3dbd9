/** The environment store: a table of 16 variables that refines a bounded map, written to
    flash in compacted form after every change. */
module Environment {
  import opened CStrings

  const OS_ENV_MAX_VARS: nat := 16
  const OS_ENV_NAME_LEN: nat := 16
  const OS_ENV_VALUE_LEN: nat := 128

  datatype Entry = Entry(name: string, value: string, used: bool)

  const BLANK := Entry("", "", false)

  /** The stored form: the first count entries are meaningful. */
  datatype Blob = Blob(count: nat, entries: seq<Entry>)

  datatype Error = Ok | InvalidArg | InvalidState | NoMem | NotFound

  // ---------------------------------------------------------------- the pure model

  function Blanks(n: nat): (r: seq<Entry>)
    ensures |r| == n && forall i :: 0 <= i < n ==> r[i] == BLANK
  {
    seq(n, i => BLANK)
  }

  /** The first used slot from i on that holds name; |es| when there is none. */
  function FindFrom(es: seq<Entry>, name: string, i: nat): (r: nat)
    requires i <= |es|
    ensures i <= r <= |es| && (r < |es| ==> es[r].used && es[r].name == name)
    ensures forall j :: i <= j < r ==> !(es[j].used && es[j].name == name)
    decreases |es| - i
  {
    if i == |es| || (es[i].used && es[i].name == name) then i else FindFrom(es, name, i + 1)
  }

  function Find(es: seq<Entry>, name: string): nat {
    FindFrom(es, name, 0)
  }

  function FreeFrom(es: seq<Entry>, i: nat): (r: nat)
    requires i <= |es|
    ensures i <= r <= |es| && (r < |es| ==> !es[r].used)
    ensures forall j :: i <= j < r ==> es[j].used
    decreases |es| - i
  {
    if i == |es| || !es[i].used then i else FreeFrom(es, i + 1)
  }

  function Lookup(es: seq<Entry>, name: string): Option<string> {
    var i := Find(es, name);
    if i < |es| then Some(es[i].value) else None
  }

  /** The slot os_env_set writes: the one that holds the name, else the first free one. */
  function SetSlot(es: seq<Entry>, name: string): (r: nat)
    ensures r <= |es|
  {
    if Find(es, name) < |es| then Find(es, name) else FreeFrom(es, 0)
  }

  /** What a slot holds after the bounded copies of os_env_set. */
  function Stored(name: string, value: string): Entry {
    Entry(Prefix(name, OS_ENV_NAME_LEN - 1), Prefix(value, OS_ENV_VALUE_LEN - 1), true)
  }

  function Set(es: seq<Entry>, name: string, value: string): seq<Entry> {
    var i := SetSlot(es, name);
    if i < |es| then es[i := Stored(name, value)] else es
  }

  function Unset(es: seq<Entry>, name: string): seq<Entry> {
    var i := Find(es, name);
    if i < |es| then es[i := BLANK] else es
  }

  /** The used entries in slot order. */
  function Compact(es: seq<Entry>): (r: seq<Entry>)
    ensures |r| <= |es| && forall i :: 0 <= i < |r| ==> r[i].used
  {
    if es == [] then []
    else
      var before := Compact(es[..|es| - 1]);
      if Last(es).used then before + [Last(es)] else before
  }

  function Save(es: seq<Entry>): Blob
    requires |es| == OS_ENV_MAX_VARS
  {
    Blob(|Compact(es)|, Compact(es) + Blanks(OS_ENV_MAX_VARS - |Compact(es)|))
  }

  /** What os_env_init finds; None stands for a missing or ill-sized blob. */
  function Load(nvs: Option<Blob>): (r: seq<Entry>)
    requires nvs.Some? ==> |nvs.value.entries| == OS_ENV_MAX_VARS
    ensures |r| == OS_ENV_MAX_VARS
  {
    if nvs.None? then Blanks(OS_ENV_MAX_VARS)
    else seq(OS_ENV_MAX_VARS, i requires 0 <= i < OS_ENV_MAX_VARS =>
           if i < nvs.value.count then nvs.value.entries[i].(used := true) else BLANK)
  }

  // ---------------------------------------------------------------- the store

  ghost predicate Storable(e: Entry) {
    && |e.name| < OS_ENV_NAME_LEN && NulFree(e.name)
    && |e.value| < OS_ENV_VALUE_LEN && NulFree(e.value)
  }

  ghost predicate AllStorable(es: seq<Entry>) {
    forall i :: 0 <= i < |es| ==> Storable(es[i])
  }

  lemma {:induction false} CompactStorable(es: seq<Entry>)
    requires AllStorable(es)
    ensures AllStorable(Compact(es))
  {
    if es != [] {
      CompactStorable(es[..|es| - 1]);
    }
  }

  class Store {
    const entries: array<Entry>
    var initialised: bool
    var nvs: Option<Blob>  // the last committed blob

    ghost predicate Valid()
      reads this, entries
    {
      && entries.Length == OS_ENV_MAX_VARS
      && (forall i :: 0 <= i < OS_ENV_MAX_VARS ==> Storable(entries[i]))
      && (nvs.Some? ==> |nvs.value.entries| == OS_ENV_MAX_VARS)
      && (nvs.Some? ==> forall i :: 0 <= i < OS_ENV_MAX_VARS ==> Storable(nvs.value.entries[i]))
    }

    constructor ()
      ensures Valid() && fresh(entries) && !initialised && nvs == None
      ensures entries[..] == Blanks(OS_ENV_MAX_VARS)
    {
      entries := new Entry[OS_ENV_MAX_VARS](i => BLANK);
      initialised, nvs := false, None;
    }

    method FindSlot(name: string) returns (slot: nat)
      requires Valid()
      ensures slot == Find(entries[..], name)
    {
      slot := 0;
      while slot < OS_ENV_MAX_VARS && !(entries[slot].used && entries[slot].name == name)
        invariant slot <= OS_ENV_MAX_VARS && Find(entries[..], name) == FindFrom(entries[..], name, slot)
      {
        slot := slot + 1;
      }
    }

    method FindFreeSlot() returns (slot: nat)
      requires Valid()
      ensures slot == FreeFrom(entries[..], 0)
    {
      slot := 0;
      while slot < OS_ENV_MAX_VARS && entries[slot].used
        invariant slot <= OS_ENV_MAX_VARS && FreeFrom(entries[..], 0) == FreeFrom(entries[..], slot)
      {
        slot := slot + 1;
      }
    }

    /** save_locked; flash says whether the write and its commit succeed. */
    method SaveAll(flash: bool)
      requires Valid()
      modifies this`nvs
      ensures Valid() && nvs == if flash then Some(Save(entries[..])) else old(nvs)
    {
      var blob := Blob(0, Blanks(OS_ENV_MAX_VARS));
      for i := 0 to OS_ENV_MAX_VARS
        invariant blob.count == |Compact(entries[..i])|
        invariant blob.entries == Compact(entries[..i]) + Blanks(OS_ENV_MAX_VARS - blob.count)
      {
        assert entries[..i + 1][..i] == entries[..i];
        if entries[i].used && blob.count < OS_ENV_MAX_VARS {
          blob := Blob(blob.count + 1, blob.entries[blob.count := entries[i]]);
        }
      }
      assert entries[..OS_ENV_MAX_VARS] == entries[..];
      CompactStorable(entries[..]);
      if flash {
        nvs := Some(blob);
      }
    }

    /** os_env_init: load_locked with the blob the flash returns. */
    method Init()
      requires Valid()
      modifies this, entries
      ensures Valid() && initialised && nvs == old(nvs)
      ensures entries[..] == if old(initialised) then old(entries[..]) else Load(nvs)
    {
      if initialised {
        return;
      }
      forall i | 0 <= i < OS_ENV_MAX_VARS {
        entries[i] := BLANK;
      }
      if nvs.Some? {
        var i := 0;
        while i < nvs.value.count && i < OS_ENV_MAX_VARS
          invariant i <= OS_ENV_MAX_VARS && nvs == old(nvs)
          invariant forall j :: 0 <= j < OS_ENV_MAX_VARS ==>
                      entries[j] == if j < i then nvs.value.entries[j].(used := true) else BLANK
          invariant i <= nvs.value.count
        {
          entries[i] := nvs.value.entries[i].(used := true);
          i := i + 1;
        }
      }
      initialised := true;
    }

    method Deinit()
      requires Valid()
      modifies this`initialised
      ensures Valid() && !initialised
    {
      initialised := false;
    }

    method SetVar(name: string, value: string, flash: bool) returns (r: Error)
      requires Valid() && NulFree(name) && NulFree(value)
      modifies this, entries
      ensures Valid() && initialised == old(initialised)
      ensures r == (if !initialised || name == "" then InvalidArg
                    else if SetSlot(old(entries[..]), name) < OS_ENV_MAX_VARS then Ok else NoMem)
      ensures entries[..] == if r == Ok then Set(old(entries[..]), name, value) else old(entries[..])
      ensures nvs == if r == Ok && flash then Some(Save(entries[..])) else old(nvs)
    {
      if !initialised || name == "" {
        return InvalidArg;
      }
      var slot := FindSlot(name);
      if slot == OS_ENV_MAX_VARS {
        slot := FindFreeSlot();
      }
      if slot == OS_ENV_MAX_VARS {
        return NoMem;
      }
      entries[slot] := Stored(name, value);
      SaveAll(flash);
      return Ok;
    }

    method Get(name: string, buf: array<char>) returns (r: Error)
      requires Valid() && buf.Length > 0
      modifies buf
      ensures r == if !initialised then InvalidArg
                   else if Lookup(entries[..], name).None? then NotFound else Ok
      ensures r == Ok ==> HoldsAt(buf[..], 0, Prefix(Lookup(entries[..], name).value, buf.Length - 1))
      ensures r != Ok ==> buf[..] == old(buf[..])
    {
      if !initialised {
        return InvalidArg;
      }
      var slot := FindSlot(name);
      if slot == OS_ENV_MAX_VARS {
        return NotFound;
      }
      StrNCpy(buf, entries[slot].value, buf.Length - 1);
      buf[buf.Length - 1] := NUL;
      var kept := Prefix(entries[slot].value, buf.Length - 1);
      assert buf[0..|kept|] == kept;
      return Ok;
    }

    method UnsetVar(name: string, flash: bool) returns (r: Error)
      requires Valid()
      modifies this, entries
      ensures Valid() && initialised == old(initialised)
      ensures r == if !initialised || name == "" then InvalidArg
                   else if Lookup(old(entries[..]), name).Some? then Ok else NotFound
      ensures entries[..] == if r == Ok then Unset(old(entries[..]), name) else old(entries[..])
      ensures nvs == if r == Ok && flash then Some(Save(entries[..])) else old(nvs)
    {
      if !initialised || name == "" {
        return InvalidArg;
      }
      var slot := FindSlot(name);
      if slot == OS_ENV_MAX_VARS {
        return NotFound;
      }
      entries[slot] := BLANK;
      SaveAll(flash);
      return Ok;
    }

    method Clear(flash: bool) returns (r: Error)
      requires Valid()
      modifies this, entries
      ensures Valid() && initialised == old(initialised)
      ensures r == if initialised then Ok else InvalidState
      ensures entries[..] == if r == Ok then Blanks(OS_ENV_MAX_VARS) else old(entries[..])
      ensures nvs == if r == Ok && flash then Some(Save(entries[..])) else old(nvs)
    {
      if !initialised {
        return InvalidState;
      }
      forall i | 0 <= i < OS_ENV_MAX_VARS {
        entries[i] := BLANK;
      }
      SaveAll(flash);
      return Ok;
    }
  }

  // ---------------------------------------------------------------- lookups

  ghost predicate Distinct(es: seq<Entry>) {
    forall i, j :: 0 <= i < j < |es| && es[i].used && es[j].used ==> es[i].name != es[j].name
  }

  lemma FindIs(es: seq<Entry>, name: string, i: nat)
    requires i < |es| && es[i].used && es[i].name == name
    requires forall j :: 0 <= j < i ==> !(es[j].used && es[j].name == name)
    ensures Find(es, name) == i
  {
  }

  /** A successful set of a storable name changes exactly the lookup of that name. */
  lemma SetThenLookup(es: seq<Entry>, name: string, value: string, other: string)
    requires |name| < OS_ENV_NAME_LEN && SetSlot(es, name) < |es|
    ensures Lookup(Set(es, name, value), other)
         == if other == name then Some(Prefix(value, OS_ENV_VALUE_LEN - 1)) else Lookup(es, other)
  {
    var i, es' := SetSlot(es, name), Set(es, name, value);
    if other == name {
      FindIs(es', name, i);
    } else if Find(es, other) < |es| {
      assert forall j :: 0 <= j < |es| && j != i ==> es'[j] == es[j];
      FindIs(es', other, Find(es, other));
    } else {
      assert Find(es', other) == |es'|;
    }
  }

  /** Get after set finds the value, cut to its slot, if and only if the name fits its slot: a
      longer one is stored cut and never found again. */
  lemma SetThenGetIff(es: seq<Entry>, name: string, value: string)
    requires AllStorable(es) && SetSlot(es, name) < |es|
    ensures Lookup(Set(es, name, value), name) == Some(Prefix(value, 127)) <==> |name| <= 15
  {
    var es' := Set(es, name, value);
    if |name| < OS_ENV_NAME_LEN {
      SetThenLookup(es, name, value, name);
    } else {
      forall j | 0 <= j < |es'|
        ensures |es'[j].name| < OS_ENV_NAME_LEN
      {
        assert Storable(es[j]);
      }
      assert Find(es', name) == |es'|;
    }
  }

  lemma UnsetThenLookup(es: seq<Entry>, name: string, other: string)
    requires Distinct(es)
    ensures Lookup(Unset(es, name), other) == if other == name then None else Lookup(es, other)
  {
  }

  /** Names stay distinct after a set unless the name is too long for a slot and its first
      15 characters are a name already present: the search compares the uncut name. */
  lemma SetKeepsDistinctIff(es: seq<Entry>, name: string, value: string)
    requires Distinct(es) && AllStorable(es) && SetSlot(es, name) < |es|
    ensures Distinct(Set(es, name, value)) <==>
              |name| < OS_ENV_NAME_LEN || Lookup(es, Prefix(name, OS_ENV_NAME_LEN - 1)).None?
  {
    var i, es' := SetSlot(es, name), Set(es, name, value);
    var cut := Prefix(name, OS_ENV_NAME_LEN - 1);
    if |name| >= OS_ENV_NAME_LEN {
      assert Find(es, name) == |es|;
      var k := Find(es, cut);
      if k < |es| {
        assert es'[k].used && es'[i].used && es'[k].name == es'[i].name && k != i;
      }
    }
  }

  lemma LongNamesCollide()
    ensures !Distinct(Set(Set(Blanks(OS_ENV_MAX_VARS), "ABCDEFGHIJKLMNOP", "1"), "ABCDEFGHIJKLMNOP", "2"))
  {
    var name := "ABCDEFGHIJKLMNOP";
    var es0 := Blanks(OS_ENV_MAX_VARS);
    var es1 := Set(es0, name, "1");
    assert SetSlot(es0, name) == 0;
    assert Find(es1, name) == |es1|;
    assert FreeFrom(es1, 0) == FreeFrom(es1, 1) == 1;
    var es2 := Set(es1, name, "2");
    assert es2[0].used && es2[1].used && es2[0].name == es2[1].name;
  }

  // ---------------------------------------------------------------- compaction

  lemma {:induction false} FindSnoc(es: seq<Entry>, e: Entry, name: string, i: nat)
    requires i <= |es|
    ensures FindFrom(es + [e], name, i)
         == if FindFrom(es, name, i) < |es| then FindFrom(es, name, i)
            else if e.used && e.name == name then |es| else |es| + 1
    decreases |es| - i
  {
    if i < |es| {
      FindSnoc(es, e, name, i + 1);
    }
  }

  lemma {:induction false} LookupBlanks(es: seq<Entry>, n: nat, name: string)
    ensures Lookup(es + Blanks(n), name) == Lookup(es, name)
    decreases n
  {
    if n == 0 {
      assert es + Blanks(0) == es;
    } else {
      LookupBlanks(es, n - 1, name);
      assert es + Blanks(n) == (es + Blanks(n - 1)) + [BLANK];
      FindSnoc(es + Blanks(n - 1), BLANK, name, 0);
    }
  }

  lemma {:induction false} LookupCompact(es: seq<Entry>, name: string)
    ensures Lookup(Compact(es), name) == Lookup(es, name)
  {
    if es == [] {
    } else {
      var before, e := es[..|es| - 1], Last(es);
      LookupCompact(before, name);
      assert es == before + [e];
      FindSnoc(before, e, name, 0);
      FindSnoc(Compact(before), e, name, 0);
    }
  }

  lemma LoadIsCompact(es: seq<Entry>)
    requires |es| == OS_ENV_MAX_VARS
    ensures Load(Some(Save(es))) == Compact(es) + Blanks(OS_ENV_MAX_VARS - |Compact(es)|)
  {
  }

  /** Restarting from the stored blob answers every lookup as before; the table is the used
      entries in their slot order, moved to the front. */
  lemma PersistenceKeepsLookups(es: seq<Entry>, name: string)
    requires |es| == OS_ENV_MAX_VARS
    ensures Lookup(Load(Some(Save(es))), name) == Lookup(es, name)
  {
    LoadIsCompact(es);
    LookupCompact(es, name);
    LookupBlanks(Compact(es), OS_ENV_MAX_VARS - |Compact(es)|, name);
  }

  lemma {:induction false} CompactSnocBlanks(es: seq<Entry>, n: nat)
    ensures Compact(es + Blanks(n)) == Compact(es)
    decreases n
  {
    if n == 0 {
      assert es + Blanks(0) == es;
    } else {
      CompactSnocBlanks(es, n - 1);
      var all := es + Blanks(n);
      assert all[..|all| - 1] == es + Blanks(n - 1) && Last(all) == BLANK;
    }
  }

  lemma {:induction false} CompactAllUsed(es: seq<Entry>)
    requires forall i :: 0 <= i < |es| ==> es[i].used
    ensures Compact(es) == es
  {
    if es == [] {
    } else {
      CompactAllUsed(es[..|es| - 1]);
    }
  }

  /** Writing one slot changes the number of used entries by that slot's use alone. */
  lemma {:induction false} CompactUpdate(es: seq<Entry>, i: nat, e: Entry)
    requires i < |es|
    ensures |Compact(es[i := e])| - (if e.used then 1 else 0)
         == |Compact(es)| - (if es[i].used then 1 else 0)
  {
    var last := |es| - 1;
    if i == last {
      assert es[i := e][..last] == es[..last];
    } else {
      CompactUpdate(es[..last], i, e);
      assert es[i := e][..last] == es[..last][i := e];
    }
  }

  lemma {:induction false} CompactFull(es: seq<Entry>)
    ensures |Compact(es)| == |es| <==> FreeFrom(es, 0) == |es|
  {
    var k := FreeFrom(es, 0);
    if k < |es| {
      var full := es[k := es[k].(used := true)];
      CompactUpdate(es, k, es[k].(used := true));
      assert |Compact(full)| <= |full|;
    } else {
      CompactAllUsed(es);
    }
  }

  // ---------------------------------------------------------------- whole runs

  /** os_env_set, os_env_unset, os_env_clear, and a deinit followed by an init. */
  datatype Op = SetOp(name: string, value: string) | UnsetOp(name: string) | ClearOp | RestartOp

  datatype State = State(es: seq<Entry>, nvs: Option<Blob>)

  function Commit(es: seq<Entry>): State
    requires |es| == OS_ENV_MAX_VARS
  {
    State(es, Some(Save(es)))
  }

  ghost predicate Shaped(s: State) {
    && |s.es| == OS_ENV_MAX_VARS
    && (s.nvs.Some? ==> |s.nvs.value.entries| == OS_ENV_MAX_VARS)
  }

  /** The store as the methods above change it, every commit succeeding. */
  ghost function Apply(s: State, op: Op): State
    requires Shaped(s)
  {
    match op
    case SetOp(n, v) =>
      if n != "" && SetSlot(s.es, n) < OS_ENV_MAX_VARS then Commit(Set(s.es, n, v)) else s
    case UnsetOp(n) =>
      if n != "" && Lookup(s.es, n).Some? then Commit(Unset(s.es, n)) else s
    case ClearOp => Commit(Blanks(OS_ENV_MAX_VARS))
    case RestartOp => State(Load(s.nvs), s.nvs)
  }

  ghost function Run(ops: seq<Op>): (s: State)
    ensures Shaped(s)
  {
    if ops == [] then State(Blanks(OS_ENV_MAX_VARS), None)
    else Apply(Run(ops[..|ops| - 1]), Last(ops))
  }

  /** The same operations on a map with room for 16 names; a restart changes nothing. */
  function ApplyMap(m: map<string, string>, op: Op): map<string, string> {
    match op
    case SetOp(n, v) =>
      if n == "" || (n !in m && |m| >= OS_ENV_MAX_VARS) then m
      else m[n := Prefix(v, OS_ENV_VALUE_LEN - 1)]
    case UnsetOp(n) => if n == "" then m else m - {n}
    case ClearOp => map[]
    case RestartOp => m
  }

  function RunMap(ops: seq<Op>): map<string, string> {
    if ops == [] then map[] else ApplyMap(RunMap(ops[..|ops| - 1]), Last(ops))
  }

  ghost predicate ShortNames(ops: seq<Op>) {
    forall i :: 0 <= i < |ops| && ops[i].SetOp? ==> |ops[i].name| < OS_ENV_NAME_LEN
  }

  /** The table holds exactly the map. */
  ghost predicate Holds(es: seq<Entry>, m: map<string, string>) {
    && |es| == OS_ENV_MAX_VARS && Distinct(es) && |Compact(es)| == |m|
    && forall n :: Lookup(es, n) == if n in m then Some(m[n]) else None
  }

  ghost predicate Good(s: State, m: map<string, string>) {
    && Shaped(s) && Holds(s.es, m)
    && Holds(Load(s.nvs), m)
  }

  /** A set fails exactly when the name is new and 16 variables are present. */
  lemma SetFailsIff(es: seq<Entry>, m: map<string, string>, name: string)
    requires Holds(es, m)
    ensures SetSlot(es, name) == OS_ENV_MAX_VARS <==> name !in m && |m| == 16
  {
    assert Lookup(es, name).Some? <==> name in m;
    CompactFull(es);
  }

  lemma SetCounts(es: seq<Entry>, m: map<string, string>, name: string, e: Entry)
    requires Holds(es, m) && e.used && SetSlot(es, name) < |es|
    ensures |Compact(es[SetSlot(es, name) := e])| == |m| + if name in m then 0 else 1
  {
    CompactUpdate(es, SetSlot(es, name), e);
    assert Lookup(es, name).Some? <==> name in m;
  }

  lemma MapGrows(m: map<string, string>, name: string, value: string)
    ensures |m[name := value]| == |m| + if name in m then 0 else 1
  {
  }

  lemma SetHolds(es: seq<Entry>, m: map<string, string>, name: string, value: string)
    requires Holds(es, m) && |name| < OS_ENV_NAME_LEN && SetSlot(es, name) < |es|
    ensures Holds(Set(es, name, value), m[name := Prefix(value, OS_ENV_VALUE_LEN - 1)])
  {
    var es', m' := Set(es, name, value), m[name := Prefix(value, OS_ENV_VALUE_LEN - 1)];
    forall n ensures Lookup(es', n) == if n in m' then Some(m'[n]) else None {
      SetThenLookup(es, name, value, n);
    }
    SetCounts(es, m, name, Stored(name, value));
    MapGrows(m, name, Prefix(value, OS_ENV_VALUE_LEN - 1));
    assert Distinct(es') by {
      assert Find(es, name) == |es| ==> forall j :: 0 <= j < |es| && es[j].used ==> es[j].name != name;
    }
  }

  lemma UnsetCounts(es: seq<Entry>, m: map<string, string>, name: string)
    requires Holds(es, m)
    ensures |Compact(Unset(es, name))| == |m - {name}|
  {
    assert Lookup(es, name).Some? <==> name in m;
    assert (m - {name}).Keys == m.Keys - {name};
    assert |m - {name}| == |(m - {name}).Keys| && |m| == |m.Keys|;
    if name in m {
      CompactUpdate(es, Find(es, name), BLANK);
    }
  }

  lemma UnsetHolds(es: seq<Entry>, m: map<string, string>, name: string)
    requires Holds(es, m)
    ensures Holds(Unset(es, name), m - {name})
  {
    var es', m' := Unset(es, name), m - {name};
    forall n ensures Lookup(es', n) == if n in m' then Some(m'[n]) else None {
      UnsetThenLookup(es, name, n);
    }
    UnsetCounts(es, m, name);
  }

  lemma BlanksHold()
    ensures Holds(Blanks(OS_ENV_MAX_VARS), map[])
  {
    CompactSnocBlanks([], OS_ENV_MAX_VARS);
    assert [] + Blanks(OS_ENV_MAX_VARS) == Blanks(OS_ENV_MAX_VARS);
  }

  lemma {:induction false} CompactDistinct(es: seq<Entry>)
    requires Distinct(es)
    ensures Distinct(Compact(es))
  {
    if es == [] {
    } else {
      var before, e := es[..|es| - 1], Last(es);
      CompactDistinct(before);
      if e.used {
        forall i | 0 <= i < |Compact(before)| ensures Compact(before)[i].name != e.name {
          var name := Compact(before)[i].name;
          LookupCompact(before, name);
          var k := Find(Compact(before), name);
          assert Lookup(before, name).Some?;
          var j := Find(before, name);
          assert es[j] == before[j] && es[|es| - 1] == e;
        }
      }
    }
  }

  lemma LoadKeepsShape(es: seq<Entry>)
    requires |es| == OS_ENV_MAX_VARS && Distinct(es)
    ensures Distinct(Load(Some(Save(es)))) && |Compact(Load(Some(Save(es))))| == |Compact(es)|
  {
    LoadIsCompact(es);
    CompactDistinct(es);
    CompactAllUsed(Compact(es));
    CompactSnocBlanks(Compact(es), OS_ENV_MAX_VARS - |Compact(es)|);
  }

  lemma RestartHolds(es: seq<Entry>, m: map<string, string>)
    requires Holds(es, m)
    ensures Holds(Load(Some(Save(es))), m)
  {
    LoadKeepsShape(es);
    forall n ensures Lookup(Load(Some(Save(es))), n) == if n in m then Some(m[n]) else None {
      PersistenceKeepsLookups(es, n);
    }
  }

  lemma CommitIsGood(es: seq<Entry>, m: map<string, string>)
    requires Holds(es, m)
    ensures Good(Commit(es), m)
  {
    RestartHolds(es, m);
  }

  lemma ApplyIsGood(s: State, m: map<string, string>, op: Op)
    requires Good(s, m) && (op.SetOp? ==> |op.name| < OS_ENV_NAME_LEN)
    ensures Good(Apply(s, op), ApplyMap(m, op))
  {
    match op
    case SetOp(n, v) => SetIsGood(s, m, n, v);
    case UnsetOp(n) =>
      if n != "" && Lookup(s.es, n).Some? {
        UnsetHolds(s.es, m, n);
        CommitIsGood(Unset(s.es, n), m - {n});
      } else {
        assert n != "" ==> n !in m && m - {n} == m;
      }
    case ClearOp =>
      BlanksHold();
      CommitIsGood(Blanks(OS_ENV_MAX_VARS), map[]);
    case RestartOp =>
  }

  lemma SetIsGood(s: State, m: map<string, string>, n: string, v: string)
    requires Good(s, m) && |n| < OS_ENV_NAME_LEN
    ensures Good(Apply(s, SetOp(n, v)), ApplyMap(m, SetOp(n, v)))
  {
    SetFailsIff(s.es, m, n);
    if n != "" && SetSlot(s.es, n) < OS_ENV_MAX_VARS {
      SetHolds(s.es, m, n, v);
      CommitIsGood(Set(s.es, n, v), m[n := Prefix(v, OS_ENV_VALUE_LEN - 1)]);
    }
  }

  /** Over any run of sets, unsets, clears and restarts the table is a map with room for 16
      variables: distinct names, the map's answers, and the same answers after a restart. */
  lemma {:induction false} TableRefinesMap(ops: seq<Op>)
    requires ShortNames(ops)
    ensures Holds(Run(ops).es, RunMap(ops)) && Holds(Load(Run(ops).nvs), RunMap(ops))
    ensures |RunMap(ops)| <= OS_ENV_MAX_VARS
  {
    if ops == [] {
      BlanksHold();
    } else {
      TableRefinesMap(ops[..|ops| - 1]);
      ApplyIsGood(Run(ops[..|ops| - 1]), RunMap(ops[..|ops| - 1]), Last(ops));
    }
  }
}
