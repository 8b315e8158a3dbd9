/** Path resolution and the working directory of the file system component. */
module Paths {
  import opened CStrings

  const MOUNT: string := "/spiffs"
  const OS_FS_PATH_MAX: nat := 128
  const OS_FS_CWD_MAX: nat := 128
  /** The size of the buffer chdir resolves its argument into. */
  const ABS_SIZE: nat := OS_FS_PATH_MAX + 16

  /** What stat finds at a path. */
  datatype Kind = Dir | NotDir | Missing

  datatype Result = Ok | NotFound | InvalidArg

  // ---------------------------------------------------------------- resolution

  predicate Absolute(p: string) {
    p != "" && p[0] == '/'
  }

  /** The path with a '/' at its end, added only if missing. */
  function Slash(p: string): (r: string)
    ensures p <= r && r != "" && Last(r) == '/' && |r| <= |p| + 1
  {
    if p != "" && Last(p) == '/' then p else p + "/"
  }

  /** The full path of p seen from a working directory, as if no buffer bounded it. */
  function Abs(cwd: string, p: string): (r: string)
    ensures MOUNT <= r
  {
    if !Absolute(p) then Slash(MOUNT + cwd) + p
    else if MOUNT <= p then p
    else MOUNT + p
  }

  /** A stored working directory: a non-empty C string that fits its buffer. */
  predicate CwdOk(cwd: string) {
    NulFree(cwd) && 0 < |cwd| < OS_FS_CWD_MAX
  }

  /** A full path without the mount point, cut to the working directory's buffer. */
  function Stored(full: string): (r: string)
    ensures NulFree(full) ==> CwdOk(r)
  {
    var rel := if MOUNT <= full then full[|MOUNT|..] else full;
    Prefix(if rel == "" then "/" else rel, OS_FS_CWD_MAX - 1)
  }

  /** The working directory after chdir(p), and what chdir returns; disk is what stat answers. */
  function Chdir(disk: string -> Kind, cwd: string, p: string): (string, Result) {
    var full := Prefix(Abs(cwd, p), ABS_SIZE - 1);
    match disk(full)
    case Missing => (cwd, NotFound)
    case NotDir => (cwd, InvalidArg)
    case Dir => (Stored(full), Ok)
  }

  /** The full path in each of the cases, by the first and last characters. */
  lemma FullPathIs(cwd: string, p: string)
    ensures "/spiffs" <= p ==> Abs(cwd, p) == p
    ensures p != "" && p[0] == '/' && !("/spiffs" <= p) ==> Abs(cwd, p) == "/spiffs" + p
    ensures p == "" || p[0] != '/' ==>
              Abs(cwd, p) == if cwd != "" && Last(cwd) != '/' then "/spiffs" + cwd + "/" + p
                             else if cwd != "" then "/spiffs" + cwd + p else "/spiffs/" + p
  {
    if p == "" || p[0] != '/' {
      assert cwd != "" ==> Last(MOUNT + cwd) == Last(cwd);
      assert cwd == "" ==> MOUNT + cwd == MOUNT && MOUNT + "/" == "/spiffs/";
    }
  }

  /** What chdir returns for each answer of stat to the first 143 characters of the full path. Only
      a directory is entered: what follows the mount point is kept, up to 127 characters. */
  lemma ChdirOutcome(disk: string -> Kind, cwd: string, p: string)
    ensures
      var full, (cwd', r) := Prefix(Abs(cwd, p), 143), Chdir(disk, cwd, p);
      && (r == NotFound <==> disk(full) == Missing)
      && (r == InvalidArg <==> disk(full) == NotDir)
      && (r == Ok <==> disk(full) == Dir)
      && (r != Ok ==> cwd' == cwd)
      && (r == Ok ==> "/spiffs" <= full && cwd' == if full == "/spiffs" then "/" else Prefix(full[7..], 127))
  {
    var full := Prefix(Abs(cwd, p), 143);
    assert full[..7] == Abs(cwd, p)[..7] == MOUNT;
  }

  // ---------------------------------------------------------------- string facts

  lemma SlashAppend(a: string, b: string)
    requires b != ""
    ensures Slash(a + b) == a + Slash(b)
  {
  }

  /** Neither a leading component without the mount point nor the root reaches into it. */
  lemma MountHasOneSlash(k: nat)
    requires 0 < k < |MOUNT|
    ensures MOUNT[k] != '/'
  {
  }

  // ---------------------------------------------------------------- laws of resolution

  /** Resolving a resolved path changes nothing, from wherever it is done. */
  lemma Idempotent(cwd: string, cwd': string, p: string)
    ensures Abs(cwd', Abs(cwd, p)) == Abs(cwd, p)
  {
  }

  /** The same with every result cut to a buffer of n characters, however small. */
  lemma CutIdempotent(cwd: string, cwd': string, p: string, n: nat)
    ensures Prefix(Abs(cwd', Prefix(Abs(cwd, p), n)), n) == Prefix(Abs(cwd, p), n)
  {
  }

  /** The full path, with its '/', fits the 127 characters the working directory has behind the
      mount point. */
  predicate Keeps(full: string) {
    var room := |MOUNT| + OS_FS_CWD_MAX - 1;
    |full| <= room || (|full| == room + 1 && Last(full) == '/' && full[room - 1] != '/')
  }

  /** Changing to p and then naming r is naming r below p, for every working directory, exactly
      if the full path of p can be kept. */
  lemma ChdirThenNameIff(cwd: string, p: string, r: string)
    requires !Absolute(r)
    ensures var full := Abs(cwd, p);
            Abs(Stored(Prefix(full, ABS_SIZE - 1)), r) == Slash(full) + r <==> Keeps(full)
  {
    var full := Abs(cwd, p);
    var cwd' := Stored(Prefix(full, ABS_SIZE - 1));
    StoredIsCut(full);
    SlashCutIff(full, |MOUNT| + OS_FS_CWD_MAX - 1);
    SameBeforeSuffix(Slash(MOUNT + cwd'), Slash(full), r);
  }

  lemma SameBeforeSuffix(a: string, b: string, r: string)
    ensures a + r == b + r <==> a == b
  {
    if a + r == b + r {
      assert |a| == |b|;
      assert a == (a + r)[..|a|] == (b + r)[..|b|] == b;
    }
  }

  /** Behind the mount point the stored directory is the full path, cut to 134 characters. */
  lemma StoredIsCut(full: string)
    requires MOUNT <= full
    ensures Slash(MOUNT + Stored(Prefix(full, ABS_SIZE - 1))) == Slash(Prefix(full, |MOUNT| + OS_FS_CWD_MAX - 1))
  {
    var cut := Prefix(full, ABS_SIZE - 1);
    var stored := Stored(cut);
    if full == MOUNT {
      assert stored == "/";
      assert MOUNT + "/" == MOUNT + stored;
    } else {
      assert cut[..|MOUNT|] == full[..|MOUNT|] == MOUNT;
      assert stored == Prefix(cut[|MOUNT|..], OS_FS_CWD_MAX - 1);
      assert MOUNT + stored == Prefix(full, |MOUNT| + OS_FS_CWD_MAX - 1);
    }
  }

  /** Cutting a path to n characters keeps it, up to the '/' at its end, in exactly these cases. */
  lemma SlashCutIff(full: string, n: nat)
    requires n > 0
    ensures Slash(Prefix(full, n)) == Slash(full)
            <==> |full| <= n || (|full| == n + 1 && Last(full) == '/' && full[n - 1] != '/')
  {
  }

  /** Two changes of directory against one: the path a with b below it names b below a exactly if
      a is not the root or b does not itself begin with the name of the mount point. */
  lemma JoinedIff(cwd: string, a: string, b: string)
    requires a != "" && !Absolute(b)
    ensures Abs(cwd, Slash(a) + b) == Slash(Abs(cwd, a)) + b
            <==> !(a == "/" && MOUNT[1..] <= b)
  {
    var joined := Slash(a) + b;
    assert joined[0] == a[0];
    if !Absolute(a) {
      SlashAppend(Slash(MOUNT + cwd), a);
      Assoc(Slash(MOUNT + cwd), Slash(a), b);
    } else if MOUNT <= a {
      assert joined[..|MOUNT|] == a[..|MOUNT|] == MOUNT;
    } else {
      SlashAppend(MOUNT, a);
      Assoc(MOUNT, Slash(a), b);
      MountInJoinIff(a, b);
      assert |MOUNT + joined| > |joined|;
    }
  }

  /** Joining does not create the mount point in front, except at the root. */
  lemma MountInJoinIff(a: string, b: string)
    requires Absolute(a) && !(MOUNT <= a)
    ensures MOUNT <= Slash(a) + b <==> a == "/" && MOUNT[1..] <= b
  {
    var joined := Slash(a) + b;
    if a == "/" {
      assert joined == "/" + b;
      assert MOUNT == "/" + MOUNT[1..];
      if MOUNT <= joined {
        assert MOUNT[1..] == joined[..|MOUNT|][1..] == b[..|MOUNT| - 1];
      }
      if MOUNT[1..] <= b {
        assert joined[..|MOUNT|] == MOUNT;
      }
    } else {
      var k := |Slash(a)| - 1;
      assert 0 < k && joined[k] == '/';
      if k < |MOUNT| {
        MountHasOneSlash(k);
      } else {
        assert joined[..|MOUNT|] == a[..|MOUNT|];
      }
    }
  }

  /** Listing or entering the path that getcwd reports reaches the working directory exactly if
      that path begins with '/' and not with the mount point's own name. */
  lemma ReportedCwdIff(cwd: string)
    ensures Abs(cwd, cwd) == MOUNT + cwd <==> Absolute(cwd) && !(MOUNT <= cwd)
  {
  }

  // ---------------------------------------------------------------- whole runs

  function Run(disk: string -> Kind, cwd: string, ps: seq<string>): string
    decreases |ps|
  {
    if ps == [] then cwd else Run(disk, Chdir(disk, cwd, ps[0]).0, ps[1..])
  }

  predicate AllNulFree(ps: seq<string>) {
    forall k :: 0 <= k < |ps| ==> NulFree(ps[k])
  }

  lemma ChdirKeepsCwdOk(disk: string -> Kind, cwd: string, p: string)
    requires CwdOk(cwd) && NulFree(p)
    ensures CwdOk(Chdir(disk, cwd, p).0)
  {
    assert NulFree(MOUNT);
    assert NulFree(Abs(cwd, p));
    assert NulFree(Prefix(Abs(cwd, p), ABS_SIZE - 1));
  }

  /** In every run the stored directory stays a non-empty C string within its buffer. */
  lemma {:induction false} RunKeepsCwdOk(disk: string -> Kind, cwd: string, ps: seq<string>)
    requires CwdOk(cwd) && AllNulFree(ps)
    ensures CwdOk(Run(disk, cwd, ps))
    decreases |ps|
  {
    if ps == [] {
    } else {
      ChdirKeepsCwdOk(disk, cwd, ps[0]);
      RunKeepsCwdOk(disk, Chdir(disk, cwd, ps[0]).0, ps[1..]);
    }
  }

  /** The reference: the working directory is a full path of any length. */
  function Ideal(base: string, p: string): (r: string)
    ensures MOUNT <= base ==> MOUNT <= r
  {
    if !Absolute(p) then Slash(base) + p
    else if MOUNT <= p then p
    else MOUNT + p
  }

  function IdealRun(disk: string -> Kind, base: string, ps: seq<string>): string
    decreases |ps|
  {
    if ps == [] then base
    else
      var full := Ideal(base, ps[0]);
      IdealRun(disk, if disk(full) == Dir then full else base, ps[1..])
  }

  /** Every full path the reference run asks stat about is short enough to be stored. */
  predicate Fits(disk: string -> Kind, base: string, ps: seq<string>)
    decreases |ps|
  {
    ps == [] ||
    (var full := Ideal(base, ps[0]);
     |full| < |MOUNT| + OS_FS_CWD_MAX && Fits(disk, if disk(full) == Dir then full else base, ps[1..]))
  }

  /** While the paths fit, a run of changes resolves every later name as the reference does. */
  lemma {:induction false} RunRefinesIdeal(disk: string -> Kind, cwd: string, base: string, ps: seq<string>, r: string)
    requires Slash(MOUNT + cwd) == Slash(base) && Fits(disk, base, ps)
    ensures Abs(Run(disk, cwd, ps), r) == Ideal(IdealRun(disk, base, ps), r)
    decreases |ps|
  {
    if ps == [] {
    } else {
      var full := Ideal(base, ps[0]);
      assert full == Abs(cwd, ps[0]);
      StoredIsCut(full);
      RunRefinesIdeal(disk, Chdir(disk, cwd, ps[0]).0, if disk(full) == Dir then full else base, ps[1..], r);
    }
  }

  /** After any run of changes, those that fail included, a last change to p that succeeds makes
      a relative name resolve below p, as p was resolved before that change, exactly if the full
      path of p can be kept. */
  lemma RunThenChdirIff(disk: string -> Kind, cwd: string, ps: seq<string>, p: string, r: string)
    requires !Absolute(r)
    ensures var full := Abs(Run(disk, cwd, ps), p);
            Chdir(disk, Run(disk, cwd, ps), p).1 == Ok ==>
              (Abs(Run(disk, cwd, ps + [p]), r) == Slash(full) + r <==> Keeps(full))
  {
    RunAppend(disk, cwd, ps, p);
    LastChdirIff(disk, Run(disk, cwd, ps), p, r);
  }

  lemma LastChdirIff(disk: string -> Kind, cwd: string, p: string, r: string)
    requires !Absolute(r)
    ensures Chdir(disk, cwd, p).1 == Ok ==>
              (Abs(Chdir(disk, cwd, p).0, r) == Slash(Abs(cwd, p)) + r <==> Keeps(Abs(cwd, p)))
  {
    ChdirThenNameIff(cwd, p, r);
  }

  lemma {:induction false} RunAppend(disk: string -> Kind, cwd: string, ps: seq<string>, p: string)
    ensures Run(disk, cwd, ps + [p]) == Chdir(disk, Run(disk, cwd, ps), p).0
    decreases |ps|
  {
    if ps == [] {
      assert Run(disk, Chdir(disk, cwd, p).0, []) == Chdir(disk, cwd, p).0;
    } else {
      assert (ps + [p])[1..] == ps[1..] + [p];
      RunAppend(disk, Chdir(disk, cwd, ps[0]).0, ps[1..], p);
    }
  }

  // ---------------------------------------------------------------- the conditions are needed

  lemma OneChange(disk: string -> Kind, cwd: string, p: string)
    ensures Run(disk, cwd, [p]) == Chdir(disk, cwd, p).0
  {
    assert Run(disk, Chdir(disk, cwd, p).0, []) == Chdir(disk, cwd, p).0;
  }

  /** A directory name of 130 characters below the root: its full path has 138. After changing
      to it from the start, names resolve elsewhere. */
  lemma LongPathIsCut(disk: string -> Kind, name: string)
    requires |name| == 130 && NulFree(name) && name[0] != 's' && Last(name) != '/'
    requires disk(MOUNT + "/" + name) == Dir
    ensures Abs("/", "/" + name) == MOUNT + "/" + name
    ensures Abs(Run(disk, "/", ["/" + name]), "x") != Slash(MOUNT + "/" + name) + "x"
  {
    var full := MOUNT + "/" + name;
    assert ("/" + name)[1] == name[0] != MOUNT[1];
    Assoc(MOUNT, "/", name);
    OneChange(disk, "/", "/" + name);
    assert Last(full) == Last(name);
    ChdirThenNameIff("/", "/" + name, "x");
  }

  /** A directory below the root named like the mount point: changing to the root and naming it
      is not naming it from the root. */
  lemma RootHidesMountName(disk: string -> Kind, cwd: string)
    requires disk(MOUNT + "/") == Dir
    ensures Abs(Run(disk, cwd, ["/"]), "spiffs") == MOUNT + "/spiffs"
    ensures Abs(cwd, "/spiffs") == MOUNT
  {
    OneChange(disk, cwd, "/");
    assert Abs(cwd, "/") == MOUNT + "/";
    assert (MOUNT + "/")[|MOUNT|..] == "/";
    assert MOUNT + "/" + "spiffs" == MOUNT + "/spiffs";
  }

  /** Inside that directory the path getcwd reports is the mount point: ls lists the root. */
  lemma ReportedCwdMisleads(disk: string -> Kind)
    requires disk(MOUNT + "/") == Dir && disk(MOUNT + "/spiffs") == Dir
    ensures var cwd := Run(disk, "/", ["/", "spiffs"]);
            cwd == MOUNT && Abs(cwd, "") == MOUNT + MOUNT + "/" && Abs(cwd, cwd) == MOUNT
  {
    RootHidesMountName(disk, "/");
    OneChange(disk, "/", "/");
    var root := Run(disk, "/", ["/"]);
    RunAppend(disk, "/", ["/"], "spiffs");
    assert ["/"] + ["spiffs"] == ["/", "spiffs"];
    assert (MOUNT + "/spiffs")[|MOUNT|..] == MOUNT;
  }

  // ---------------------------------------------------------------- the buffers

  lemma Held(m: seq<char>, t: string)
    requires NulFree(t) && |t| < |m| && m[|t|] == NUL && forall i :: 0 <= i < |t| ==> m[i] == t[i]
    ensures HoldsAt(m, 0, t) && StrAt(m, 0) == t
  {
  }

  /** The buffer starts with the text t, and the character behind it is a NUL or the buffer's last. */
  predicate Starts(m: seq<char>, t: string) {
    |t| < |m| && (forall i :: 0 <= i < |t| ==> m[i] == t[i]) && (|t| < |m| - 1 ==> m[|t|] == NUL)
  }

  /** strncpy of one character less than the buffer holds. */
  method CopyCut(d: array<char>, s: string)
    requires NulFree(s) && d.Length > 0
    modifies d
    ensures Starts(d[..], Prefix(s, d.Length - 1))
  {
    StrNCpy(d, s, d.Length - 1);
  }

  /** Put the final NUL in place. */
  method Terminate(d: array<char>, ghost t: string)
    requires NulFree(t) && Starts(d[..], t)
    modifies d
    ensures StrAt(d[..], 0) == t && d[d.Length - 1] == NUL
  {
    d[d.Length - 1] := NUL;
    Held(d[..], t);
  }

  /** snprintf of a text into the whole buffer: cut to fit, and always terminated. */
  method SNPrintF(d: array<char>, s: string)
    requires NulFree(s) && d.Length > 0
    modifies d
    ensures StrAt(d[..], 0) == Prefix(s, d.Length - 1) && Starts(d[..], Prefix(s, d.Length - 1))
  {
    var t := Prefix(s, d.Length - 1);
    forall i | 0 <= i < |t| {
      d[i] := t[i];
    }
    d[|t|] := NUL;
    Held(d[..], t);
  }

  /** strncat of at most n characters behind the text in the buffer. */
  method StrNCat(d: array<char>, s: string, n: nat)
    requires NulFree(s) && |StrAt(d[..], 0)| + |Prefix(s, n)| < d.Length
    modifies d
    ensures StrAt(d[..], 0) == old(StrAt(d[..], 0)) + Prefix(s, n)
  {
    var text, t := StrAt(d[..], 0), Prefix(s, n);
    forall i | 0 <= i < |t| {
      d[|text| + i] := t[i];
    }
    d[|text| + |t|] := NUL;
    assert old(d[..])[0..|text|] == text;
    forall i | 0 <= i < |text|
      ensures d[i] == text[i]
    {
      assert d[i] == old(d[..])[0..|text|][i];
    }
    Held(d[..], text + t);
  }

  lemma AbsNulFree(cwd: string, p: string)
    requires NulFree(cwd) && NulFree(p)
    ensures NulFree(MOUNT) && NulFree(Abs(cwd, p))
  {
  }

  class FileSystem {
    const cwd: array<char>

    ghost function Cwd(): string
      reads cwd
    {
      StrAt(cwd[..], 0)
    }

    ghost predicate Valid()
      reads cwd
    {
      cwd.Length == OS_FS_CWD_MAX && CwdOk(Cwd())
    }

    constructor ()
      ensures Valid() && fresh(cwd) && Cwd() == "/"
    {
      cwd := new char[OS_FS_CWD_MAX];
      new;
      StrNCpy(cwd, "/", cwd.Length);
      Held(cwd[..], "/");
    }

    /** The working directory is never cut here: 7 + 127 characters and a '/' fit the 160 of the
        local buffer. Only out cuts, and out is always terminated. */
    method AbsPath(rel: string, out: array<char>)
      requires Valid() && NulFree(rel) && out != cwd
      modifies out
      ensures out.Length > 0 ==> StrAt(out[..], 0) == Prefix(Abs(Cwd(), rel), out.Length - 1)
      ensures out.Length > 0 ==> |StrAt(out[..], 0)| < out.Length && out[out.Length - 1] == NUL
    {
      if out.Length == 0 {
        return;
      }
      AbsNulFree(Cwd(), rel);
      if rel != "" && rel[0] == '/' {
        if MOUNT <= rel {
          CopyCut(out, rel);
        } else {
          SNPrintF(out, MOUNT + rel);
        }
      } else {
        var base := CwdBase();
        SNPrintF(out, base + rel);
      }
      Terminate(out, Prefix(Abs(Cwd(), rel), out.Length - 1));
    }

    /** The mount point and the working directory, put together in the local buffer. */
    method CwdBase() returns (base: string)
      requires Valid()
      ensures base == Slash(MOUNT + Cwd()) && NulFree(base)
    {
      var fullCwd := new char[OS_FS_CWD_MAX + 32];
      assert NulFree(MOUNT);
      SNPrintF(fullCwd, MOUNT + StrAt(cwd[..], 0));
      var len := |StrAt(fullCwd[..], 0)|;
      assert fullCwd[len - 1] == Last(MOUNT + Cwd()) by {
        assert fullCwd[..][0..len] == MOUNT + Cwd();
      }
      if fullCwd[len - 1] != '/' {
        StrNCat(fullCwd, "/", fullCwd.Length - len - 1);
      }
      base := StrAt(fullCwd[..], 0);
    }

    /** disk is what stat answers for a full path. */
    method ChangeDir(path: string, disk: string -> Kind) returns (err: Result)
      requires Valid() && NulFree(path)
      modifies cwd
      ensures Valid() && (Cwd(), err) == Chdir(disk, old(Cwd()), path)
    {
      ChdirKeepsCwdOk(disk, Cwd(), path);
      var abs := new char[ABS_SIZE];
      AbsPath(path, abs);
      var full := StrAt(abs[..], 0);
      if disk(full) == Missing {
        return NotFound;
      }
      if disk(full) == NotDir {
        return InvalidArg;
      }
      var rel := if MOUNT <= full then full[|MOUNT|..] else full;
      if rel == "" {
        rel := "/";
      }
      CopyCut(cwd, rel);
      Terminate(cwd, Prefix(rel, cwd.Length - 1));
      return Ok;
    }
  }
}
