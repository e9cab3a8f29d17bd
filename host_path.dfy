/** The Windows path functions of the host (`os.path.join`, `basename`, `splitext`), for
    drive-letter paths; UNC paths are not modelled. */
module HostPath {
  import opened Wrappers
  import opened Text
  import opened Seqs

  predicate IsSep(c: char)
  {
    c == '\\' || c == '/'
  }

  predicate NoSep(s: string)
  {
    forall i :: 0 <= i < |s| ==> !IsSep(s[i])
  }

  /** The drive part `X:` of a path, or nothing. */
  function Drive(p: string): (d: string)
    ensures d == [] || (|p| >= 2 && p[1] == ':' && d == p[..2])
    ensures d == [] <==> !(|p| >= 2 && p[1] == ':')
  {
    if |p| >= 2 && p[1] == ':' then p[..2] else []
  }

  /** `os.path.join(a, b)`: a rooted `b` keeps its own drive, or else that of `a`; a `b`
      on another drive (letters compared without case) replaces `a`; otherwise the path
      part of `b` follows that of `a`, after a separator unless `a` has no path part or
      ends in one, on the drive of `b` if it names one. */
  function PathJoin(a: string, b: string): (r: string)
    ensures EndsWith(r, b[|Drive(b)|..])
    ensures Drive(b) == [] ==> EndsWith(r, b)
  {
    var aDrive, aPath := Drive(a), a[|Drive(a)|..];
    var bDrive, bPath := Drive(b), b[|Drive(b)|..];
    if bPath != [] && IsSep(bPath[0]) then (if bDrive != [] || aDrive == [] then bDrive else aDrive) + bPath
    else if bDrive != [] && Lower(bDrive) != Lower(aDrive) then b
    else
      var joined := (if aPath != [] && !IsSep(aPath[|aPath| - 1]) then aPath + "\\" else aPath) + bPath;
      (if bDrive != [] then bDrive else aDrive) + joined
  }

  /** A relative part naming the drive of the folder is joined below it. */
  lemma JoinSameDriveRelative()
    ensures PathJoin("C:\\x", "C:foo") == "C:\\x\\foo"
  {
    assert Drive("C:\\x") == "C:" && Drive("C:foo") == "C:";
    assert "C:\\x"[2..] == "\\x" && "C:foo"[2..] == "foo";
  }

  /** A relative part on another drive replaces the folder. */
  lemma JoinOtherDrive()
    ensures PathJoin("C:\\x", "D:foo") == "D:foo"
  {
    assert Drive("C:\\x") == "C:" && Drive("D:foo") == "D:";
    assert "D:foo"[2..] == "foo";
    assert Lower("D:")[0] == 'd' && Lower("C:")[0] == 'c';
  }

  /** The position just after the last separator of `p`, or after its drive. */
  function BaseStart(p: string): (i: nat)
    ensures |Drive(p)| <= i <= |p|
    ensures forall j :: i <= j < |p| ==> !IsSep(p[j])
    ensures i > |Drive(p)| ==> IsSep(p[i - 1])
    decreases |p|
  {
    if |p| == |Drive(p)| then |p|
    else if IsSep(p[|p| - 1]) then |p|
    else BaseStart(p[..|p| - 1])
  }

  /** `os.path.basename(p)`. */
  function Basename(p: string): (r: string)
    ensures NoSep(r) && EndsWith(p, r)
  {
    p[BaseStart(p)..]
  }

  /** `s` without its trailing separators. */
  function TrimSeps(s: string): (r: string)
    ensures |r| <= |s| && r == s[..|r|]
    ensures r == [] || !IsSep(r[|r| - 1])
    ensures forall j :: |r| <= j < |s| ==> IsSep(s[j])
  {
    if s == [] || !IsSep(s[|s| - 1]) then s else TrimSeps(s[..|s| - 1])
  }

  /** `os.path.dirname(p)`: the drive and what precedes the last component, without
      its trailing separators unless it consists of separators only. */
  function Dirname(p: string): (r: string)
    ensures StartsWith(r, Drive(p))
  {
    var d := Drive(p);
    var head := p[|d|..BaseStart(p)];
    var t := TrimSeps(head);
    d + (if t == [] then head else t)
  }

  /** The index of the last `.` of `s`, if any. */
  function LastDot(s: string): (r: Option<nat>)
    ensures r.Some? ==> r.value < |s| && s[r.value] == '.' && forall j :: r.value < j < |s| ==> s[j] != '.'
    ensures r.None? ==> '.' !in s
  {
    if s == [] then None
    else if s[|s| - 1] == '.' then Some(|s| - 1)
    else
      var r := LastDot(s[..|s| - 1]);
      assert s == s[..|s| - 1] + [s[|s| - 1]];
      r
  }

  /** All characters of `s` are dots. */
  predicate AllDots(s: string)
  {
    forall i :: 0 <= i < |s| ==> s[i] == '.'
  }

  /** The position just after the last separator of `p`, or 0; unlike `BaseStart` it
      does not treat a drive as a separator. */
  function AfterLastSep(p: string): (i: nat)
    ensures i <= |p|
    ensures forall j :: i <= j < |p| ==> !IsSep(p[j])
    ensures i > 0 ==> IsSep(p[i - 1])
    decreases |p|
  {
    if p == [] || IsSep(p[|p| - 1]) then |p| else AfterLastSep(p[..|p| - 1])
  }

  /** `os.path.splitext(p)[1]`: the extension of what follows the last separator (a
      drive is not one), from its last dot, unless every character before that dot there
      is a dot too. */
  function Extension(p: string): (r: string)
    ensures r == [] || (r[0] == '.' && EndsWith(p, r) && '.' !in r[1..] && NoSep(r))
  {
    var name := p[AfterLastSep(p)..];
    match LastDot(name)
    case None => []
    case Some(d) => if AllDots(name[..d]) then [] else name[d..]
  }

  /** A drive is not a separator for the extension. */
  lemma ExtensionIgnoresDrive()
    ensures Extension("C:.txt") == ".txt"
  {
    var p := "C:.txt";
    assert !IsSep(p[5]) && !IsSep(p[4]) && !IsSep(p[3]) && !IsSep(p[2]) && !IsSep(p[1]) && !IsSep(p[0]);
    assert AfterLastSep(p) == 0 by {
      assert p[..5][..4] == p[..4] && p[..4][..3] == p[..3] && p[..3][..2] == p[..2] && p[..2][..1] == p[..1];
      assert p[..1][..0] == [];
    }
    assert LastDot(p) == Some(2) by {
      assert p[..5][..4] == p[..4] && p[..4][..3] == p[..3];
    }
    assert AllDots(p[..2]) == false by { assert p[..2][0] == 'C'; }
  }

  /** Joining a folder and a plain file name, then taking the base name, gives the name. */
  lemma BasenameOfJoin(a: string, b: string)
    requires b != [] && NoSep(b) && ':' !in b
    ensures Basename(PathJoin(a, b)) == b
  {
    assert Drive(b) == [] by { if |b| >= 2 { assert b[1] in b; } }
    JoinRelative(a, b);
    var r := PathJoin(a, b);
    var k := |r| - |b|;
    assert r[k..] == b;
    var rest := a[|Drive(a)|..];
    if rest != [] && !IsSep(rest[|rest| - 1]) {
      assert r == a + "\\" + b && k == |a| + 1 && r[k - 1] == '\\';
      assert |a| >= 1;
      if |r| >= 2 && r[1] == ':' { assert k > 2; }
    } else {
      assert r == a + b && k == |a|;
      if rest == [] {
        assert a == Drive(a);
        if a != [] { assert r[1] == ':' && |Drive(r)| == 2; }
        else { assert r == b; if |r| >= 2 { assert r[1] == b[1]; } }
      } else {
        assert IsSep(r[k - 1]);
        if |a| == 1 { assert r[1] == b[0]; }
        else { assert r[1] == a[1]; }
      }
    }
    BaseStartAtSeparator(r, k);
  }

  /** A part with no drive and no leading separator follows the folder, after a
      separator unless the folder has no path part or ends in one. */
  lemma JoinRelative(a: string, b: string)
    requires Drive(b) == [] && (b == [] || !IsSep(b[0]))
    ensures var rest := a[|Drive(a)|..];
            PathJoin(a, b) == if rest != [] && !IsSep(rest[|rest| - 1]) then a + "\\" + b else a + b
  {
    var d, rest := Drive(a), a[|Drive(a)|..];
    assert d + rest == a;
    assert b[|Drive(b)|..] == b;
    if rest != [] && !IsSep(rest[|rest| - 1]) {
      assert PathJoin(a, b) == d + ((rest + "\\") + b);
      ConcatAssoc(d, rest + "\\", b);
      ConcatAssoc(d, rest, "\\");
    } else {
      assert PathJoin(a, b) == d + (rest + b);
      ConcatAssoc(d, rest, b);
    }
  }

  /** After a separator (or a drive) that precedes a separator-free tail, the base name
      starts there. */
  lemma {:induction false} BaseStartAtSeparator(p: string, k: nat)
    requires k <= |p| && (k == |Drive(p)| || (k > |Drive(p)| && IsSep(p[k - 1])))
    requires forall j :: k <= j < |p| ==> !IsSep(p[j])
    ensures BaseStart(p) == k
    decreases |p|
  {
    if |p| != |Drive(p)| && !IsSep(p[|p| - 1]) {
      var q := p[..|p| - 1];
      assert Drive(q) == Drive(p) by {
        if |p| >= 3 { assert q[1] == p[1]; assert q[..2] == p[..2]; }
      }
      BaseStartAtSeparator(q, k);
    }
  }

  /** The folder of `dir/name` is `dir`, when `dir` does not end in a separator. */
  lemma DirnameOfChild(dir: string, name: string)
    requires dir != [] && !IsSep(dir[|dir| - 1]) && ':' !in dir
    requires name != [] && NoSep(name)
    ensures Dirname(dir + "/" + name) == dir
  {
    var p := dir + "/" + name;
    var k := |dir| + 1;
    if |dir| >= 2 {
      assert p[1] == dir[1];
    } else {
      assert p[1] == '/';
    }
    assert Drive(p) == [];
    assert forall j :: k <= j < |p| ==> p[j] == name[j - k];
    BaseStartAtSeparator(p, k);
    assert p[..k] == dir + "/";
    assert TrimSeps(dir + "/") == TrimSeps(dir) by {
      assert (dir + "/")[..|dir|] == dir;
    }
  }

  /** The folder of `/name` is `/`. */
  lemma DirnameOfRootChild(name: string)
    requires name != [] && NoSep(name) && ':' !in name
    ensures Dirname("/" + name) == "/"
  {
    var p := "/" + name;
    assert p[1] == name[0];
    assert Drive(p) == [];
    assert forall j :: 1 <= j < |p| ==> p[j] == name[j - 1];
    BaseStartAtSeparator(p, 1);
    assert p[..1] == "/";
    assert TrimSeps("/") == [] by {
      assert "/"[..0] == [];
    }
  }
}
