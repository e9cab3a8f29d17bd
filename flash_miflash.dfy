/** Flashing a vendor fastboot package by running one of its `flash_all*.bat` scripts:
    which script is chosen, what kind of flash it is, how a run ends, and which scripts
    a folder offers. The file system is a `present` parameter and the child process is
    its output lines, its exit code and whether it could be started. */
module MiFlash {
  import opened Wrappers
  import opened Text
  import opened HostPath
  import opened Seqs
  import opened FlashProcess

  /** The scripts looked for, in priority order. */
  const ScriptOrder: seq<string> := ["flash_all.bat", "flash_all_lock.bat", "flash_all_except_storage.bat"]

  // ---------------------------------------------------------------- finding the script

  /** The index in `ScriptOrder` of the first script present in `folder`, or 3. */
  function FirstPresent(folder: string, present: string -> bool): (k: nat)
    ensures k <= |ScriptOrder|
    ensures forall j :: 0 <= j < k ==> !present(PathJoin(folder, ScriptOrder[j]))
    ensures k < |ScriptOrder| ==> present(PathJoin(folder, ScriptOrder[k]))
  {
    FirstPresentFrom(folder, present, ScriptOrder, 0)
  }

  /** The search through `names` from the `j`th on. */
  function FirstPresentFrom(folder: string, present: string -> bool, names: seq<string>, j: nat): (k: nat)
    requires j <= |names|
    ensures j <= k <= |names|
    ensures forall i :: j <= i < k ==> !present(PathJoin(folder, names[i]))
    ensures k < |names| ==> present(PathJoin(folder, names[k]))
    decreases |names| - j
  {
    if j == |names| then j
    else if present(PathJoin(folder, names[j])) then j
    else FirstPresentFrom(folder, present, names, j + 1)
  }

  /** `find_flash_script` as a value. */
  function FoundScript(folder: string, present: string -> bool): Option<string>
  {
    var k := FirstPresent(folder, present);
    if k < |ScriptOrder| then Some(PathJoin(folder, ScriptOrder[k])) else None
  }

  // ---------------------------------------------------------------- the kind of flash

  /** The warning `execute_flash_script` logs for a script. */
  datatype ScriptKind = Relock | KeepsData | WipesAll

  /** The checks in order: a name with `lock` relocks the bootloader, then one with
      `except_storage` keeps user data, and anything else wipes the device. */
  function KindOf(name: string): ScriptKind
  {
    if Contains(Lower(name), "lock") then Relock
    else if Contains(Lower(name), "except_storage") then KeepsData
    else WipesAll
  }

  // ---------------------------------------------------------------- what a run does

  /** What `execute_flash_script` runs, or why it runs nothing. An empty `scriptName`
      means none was given. */
  datatype Plan = MissingScript(name: string) | NoScript | RunScript(path: string)

  function PlanOf(folder: string, scriptName: string, present: string -> bool): Plan
  {
    if scriptName != [] then
      (if present(PathJoin(folder, scriptName)) then RunScript(PathJoin(folder, scriptName))
       else MissingScript(scriptName))
    else
      match FoundScript(folder, present)
      case None => NoScript
      case Some(p) => RunScript(p)
  }

  /** The result of `execute_flash_script`: a script was found and started, the run was
      not cancelled, and the script exited with 0. */
  predicate Succeeds(plan: Plan, spawned: bool, flag: bool, n: nat, stopAt: nat, code: int)
  {
    plan.RunScript? && spawned && RunSucceeds(flag, n, stopAt, code)
  }

  // ---------------------------------------------------------------- listing scripts

  /** A name `folder.glob('*.bat')` yields whose lower-case form contains `flash`. */
  predicate IsFlashScript(name: string)
  {
    EndsWith(Lower(name), ".bat") && Contains(Lower(name), "flash")
  }

  class Logic {
    var stopFlag: bool
    var process: Proc

    constructor()
      ensures !stopFlag && process == NoProcess
    {
      stopFlag, process := false, NoProcess;
    }

    /** `stop`: the flag is always set; only a child still running is terminated. */
    method Stop()
      modifies this
      ensures stopFlag
      ensures process == (if old(process) == Running then Terminated else old(process))
    {
      stopFlag := true;
      if process == Running {
        process := Terminated;
      }
    }

    /** `find_flash_script`: the priority loop. */
    method FindFlashScript(folder: string, present: string -> bool) returns (r: Option<string>)
      ensures r == FoundScript(folder, present)
    {
      var i := 0;
      while i < |ScriptOrder|
        invariant 0 <= i <= |ScriptOrder|
        invariant FirstPresentFrom(folder, present, ScriptOrder, i) == FirstPresent(folder, present)
      {
        var path := PathJoin(folder, ScriptOrder[i]);
        if present(path) {
          return Some(path);
        }
        i := i + 1;
      }
      return None;
    }

    /** `list_available_scripts` over the `.bat` names of the folder, in the order the
        listing gives them. */
    method ListAvailableScripts(batNames: seq<string>) returns (scripts: seq<string>)
      ensures scripts == Filter(batNames, IsFlashScript)
    {
      scripts := [];
      for i := 0 to |batNames|
        invariant scripts == Filter(batNames[..i], IsFlashScript)
      {
        FilterSnoc(batNames[..i], batNames[i], IsFlashScript);
        PrefixSnoc(batNames, i);
        if IsFlashScript(batNames[i]) {
          scripts := scripts + [batNames[i]];
        }
      }
      PrefixAll(batNames);
    }

    /** The output loop: echo each stripped, non-blank line until the output ends or
        the stop flag is seen, in which case the child is terminated. Another thread's
        `stop()` arrives just before line `stopAt`. */
    method Echo(out: seq<string>, stopAt: nat) returns (cancelled: bool, shown: seq<string>)
      requires process == Running
      modifies this
      ensures cancelled == Cancelled(old(stopFlag), |out|, stopAt)
      ensures shown == Shown(out[..LinesSeen(old(stopFlag), |out|, stopAt)])
      ensures stopFlag == (old(stopFlag) || stopAt < |out|)
      ensures process == (if cancelled then Terminated else Running)
    {
      shown := [];
      var i := 0;
      while i < |out|
        invariant 0 <= i <= |out|
        invariant stopFlag == (old(stopFlag) || stopAt < i)
        invariant i > 0 ==> !stopFlag
        invariant process == Running
        invariant shown == Shown(out[..i])
      {
        if i == stopAt {
          Stop();
        }
        if stopFlag {
          process := Terminated;
          return true, shown;
        }
        ShownSnoc(out[..i], out[i]);
        PrefixSnoc(out, i);
        var line := Strip(out[i]);
        if line != [] {
          shown := shown + [line];
        }
        i := i + 1;
      }
      PrefixAll(out);
      cancelled := false;
    }

    /** `execute_flash_script`. `present` answers for paths, `spawned` says whether the
        script could be started, and the child prints `out` and exits with `code`.
        `started` is the script launched, in `folder`. */
    method ExecuteFlashScript(folder: string, scriptName: string, present: string -> bool,
                              spawned: bool, out: seq<string>, stopAt: nat, code: int)
      returns (ok: bool, started: Option<string>, shown: seq<string>)
      modifies this
      ensures var plan := PlanOf(folder, scriptName, present);
              started == (if plan.RunScript? && spawned then Some(plan.path) else None)
      ensures ok == Succeeds(PlanOf(folder, scriptName, present), spawned, old(stopFlag), |out|, stopAt, code)
      ensures shown == (if started.Some? then Shown(out[..LinesSeen(old(stopFlag), |out|, stopAt)]) else [])
      ensures stopFlag == (old(stopFlag) || (started.Some? && stopAt < |out|))
      ensures process == NoProcess
    {
      ok, started, shown := false, None, [];
      var path: string;
      if scriptName != [] {
        path := PathJoin(folder, scriptName);
        if !present(path) {
          process := NoProcess;
          return;
        }
      } else {
        var found := FindFlashScript(folder, present);
        if found.None? {
          process := NoProcess;
          return;
        }
        path := found.value;
      }
      if !spawned {
        process := NoProcess;
        return;
      }
      process := Running;
      started := Some(path);
      var cancelled;
      cancelled, shown := Echo(out, stopAt);
      if !cancelled {
        process := Exited(code);
        ok := code == 0;
      }
      process := NoProcess;
    }
  }

  // ---------------------------------------------------------------- properties

  /** The script found is present, and no script before it in the priority order is;
      nothing is found exactly when none of the three is present. */
  lemma FoundFirstPresent(folder: string, present: string -> bool)
    ensures FoundScript(folder, present).None? <==>
              forall k :: 0 <= k < |ScriptOrder| ==> !present(PathJoin(folder, ScriptOrder[k]))
    ensures forall k :: 0 <= k < |ScriptOrder| && present(PathJoin(folder, ScriptOrder[k])) &&
              (forall j :: 0 <= j < k ==> !present(PathJoin(folder, ScriptOrder[j])))
              ==> FoundScript(folder, present) == Some(PathJoin(folder, ScriptOrder[k]))
  {
    var k := FirstPresent(folder, present);
    if k < |ScriptOrder| {
      assert present(PathJoin(folder, ScriptOrder[k]));
    }
  }

  /** The three names are plain lower-case file names. */
  lemma ScriptNames(k: nat)
    requires k < |ScriptOrder|
    ensures NoSep(ScriptOrder[k]) && ':' !in ScriptOrder[k] && Lower(ScriptOrder[k]) == ScriptOrder[k]
  {
    var name := ScriptOrder[k];
    if k == 0 {
      assert name == "flash_all.bat";
    } else if k == 1 {
      assert name == "flash_all_lock.bat";
    } else {
      assert name == "flash_all_except_storage.bat";
    }
    assert forall i :: 0 <= i < |name| ==> PlainChar(name[i]);
    PlainName(name);
  }

  predicate PlainChar(c: char)
  {
    'a' <= c <= 'z' || c == '_' || c == '.'
  }

  lemma PlainName(name: string)
    requires forall i :: 0 <= i < |name| ==> PlainChar(name[i])
    ensures NoSep(name) && ':' !in name && Lower(name) == name
  {
    LowerOfLowercase(name);
  }

  /** `flash_all.bat` wins whenever it is present, and the script found is one of the
      three, named as it is in the folder. */
  lemma FullFlashPreferred(folder: string, present: string -> bool)
    ensures present(PathJoin(folder, ScriptOrder[0])) ==> FoundScript(folder, present) == Some(PathJoin(folder, ScriptOrder[0]))
    ensures FoundScript(folder, present).Some? ==>
              present(FoundScript(folder, present).value) && Basename(FoundScript(folder, present).value) in ScriptOrder
  {
    var k := FirstPresent(folder, present);
    if k < |ScriptOrder| {
      ScriptNames(k);
      BasenameOfJoin(folder, ScriptOrder[k]);
    }
  }

  /** Nothing is started, and the result is failure, when a named script is missing or
      no script is found; a given name is looked up as it is, without the search. */
  lemma NoScriptNoRun(folder: string, scriptName: string, present: string -> bool)
    ensures scriptName != [] ==>
              (PlanOf(folder, scriptName, present).RunScript? <==> present(PathJoin(folder, scriptName)))
    ensures scriptName == [] ==>
              (PlanOf(folder, scriptName, present) == NoScript <==> FoundScript(folder, present).None?)
    ensures forall spawned, flag, n, stopAt, code ::
              !PlanOf(folder, scriptName, present).RunScript? ==> !Succeeds(PlanOf(folder, scriptName, present), spawned, flag, n, stopAt, code)
  {
  }

  /** A string without the letter `k` does not contain `lock`. */
  lemma NoLock(s: string)
    requires forall j :: 0 <= j < |s| ==> s[j] != 'k'
    ensures !Contains(s, "lock")
  {
    forall i: nat | i <= |s| ensures !IsAt(s, "lock", i) {
      if i + 4 <= |s| {
        assert s[i..i + 4][3] == s[i + 3] != 'k';
      }
    }
  }

  /** The three scripts: `flash_all.bat` wipes the device, `flash_all_lock.bat` relocks
      the bootloader and `flash_all_except_storage.bat` keeps user data. */
  lemma KindsOfScripts()
    ensures KindOf(ScriptOrder[0]) == WipesAll
    ensures KindOf(ScriptOrder[1]) == Relock
    ensures KindOf(ScriptOrder[2]) == KeepsData
  {
    FullFlashKind();
    LockFlashKind();
    KeepDataKind();
  }

  lemma FullFlashKind()
    ensures KindOf(ScriptOrder[0]) == WipesAll
  {
    ScriptNames(0);
    var a := ScriptOrder[0];
    NoLock(a);
    assert |a| < |"except_storage"|;
  }

  lemma LockFlashKind()
    ensures KindOf(ScriptOrder[1]) == Relock
  {
    ScriptNames(1);
    var b := ScriptOrder[1];
    assert b[10..14] == "lock";
    assert IsAt(b, "lock", 10);
  }

  lemma KeepDataKind()
    ensures KindOf(ScriptOrder[2]) == KeepsData
  {
    ScriptNames(2);
    var c := ScriptOrder[2];
    NoLock(c);
    assert c[10..24] == "except_storage";
    assert IsAt(c, "except_storage", 10);
  }

  /** The lock check comes first: a name with both `lock` and `except_storage` is a
      relock, and so is any name containing `lock` in any case (`Unlock` included). */
  lemma LockCheckedFirst(a: string, b: string)
    ensures KindOf(a + "LOCK" + b) == Relock
  {
    var s := a + "LOCK" + b;
    assert Lower(s)[|a|..|a| + 4] == "lock";
    assert IsAt(Lower(s), "lock", |a|);
  }

  /** The listing keeps exactly the `.bat` names containing `flash`, in their order;
      the three scripts searched for are all listed when present. */
  lemma ListedExactly(batNames: seq<string>)
    ensures forall x :: x in Filter(batNames, IsFlashScript) <==> x in batNames && IsFlashScript(x)
    ensures IsSubsequence(Filter(batNames, IsFlashScript), batNames)
    ensures forall k :: 0 <= k < |ScriptOrder| ==> IsFlashScript(ScriptOrder[k])
  {
    FilterIsSubsequence(batNames, IsFlashScript);
    forall k | 0 <= k < |ScriptOrder| ensures IsFlashScript(ScriptOrder[k]) {
      ScriptIsListed(k);
    }
  }

  lemma ScriptIsListed(k: nat)
    requires k < |ScriptOrder|
    ensures IsFlashScript(ScriptOrder[k])
  {
    ScriptNames(k);
    var name := ScriptOrder[k];
    assert name[..5] == "flash";
    assert IsAt(name, "flash", 0);
    assert EndsWith(name, ".bat") by {
      if k == 0 {
        assert name[9..] == ".bat";
      } else if k == 1 {
        assert name[14..] == ".bat";
      } else {
        assert name[24..] == ".bat";
      }
    }
  }
}
