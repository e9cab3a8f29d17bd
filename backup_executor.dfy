/** The backup job of the backup tab (`_BackupExecutorWorker.run`): find the partition
    directory again, copy each selected partition to a staging image on the device with
    `dd`, pull it to the backup folder, remove the staging image, then write the restore
    scripts and, if asked, pack the folder into a zip archive. */
module BackupExecutor {
  import opened Wrappers
  import opened Text
  import opened Seqs
  import opened HostPath
  import opened RestoreScripts
  import PartitionScan

  /** A command the job runs: an `adb shell` command line, an `adb pull`, or the 7-Zip
      compressor packing a folder into an archive. */
  datatype Command = Shell(text: string) | Pull(remote: string, local: string) | Compress(archive: string, folder: string)

  /** What each command gives back: its output, or the message it raised. */
  type Device = Command -> Outcome

  /** `_run_cmd`: the output with surrounding whitespace removed. */
  function Run(dev: Device, c: Command): (o: Outcome)
    ensures o.Output? <==> dev(c).Output?
    ensures o.Output? ==> o.text == Strip(dev(c).text)
    ensures o.Raised? ==> o == dev(c)
  {
    match dev(c)
    case Output(t) => Output(Strip(t))
    case Raised(e) => Raised(e)
  }

  /** The job's parameters, as the backup tab passes them. */
  datatype Job = Job(outDir: string, partitions: seq<string>, useZip: bool, genScript: bool)

  /** What the job reads from outside besides the device: the model name the device
      reports (if any), the message of the exception raised while reading the device's
      details or creating the backup folder (if one is), the local time stamp, the index
      `scriptFailAt` of the first script line whose write raises (counting the Windows
      script's lines, then the shell script's; a larger index means none does), whether
      `bin/7z.exe` exists, the message of the exception the built-in zip writer raises (if
      it does), and `stopAt`, the index of the first poll of the stop flag that finds it
      set. Polls `0 .. n-1` come before each partition and poll `n` after the loop (`n`
      partitions); `n + 1` means the flag was set while packing, before the folder is
      removed, `n + 2` after that, and anything larger means never. */
  datatype Env = Env(model: Option<string>, prepareError: Option<string>, timestamp: string,
                     scriptFailAt: nat, sevenZipPresent: bool, zipfileError: Option<string>, stopAt: nat)

  /** A script file on disk: its path and the lines written to it. */
  datatype ScriptFile = ScriptFile(path: string, lines: seq<string>)

  /** The restore scripts on disk: the Windows script, and the shell script, which is only
      created once the Windows script is complete. */
  datatype Written = Written(bat: ScriptFile, sh: Option<ScriptFile>)

  /** How the job finished (`ok` and the message or final path it emits), the partitions
      backed up, the commands run in order, the scripts written, and whether the backup
      folder was removed after packing. */
  datatype Report = Report(ok: bool, message: string, succeeded: seq<string>, commands: seq<Command>,
                           scripts: Option<Written>, folderRemoved: bool)

  const NothingSelectedMessage: string := "未选择任何分区"
  const TargetNotFoundMessage: string := "无法找到分区路径"
  const CancelledMessage: string := "备份已取消"

  /** The directories searched for the partition links, as in the scan. */
  const TargetSearchPaths: seq<string> :=
    ["/dev/block/bootdevice/by-name", "/dev/block/by-name", "/dev/block/platform/*/by-name"]

  /** `Backup_<model with spaces as underscores>_<timestamp>`, `Unknown` without a model. */
  function BackupName(model: Option<string>, timestamp: string): (r: string)
    ensures StartsWith(r, "Backup_") && EndsWith(r, "_" + timestamp)
    ensures ' ' !in timestamp ==> ' ' !in r
  {
    var m := ReplaceChar(model.GetOr("Unknown"), ' ', '_');
    var r := "Backup_" + m + "_" + timestamp;
    StartsWithConcat("Backup_", m + "_" + timestamp);
    assert r == "Backup_" + (m + "_" + timestamp);
    assert r[|r| - |"_" + timestamp|..] == "_" + timestamp;
    assert ' ' !in m;
    r
  }

  // ---------------------------------------------------------------- finding the target

  /** The outcome of one candidate directory: commands issued and the accepted target. */
  datatype TargetProbe = TargetProbe(commands: seq<Command>, target: Option<string>)

  /** The directory a wildcard candidate stands for here: the whole `ls -d` answer
      followed by `/by-name`, or the unresolved candidate when the answer is unusable. */
  function ResolveTarget(lsBase: string, p: string): string
  {
    if lsBase != [] && !Contains(lsBase, "No such") then lsBase + "/by-name" else p
  }

  /** `ls <q>`, accepted when its answer is non-empty and has no "No such file". */
  function ListTarget(before: seq<Command>, q: string, dev: Device): TargetProbe
  {
    var c := Shell("ls " + q);
    match Run(dev, c)
    case Raised(_) => TargetProbe(before + [c], None)
    case Output(res) =>
      TargetProbe(before + [c], if res != [] && !Contains(res, "No such file") then Some(q) else None)
  }

  function ProbeTarget(p: string, dev: Device): TargetProbe
  {
    if '*' in p then
      var c := Shell("ls -d " + BeforeChar(p, '*') + "* 2>/dev/null");
      match Run(dev, c)
      case Raised(_) => TargetProbe([c], None)
      case Output(lsBase) => ListTarget([c], ResolveTarget(Strip(lsBase), p), dev)
    else ListTarget([], p, dev)
  }

  /** Searching `cands[i..]` in order after the commands `issued`, up to the first accepted. */
  function FindTargetFrom(cands: seq<string>, i: nat, issued: seq<Command>, dev: Device): TargetProbe
    decreases |cands| - i
  {
    if i >= |cands| then TargetProbe(issued, None)
    else
      var here := ProbeTarget(cands[i], dev);
      if here.target.Some? then TargetProbe(issued + here.commands, here.target)
      else FindTargetFrom(cands, i + 1, issued + here.commands, dev)
  }

  // ---------------------------------------------------------------- one partition

  function StagingPath(part: string): string
  {
    "/sdcard/Download/tmp_backup_" + part + ".img"
  }

  const MakeStaging: Command := Shell("mkdir -p /sdcard/Download")

  function CopyOut(target: string, part: string): Command
  {
    Shell("su -c 'dd if=" + target + "/" + part + " of=" + StagingPath(part) + "'")
  }

  function PullImage(localDir: string, part: string): Command
  {
    Pull(StagingPath(part), PathJoin(localDir, part + ".img"))
  }

  function RemoveStaging(part: string): Command
  {
    Shell("rm " + StagingPath(part))
  }

  /** The part was copied out and pulled. */
  predicate BackedUp(dev: Device, target: string, localDir: string, part: string)
  {
    Run(dev, CopyOut(target, part)).Output? && Run(dev, PullImage(localDir, part)).Output?
  }

  /** The commands for one partition: a failed `dd` skips the pull and the removal, a
      failed pull still removes the staging image. */
  function PartCommands(dev: Device, target: string, localDir: string, part: string): seq<Command>
  {
    [MakeStaging, CopyOut(target, part)]
    + if Run(dev, CopyOut(target, part)).Output? then [PullImage(localDir, part), RemoveStaging(part)] else []
  }

  /** The state of the partition loop: the partitions backed up and the commands run. */
  datatype Progress = Progress(succeeded: seq<string>, commands: seq<Command>)

  /** The partition loop over `parts`, once the staging directory can be made. */
  function LoopSteps(dev: Device, target: string, localDir: string, parts: seq<string>): Progress
  {
    if parts == [] then Progress([], [])
    else
      var before := LoopSteps(dev, target, localDir, parts[..|parts| - 1]);
      var part := parts[|parts| - 1];
      Progress(before.succeeded + (if BackedUp(dev, target, localDir, part) then [part] else []),
               before.commands + PartCommands(dev, target, localDir, part))
  }

  /** One more partition of the loop. */
  lemma LoopStepsSnoc(dev: Device, target: string, localDir: string, parts: seq<string>, i: nat)
    requires i < |parts|
    ensures var before := LoopSteps(dev, target, localDir, parts[..i]);
      LoopSteps(dev, target, localDir, parts[..i + 1])
      == Progress(before.succeeded + (if BackedUp(dev, target, localDir, parts[i]) then [parts[i]] else []),
                  before.commands + PartCommands(dev, target, localDir, parts[i]))
  {
    assert parts[..i + 1][..i] == parts[..i];
  }

  // ---------------------------------------------------------------- the whole job

  /** What the writer leaves in `localDir` when the write of line `failAt` raises
      (counting the lines of `bat`, then those of `sh`): the lines before it, the shell
      script only when the failure does not come in the Windows one, and both complete
      when no write fails. The failure is only logged. */
  function Stored(localDir: string, bat: seq<string>, sh: seq<string>, failAt: nat): (r: Written)
    ensures r.bat.path == PathJoin(localDir, "flash_all.bat")
    ensures r.sh.Some? ==> r.sh.value.path == PathJoin(localDir, "flash_all.sh")
    ensures |r.bat.lines| <= |bat| && r.bat.lines == bat[..|r.bat.lines|]
    ensures r.sh.None? <==> failAt < |bat|
    ensures r.sh.Some? ==> r.bat.lines == bat && |r.sh.value.lines| <= |sh| && r.sh.value.lines == sh[..|r.sh.value.lines|]
    ensures |r.bat.lines| + (if r.sh.Some? then |r.sh.value.lines| else 0) == Min(failAt, |bat| + |sh|)
  {
    var batFile := ScriptFile(PathJoin(localDir, "flash_all.bat"), bat[..Min(failAt, |bat|)]);
    if failAt < |bat| then Written(batFile, None)
    else Written(batFile, Some(ScriptFile(PathJoin(localDir, "flash_all.sh"), sh[..Min(failAt - |bat|, |sh|)])))
  }

  /** With no failing write, both scripts are complete. */
  lemma StoredComplete(localDir: string, bat: seq<string>, sh: seq<string>, failAt: nat)
    requires failAt >= |bat| + |sh|
    ensures Stored(localDir, bat, sh, failAt)
         == Written(ScriptFile(PathJoin(localDir, "flash_all.bat"), bat), Some(ScriptFile(PathJoin(localDir, "flash_all.sh"), sh)))
  {
    assert bat[..|bat|] == bat && sh[..|sh|] == sh;
  }

  /** The scripts for the backed-up partitions, as the writer leaves them. */
  function MakeScripts(localDir: string, succeeded: seq<string>, failAt: nat): Written
  {
    Stored(localDir, BatScript(succeeded), ShScript(succeeded), failAt)
  }

  /** After the loop, with `succeeded` non-empty and zipping asked for: 7-Zip if present,
      else (or when it fails) the built-in writer, then the folder's removal unless a stop
      came first. */
  function Package(outDir: string, name: string, localDir: string, env: Env, dev: Device, n: nat,
                   succeeded: seq<string>, commands: seq<Command>, scripts: Option<Written>): (r: Report)
    ensures r.succeeded == succeeded && r.scripts == scripts
    ensures r.ok ==> r.message == PathJoin(outDir, name + ".zip") && r.folderRemoved
  {
    var zipPath := PathJoin(outDir, name + ".zip");
    var c := Compress(zipPath, localDir);
    var used7z := env.sevenZipPresent && Run(dev, c).Output?;
    var cmds := commands + (if env.sevenZipPresent then [c] else []);
    if !used7z && env.zipfileError.Some? then Report(false, env.zipfileError.value, succeeded, cmds, scripts, false)
    else if env.stopAt <= n + 2 then Report(false, CancelledMessage, succeeded, cmds, scripts, env.stopAt == n + 2)
    else Report(true, zipPath, succeeded, cmds, scripts, true)
  }

  /** After the partition loop: cancelled if the stop flag was seen at its end, else the
      scripts and the packaging. */
  function Finish(job: Job, env: Env, dev: Device, name: string, localDir: string,
                  succ: seq<string>, cmds: seq<Command>): (r: Report)
    ensures r.succeeded == succ
    ensures r.scripts.Some? <==> env.stopAt > |job.partitions| && job.genScript && succ != []
    ensures r.scripts.Some? ==> r.scripts.value == MakeScripts(localDir, succ, env.scriptFailAt)
    ensures r.ok ==> env.stopAt > |job.partitions| + 2
  {
    var n := |job.partitions|;
    if env.stopAt <= n then Report(false, CancelledMessage, succ, cmds, None, false)
    else
      var scripts := if job.genScript && succ != [] then Some(MakeScripts(localDir, succ, env.scriptFailAt)) else None;
      if job.useZip && succ != [] then Package(job.outDir, name, localDir, env, dev, n, succ, cmds, scripts)
      else if env.stopAt <= n + 2 then Report(false, CancelledMessage, succ, cmds, scripts, false)
      else Report(true, localDir, succ, cmds, scripts, false)
  }

  /** The job, as a function of its parameters, its environment and the device. */
  function Executed(job: Job, env: Env, dev: Device): Report
  {
    if job.partitions == [] then Report(false, NothingSelectedMessage, [], [], None, false)
    else if env.prepareError.Some? then Report(false, env.prepareError.value, [], [], None, false)
    else
      var name := BackupName(env.model, env.timestamp);
      var localDir := PathJoin(job.outDir, name);
      var t := FindTargetFrom(TargetSearchPaths, 0, [], dev);
      if t.target.None? then Report(false, TargetNotFoundMessage, [], t.commands, None, false)
      else
        var m := Min(|job.partitions|, env.stopAt);
        if m > 0 && Run(dev, MakeStaging).Raised? then
          Report(false, Run(dev, MakeStaging).msg, [], t.commands + [MakeStaging], None, false)
        else
          var loop := LoopSteps(dev, t.target.value, localDir, job.partitions[..m]);
          Finish(job, env, dev, name, localDir, loop.succeeded, t.commands + loop.commands)
  }

  // ---------------------------------------------------------------- the worker

  /** One candidate directory of the target search. */
  method ProbeTargetOne(p: string, dev: Device) returns (here: TargetProbe)
    ensures here == ProbeTarget(p, dev)
  {
    if '*' in p {
      var c := Shell("ls -d " + BeforeChar(p, '*') + "* 2>/dev/null");
      var lsBase := Run(dev, c);
      if lsBase.Raised? {
        here := TargetProbe([c], None);
      } else {
        here := ListTarget([c], ResolveTarget(Strip(lsBase.text), p), dev);
      }
    } else {
      here := ListTarget([], p, dev);
    }
  }

  /** The target search loop. */
  method FindTarget(cands: seq<string>, dev: Device) returns (r: TargetProbe)
    ensures r == FindTargetFrom(cands, 0, [], dev)
  {
    var issued: seq<Command> := [];
    var i := 0;
    while i < |cands|
      invariant 0 <= i <= |cands|
      invariant FindTargetFrom(cands, i, issued, dev) == FindTargetFrom(cands, 0, [], dev)
    {
      var here := ProbeTargetOne(cands[i], dev);
      issued := issued + here.commands;
      if here.target.Some? {
        return TargetProbe(issued, here.target);
      }
      i := i + 1;
    }
    return TargetProbe(issued, None);
  }

  /** `dd`, pull and removal of one partition, once the staging directory exists. */
  method BackupPart(dev: Device, target: string, localDir: string, part: string)
    returns (ok: bool, cmds: seq<Command>)
    ensures ok == BackedUp(dev, target, localDir, part)
    ensures [MakeStaging] + cmds == PartCommands(dev, target, localDir, part)
  {
    ok := false;
    cmds := [CopyOut(target, part)];
    var dd := Run(dev, CopyOut(target, part));
    if dd.Output? {
      var pulled := Run(dev, PullImage(localDir, part));
      ok := pulled.Output?;
      cmds := cmds + [PullImage(localDir, part), RemoveStaging(part)];
      var _ := Run(dev, RemoveStaging(part));
    }
  }

  /** Scripts and packaging after the loop. */
  method FinishJob(job: Job, env: Env, dev: Device, name: string, localDir: string,
                   succeeded: seq<string>, commands: seq<Command>) returns (rep: Report)
    ensures rep == Finish(job, env, dev, name, localDir, succeeded, commands)
  {
    var n := |job.partitions|;
    if env.stopAt <= n {
      return Report(false, CancelledMessage, succeeded, commands, None, false);
    }
    var scripts: Option<Written> := None;
    if job.genScript && succeeded != [] {
      var bat, sh := WriteScripts(succeeded);
      scripts := Some(Stored(localDir, bat, sh, env.scriptFailAt));
    }
    if job.useZip && succeeded != [] {
      var zipPath := PathJoin(job.outDir, name + ".zip");
      var cmds := commands;
      var used7z := false;
      if env.sevenZipPresent {
        cmds := cmds + [Compress(zipPath, localDir)];
        var packed := Run(dev, Compress(zipPath, localDir));
        used7z := packed.Output?;
      }
      if !used7z && env.zipfileError.Some? {
        return Report(false, env.zipfileError.value, succeeded, cmds, scripts, false);
      }
      if env.stopAt <= n + 2 {
        return Report(false, CancelledMessage, succeeded, cmds, scripts, env.stopAt == n + 2);
      }
      return Report(true, zipPath, succeeded, cmds, scripts, true);
    }
    if env.stopAt <= n + 2 {
      return Report(false, CancelledMessage, succeeded, commands, scripts, false);
    }
    return Report(true, localDir, succeeded, commands, scripts, false);
  }

  /** The partition loop, polling the stop flag before each partition; `staged` is false
      when making the staging directory raised, which ends the job. */
  method CopyParts(dev: Device, target: string, localDir: string, parts: seq<string>, stopAt: nat)
    returns (staged: bool, succeeded: seq<string>, done: seq<Command>)
    ensures staged <==> !(Min(|parts|, stopAt) > 0 && Run(dev, MakeStaging).Raised?)
    ensures staged ==> Progress(succeeded, done) == LoopSteps(dev, target, localDir, parts[..Min(|parts|, stopAt)])
  {
    succeeded, done := [], [];
    var i := 0;
    while i < |parts|
      invariant i <= |parts| && i <= stopAt
      invariant i > 0 ==> Run(dev, MakeStaging).Output?
      invariant LoopSteps(dev, target, localDir, parts[..i]) == Progress(succeeded, done)
    {
      if stopAt <= i {
        break;
      }
      var part := parts[i];
      var mk := Run(dev, MakeStaging);
      if mk.Raised? {
        return false, [], [];
      }
      var ok, cmds := BackupPart(dev, target, localDir, part);
      LoopStepsSnoc(dev, target, localDir, parts, i);
      if ok {
        succeeded := succeeded + [part];
      }
      done := done + ([MakeStaging] + cmds);
      i := i + 1;
    }
    staged := true;
  }

  /** `_BackupExecutorWorker.run`. */
  method Execute(job: Job, env: Env, dev: Device) returns (rep: Report)
    ensures rep == Executed(job, env, dev)
  {
    if job.partitions == [] {
      return Report(false, NothingSelectedMessage, [], [], None, false);
    }
    if env.prepareError.Some? {
      return Report(false, env.prepareError.value, [], [], None, false);
    }
    var name := BackupName(env.model, env.timestamp);
    var localDir := PathJoin(job.outDir, name);
    var t := FindTarget(TargetSearchPaths, dev);
    if t.target.None? {
      return Report(false, TargetNotFoundMessage, [], t.commands, None, false);
    }
    var staged, succeeded, done := CopyParts(dev, t.target.value, localDir, job.partitions, env.stopAt);
    if !staged {
      var mk := Run(dev, MakeStaging);
      return Report(false, mk.msg, [], t.commands + [MakeStaging], None, false);
    }
    rep := FinishJob(job, env, dev, name, localDir, succeeded, t.commands + done);
  }

  // ---------------------------------------------------------------- what the job promises

  /** The directory the search accepted. */
  function Target(dev: Device): TargetProbe
  {
    FindTargetFrom(TargetSearchPaths, 0, [], dev)
  }

  function LocalDir(job: Job, env: Env): string
  {
    PathJoin(job.outDir, BackupName(env.model, env.timestamp))
  }

  function ZipPath(job: Job, env: Env): string
  {
    PathJoin(job.outDir, BackupName(env.model, env.timestamp) + ".zip")
  }

  /** The partitions the loop reaches before it sees the stop flag. */
  function Attempted(job: Job, env: Env): seq<string>
  {
    job.partitions[..Min(|job.partitions|, env.stopAt)]
  }

  /** The job gets to the partition loop and through it without a fatal error. */
  predicate ReachesLoop(job: Job, env: Env, dev: Device)
  {
    job.partitions != [] && env.prepareError.None? && Target(dev).target.Some?
    && !(Min(|job.partitions|, env.stopAt) > 0 && Run(dev, MakeStaging).Raised?)
  }

  function BackedUpIn(dev: Device, target: string, localDir: string): string -> bool
  {
    part => BackedUp(dev, target, localDir, part)
  }

  /** One more partition: it is kept exactly when it was backed up. */
  lemma LoopSucceededSnoc(dev: Device, target: string, localDir: string, parts: seq<string>)
    requires parts != []
    ensures LoopSteps(dev, target, localDir, parts).succeeded
         == LoopSteps(dev, target, localDir, parts[..|parts| - 1]).succeeded
            + (if BackedUpIn(dev, target, localDir)(parts[|parts| - 1]) then [parts[|parts| - 1]] else [])
  {
  }

  /** The loop keeps, in order, exactly the partitions that were copied out and pulled. */
  lemma {:induction false} LoopKeepsBackedUp(dev: Device, target: string, localDir: string, parts: seq<string>)
    ensures LoopSteps(dev, target, localDir, parts).succeeded == Filter(parts, BackedUpIn(dev, target, localDir))
    decreases |parts|
  {
    if parts != [] {
      LoopKeepsBackedUp(dev, target, localDir, parts[..|parts| - 1]);
      LoopSucceededSnoc(dev, target, localDir, parts);
      FilterOfLast(parts, BackedUpIn(dev, target, localDir));
    }
  }

  /** Past the loop, the job is its packaging step. */
  lemma ExecutedPastLoop(job: Job, env: Env, dev: Device)
    requires ReachesLoop(job, env, dev)
    ensures Executed(job, env, dev)
         == Finish(job, env, dev, BackupName(env.model, env.timestamp), LocalDir(job, env),
                   LoopSteps(dev, Target(dev).target.value, LocalDir(job, env), Attempted(job, env)).succeeded,
                   Target(dev).commands + LoopSteps(dev, Target(dev).target.value, LocalDir(job, env), Attempted(job, env)).commands)
  {
  }

  /** Short of the loop, the job fails with nothing backed up and no script. */
  lemma ExecutedShortOfLoop(job: Job, env: Env, dev: Device)
    requires !ReachesLoop(job, env, dev)
    ensures !Executed(job, env, dev).ok && Executed(job, env, dev).succeeded == []
    ensures Executed(job, env, dev).scripts.None? && !Executed(job, env, dev).folderRemoved
  {
  }

  /** The partitions reported as backed up are those of the attempted ones that were
      copied out and pulled, in selection order. */
  lemma ExecutedSucceeded(job: Job, env: Env, dev: Device)
    ensures Executed(job, env, dev).succeeded
         == if ReachesLoop(job, env, dev)
            then Filter(Attempted(job, env), BackedUpIn(dev, Target(dev).target.value, LocalDir(job, env)))
            else []
    ensures IsSubsequence(Executed(job, env, dev).succeeded, job.partitions)
  {
    if ReachesLoop(job, env, dev) {
      ExecutedPastLoop(job, env, dev);
      var keep := BackedUpIn(dev, Target(dev).target.value, LocalDir(job, env));
      LoopKeepsBackedUp(dev, Target(dev).target.value, LocalDir(job, env), Attempted(job, env));
      FilterOfPrefixIsSubsequence(job.partitions, Min(|job.partitions|, env.stopAt), keep);
    } else {
      ExecutedShortOfLoop(job, env, dev);
    }
  }

  /** A stop seen by the loop ends the job as cancelled after the partitions before it:
      no later partition is attempted, and no script or archive is written. */
  lemma CancelledInLoop(job: Job, env: Env, dev: Device)
    requires ReachesLoop(job, env, dev) && env.stopAt <= |job.partitions|
    ensures Executed(job, env, dev)
         == Report(false, CancelledMessage,
                   Filter(job.partitions[..env.stopAt], BackedUpIn(dev, Target(dev).target.value, LocalDir(job, env))),
                   Target(dev).commands + LoopSteps(dev, Target(dev).target.value, LocalDir(job, env), job.partitions[..env.stopAt]).commands,
                   None, false)
  {
    ExecutedPastLoop(job, env, dev);
    assert Attempted(job, env) == job.partitions[..env.stopAt];
    LoopKeepsBackedUp(dev, Target(dev).target.value, LocalDir(job, env), job.partitions[..env.stopAt]);
  }

  /** The script writer runs exactly when the loop ran to its end, scripts were asked for
      and some partition was backed up; it leaves the lines before the first failing write,
      and when no write fails both scripts flash exactly the backed-up partitions. */
  lemma ScriptsWritten(job: Job, env: Env, dev: Device)
    ensures Executed(job, env, dev).scripts.Some?
        <==> ReachesLoop(job, env, dev) && env.stopAt > |job.partitions| && job.genScript
             && Executed(job, env, dev).succeeded != []
    ensures Executed(job, env, dev).scripts.Some? ==>
              Executed(job, env, dev).scripts.value
              == Stored(LocalDir(job, env), BatScript(Executed(job, env, dev).succeeded),
                        ShScript(Executed(job, env, dev).succeeded), env.scriptFailAt)
    ensures var succ := Executed(job, env, dev).succeeded;
            Executed(job, env, dev).scripts.Some? && env.scriptFailAt >= |BatScript(succ)| + |ShScript(succ)| ==>
              Executed(job, env, dev).scripts.value
              == Written(ScriptFile(PathJoin(LocalDir(job, env), "flash_all.bat"), BatScript(succ)),
                         Some(ScriptFile(PathJoin(LocalDir(job, env), "flash_all.sh"), ShScript(succ))))
    ensures var succ := Executed(job, env, dev).succeeded;
            Executed(job, env, dev).scripts.Some? && env.scriptFailAt >= |BatScript(succ)| + |ShScript(succ)|
            && (forall i :: 0 <= i < |job.partitions| ==> ' ' !in job.partitions[i]) ==>
              FlashedPartitions(BatScript(succ)) == succ && FlashedPartitions(ShScript(succ)) == succ
  {
    var rep := Executed(job, env, dev);
    if ReachesLoop(job, env, dev) {
      ExecutedPastLoop(job, env, dev);
    } else {
      ExecutedShortOfLoop(job, env, dev);
    }
    if rep.scripts.Some? && env.scriptFailAt >= |BatScript(rep.succeeded)| + |ShScript(rep.succeeded)| {
      StoredComplete(LocalDir(job, env), BatScript(rep.succeeded), ShScript(rep.succeeded), env.scriptFailAt);
    }
    if rep.scripts.Some? && (forall i :: 0 <= i < |job.partitions| ==> ' ' !in job.partitions[i]) {
      ExecutedSucceeded(job, env, dev);
      forall i | 0 <= i < |rep.succeeded|
        ensures ' ' !in rep.succeeded[i]
      {
        assert rep.succeeded[i] in rep.succeeded;
        assert rep.succeeded[i] in Attempted(job, env);
      }
      ScriptsFlashExactly(rep.succeeded);
    }
  }

  /** The packaging step succeeds exactly when no stop comes and the archive (when one is
      due) is written by 7-Zip or by the built-in writer. */
  lemma FinishOk(job: Job, env: Env, dev: Device, name: string, localDir: string,
                 succ: seq<string>, cmds: seq<Command>)
    ensures var zipDue := job.useZip && succ != [];
            var used7z := env.sevenZipPresent && Run(dev, Compress(PathJoin(job.outDir, name + ".zip"), localDir)).Output?;
            Finish(job, env, dev, name, localDir, succ, cmds).ok
            <==> env.stopAt > |job.partitions| + 2 && !(zipDue && !used7z && env.zipfileError.Some?)
    ensures Finish(job, env, dev, name, localDir, succ, cmds).ok ==>
              Finish(job, env, dev, name, localDir, succ, cmds).message
              == (if job.useZip && succ != [] then PathJoin(job.outDir, name + ".zip") else localDir)
              && Finish(job, env, dev, name, localDir, succ, cmds).folderRemoved == (job.useZip && succ != [])
  {
  }

  /** The job succeeds exactly when it gets through the loop, no stop comes, and the
      archive (when one is due) is written by 7-Zip or the built-in writer; it then reports
      the archive (and has removed the folder) or the folder, having attempted every
      selected partition. */
  lemma FinishedOk(job: Job, env: Env, dev: Device)
    ensures var zipDue := job.useZip && Executed(job, env, dev).succeeded != [];
            var used7z := env.sevenZipPresent && Run(dev, Compress(ZipPath(job, env), LocalDir(job, env))).Output?;
            Executed(job, env, dev).ok
            <==> ReachesLoop(job, env, dev) && env.stopAt > |job.partitions| + 2
                 && !(zipDue && !used7z && env.zipfileError.Some?)
    ensures Executed(job, env, dev).ok ==>
              Executed(job, env, dev).message
              == (if job.useZip && Executed(job, env, dev).succeeded != [] then ZipPath(job, env) else LocalDir(job, env))
    ensures Executed(job, env, dev).ok ==>
              Executed(job, env, dev).folderRemoved == (job.useZip && Executed(job, env, dev).succeeded != [])
  {
    if ReachesLoop(job, env, dev) {
      ExecutedPastLoop(job, env, dev);
      var name, localDir, target := BackupName(env.model, env.timestamp), LocalDir(job, env), Target(dev).target.value;
      var loop := LoopSteps(dev, target, localDir, Attempted(job, env));
      var cmds := Target(dev).commands + loop.commands;
      assert ZipPath(job, env) == PathJoin(job.outDir, name + ".zip");
      FinishOk(job, env, dev, name, localDir, loop.succeeded, cmds);
    } else {
      ExecutedShortOfLoop(job, env, dev);
    }
  }

  /** A successful job attempted every selected partition, so it reports as backed up
      exactly the selected partitions that were copied out and pulled. */
  lemma SucceededAllAttempted(job: Job, env: Env, dev: Device)
    ensures Executed(job, env, dev).ok ==>
              Executed(job, env, dev).succeeded
              == Filter(job.partitions, BackedUpIn(dev, Target(dev).target.value, LocalDir(job, env)))
  {
    if Executed(job, env, dev).ok {
      FinishedOk(job, env, dev);
      ExecutedSucceeded(job, env, dev);
      assert Attempted(job, env) == job.partitions;
    }
  }

  /** The early exits: nothing selected (no command at all), the device's details or the
      backup folder failing (its message, no command), no partition directory (only the
      listing commands), and a staging directory that cannot be made. */
  lemma EarlyExits(job: Job, env: Env, dev: Device)
    ensures job.partitions == [] ==> Executed(job, env, dev) == Report(false, NothingSelectedMessage, [], [], None, false)
    ensures job.partitions != [] && env.prepareError.Some? ==>
              Executed(job, env, dev) == Report(false, env.prepareError.value, [], [], None, false)
    ensures job.partitions != [] && env.prepareError.None? && Target(dev).target.None? ==>
              Executed(job, env, dev) == Report(false, TargetNotFoundMessage, [], Target(dev).commands, None, false)
    ensures job.partitions != [] && env.prepareError.None? && Target(dev).target.Some? && !ReachesLoop(job, env, dev) ==>
              Executed(job, env, dev)
              == Report(false, Run(dev, MakeStaging).msg, [], Target(dev).commands + [MakeStaging], None, false)
  {
  }

  /** A failing script write is only logged: whichever line fails, the job ends the same
      way apart from what the scripts hold. */
  lemma ScriptFailureOnlyLogged(job: Job, env: Env, dev: Device, failAt: nat)
    ensures SameEnd(Executed(job, env, dev), Executed(job, env.(scriptFailAt := failAt), dev))
  {
    var env2 := env.(scriptFailAt := failAt);
    assert ReachesLoop(job, env, dev) == ReachesLoop(job, env2, dev);
    if ReachesLoop(job, env, dev) {
      ExecutedPastLoop(job, env, dev);
      ExecutedPastLoop(job, env2, dev);
      var name, localDir := BackupName(env.model, env.timestamp), LocalDir(job, env);
      assert LocalDir(job, env2) == localDir && Attempted(job, env) == Attempted(job, env2);
      var loop := LoopSteps(dev, Target(dev).target.value, localDir, Attempted(job, env));
      FinishScriptFailure(job, env, dev, name, localDir, loop.succeeded, Target(dev).commands + loop.commands, failAt);
    }
  }

  /** Two job ends that differ at most in what the scripts hold. */
  predicate SameEnd(r1: Report, r2: Report)
  {
    r1.ok == r2.ok && r1.message == r2.message && r1.succeeded == r2.succeeded
    && r1.commands == r2.commands && r1.folderRemoved == r2.folderRemoved
    && r1.scripts.Some? == r2.scripts.Some?
  }

  lemma FinishScriptFailure(job: Job, env: Env, dev: Device, name: string, localDir: string,
                            succ: seq<string>, cmds: seq<Command>, failAt: nat)
    ensures SameEnd(Finish(job, env, dev, name, localDir, succ, cmds),
                    Finish(job, env.(scriptFailAt := failAt), dev, name, localDir, succ, cmds))
  {
    var env2 := env.(scriptFailAt := failAt);
    var n := |job.partitions|;
    if env.stopAt > n && job.useZip && succ != [] {
      var s1 := if job.genScript then Some(MakeScripts(localDir, succ, env.scriptFailAt)) else None;
      var s2 := if job.genScript then Some(MakeScripts(localDir, succ, failAt)) else None;
      PackageSameEnd(job.outDir, name, localDir, env, env2, dev, n, succ, cmds, s1, s2);
    }
  }

  lemma PackageSameEnd(outDir: string, name: string, localDir: string, env: Env, env2: Env, dev: Device, n: nat,
                       succ: seq<string>, cmds: seq<Command>, s1: Option<Written>, s2: Option<Written>)
    requires env2 == env.(scriptFailAt := env2.scriptFailAt) && s1.Some? == s2.Some?
    ensures SameEnd(Package(outDir, name, localDir, env, dev, n, succ, cmds, s1),
                    Package(outDir, name, localDir, env2, dev, n, succ, cmds, s2))
  {
  }

  // ---------------------------------------------------------------- the removal is fire and forget

  /** `rm` of a staging image. */
  predicate IsRemoval(c: Command)
  {
    c.Shell? && StartsWith(c.text, "rm ")
  }

  /** Two devices that answer every command alike except possibly the removals. */
  ghost predicate AgreeBesidesRemoval(dev: Device, dev2: Device)
  {
    forall c :: !IsRemoval(c) ==> dev(c) == dev2(c)
  }

  lemma NotRemoval(text: string)
    requires text != [] && text[0] != 'r'
    ensures !IsRemoval(Shell(text))
  {
  }

  lemma RunIgnoresRemoval(dev: Device, dev2: Device, c: Command)
    requires AgreeBesidesRemoval(dev, dev2) && !IsRemoval(c)
    ensures Run(dev, c) == Run(dev2, c)
  {
  }

  lemma ListTargetIgnoresRemoval(before: seq<Command>, q: string, dev: Device, dev2: Device)
    requires AgreeBesidesRemoval(dev, dev2)
    ensures ListTarget(before, q, dev) == ListTarget(before, q, dev2)
  {
    NotRemoval("ls " + q);
    RunIgnoresRemoval(dev, dev2, Shell("ls " + q));
  }

  lemma ProbeTargetIgnoresRemoval(p: string, dev: Device, dev2: Device)
    requires AgreeBesidesRemoval(dev, dev2)
    ensures ProbeTarget(p, dev) == ProbeTarget(p, dev2)
  {
    if '*' in p {
      var c := Shell("ls -d " + BeforeChar(p, '*') + "* 2>/dev/null");
      NotRemoval(c.text);
      RunIgnoresRemoval(dev, dev2, c);
      if Run(dev, c).Output? {
        ListTargetIgnoresRemoval([c], ResolveTarget(Strip(Run(dev, c).text), p), dev, dev2);
      }
    } else {
      ListTargetIgnoresRemoval([], p, dev, dev2);
    }
  }

  lemma {:induction false} FindTargetIgnoresRemoval(cands: seq<string>, i: nat, issued: seq<Command>, dev: Device, dev2: Device)
    requires AgreeBesidesRemoval(dev, dev2)
    ensures FindTargetFrom(cands, i, issued, dev) == FindTargetFrom(cands, i, issued, dev2)
    decreases |cands| - i
  {
    if i < |cands| {
      ProbeTargetIgnoresRemoval(cands[i], dev, dev2);
      FindTargetIgnoresRemoval(cands, i + 1, issued + ProbeTarget(cands[i], dev).commands, dev, dev2);
    }
  }

  lemma {:induction false} LoopIgnoresRemoval(dev: Device, dev2: Device, target: string, localDir: string, parts: seq<string>)
    requires AgreeBesidesRemoval(dev, dev2)
    ensures LoopSteps(dev, target, localDir, parts) == LoopSteps(dev2, target, localDir, parts)
    decreases |parts|
  {
    if parts != [] {
      var part := parts[|parts| - 1];
      LoopIgnoresRemoval(dev, dev2, target, localDir, parts[..|parts| - 1]);
      NotRemoval(CopyOut(target, part).text);
    }
  }

  lemma FinishIgnoresRemoval(job: Job, env: Env, dev: Device, dev2: Device, name: string, localDir: string,
                             succ: seq<string>, cmds: seq<Command>)
    requires AgreeBesidesRemoval(dev, dev2)
    ensures Finish(job, env, dev, name, localDir, succ, cmds) == Finish(job, env, dev2, name, localDir, succ, cmds)
  {
    RunIgnoresRemoval(dev, dev2, Compress(PathJoin(job.outDir, name + ".zip"), localDir));
  }

  /** Whatever the removal of a staging image answers, the job ends the same way. */
  lemma RemovalOutcomeIgnored(job: Job, env: Env, dev: Device, dev2: Device)
    requires AgreeBesidesRemoval(dev, dev2)
    ensures Executed(job, env, dev) == Executed(job, env, dev2)
  {
    FindTargetIgnoresRemoval(TargetSearchPaths, 0, [], dev, dev2);
    NotRemoval(MakeStaging.text);
    RunIgnoresRemoval(dev, dev2, MakeStaging);
    assert ReachesLoop(job, env, dev) == ReachesLoop(job, env, dev2);
    if ReachesLoop(job, env, dev) {
      ExecutedPastLoop(job, env, dev);
      ExecutedPastLoop(job, env, dev2);
      var target := Target(dev).target.value;
      LoopIgnoresRemoval(dev, dev2, target, LocalDir(job, env), Attempted(job, env));
      var loop := LoopSteps(dev, target, LocalDir(job, env), Attempted(job, env));
      FinishIgnoresRemoval(job, env, dev, dev2, BackupName(env.model, env.timestamp), LocalDir(job, env),
                           loop.succeeded, Target(dev).commands + loop.commands);
    }
  }

  // ---------------------------------------------------------------- against the scan

  /** For a one-line `ls -d` answer the job resolves the wildcard directory as the scan
      does. */
  lemma WildcardAgreesOnOneLine(lsBase: string, p: string)
    requires NoLineBreak(Strip(lsBase))
    ensures ResolveTarget(Strip(lsBase), p) == PartitionScan.ResolveWildcard(Strip(lsBase), p)
  {
    var b := Strip(lsBase);
    if b != [] {
      SplitLinesOfOneLine(b);
      StripIdempotent(lsBase);
    }
  }

  /** For an answer of several lines (several platform directories) the job appends
      `/by-name` to the whole answer, so its directory spans lines, while the scan keeps
      the first line only. */
  lemma WildcardKeepsEveryLine(lsBase: string, p: string)
    requires Strip(lsBase) != [] && !Contains(Strip(lsBase), "No such") && !NoLineBreak(Strip(lsBase))
    requires NoLineBreak(p)
    ensures !NoLineBreak(ResolveTarget(Strip(lsBase), p))
    ensures NoLineBreak(PartitionScan.ResolveWildcard(Strip(lsBase), p))
    ensures ResolveTarget(Strip(lsBase), p) != PartitionScan.ResolveWildcard(Strip(lsBase), p)
  {
    var b := Strip(lsBase);
    WholeAnswerSpans(b, p);
    FirstLineKept(b, p);
  }

  lemma WholeAnswerSpans(b: string, p: string)
    requires b != [] && !Contains(b, "No such") && !NoLineBreak(b)
    ensures !NoLineBreak(ResolveTarget(b, p))
  {
    var i :| 0 <= i < |b| && IsLineBreak(b[i]);
    var whole := b + "/by-name";
    assert ResolveTarget(b, p) == whole;
    assert whole[i] == b[i];
  }

  lemma FirstLineKept(b: string, p: string)
    requires NoLineBreak(p)
    ensures NoLineBreak(PartitionScan.ResolveWildcard(b, p))
  {
    if b != [] && !Contains(b, "No such") {
      var lines := SplitLines(b);
      if lines != [] {
        StripKeepsOneLine(lines[0]);
        var first := Strip(lines[0]);
        assert PartitionScan.ResolveWildcard(b, p) == first + "/by-name";
        ByNameOneLine();
        NoLineBreakConcat(first, "/by-name");
      }
    }
  }

  lemma ByNameOneLine()
    ensures NoLineBreak("/by-name")
  {
    assert "/by-name" == ['/', 'b', 'y', '-', 'n', 'a', 'm', 'e'];
  }
}
