/** The backup tab itself: the guards in front of a scan and of a backup job, the
    selection taken over from the dialog, and the single-flight state of the two worker
    threads. The connection mode, whether the output folder exists and the user's answers
    to dialogs are parameters. */
module BackupTab {
  import opened Wrappers
  import opened HostPath
  import opened SelectionDialog
  import BackupExecutor

  const ScanModeMessage: string := "请连接设备至系统模式并开启调试"
  const BusyMessage: string := "备份任务正在进行"
  const NoSelectionMessage: string := "请先扫描并选择至少一个分区"
  const BadPathMessage: string := "无效的保存路径"
  const OfflineMessage: string := "请确保设备连接且在线"

  /** What pressing "scan" does. */
  datatype ScanStart = ScanIgnored | ScanRefused(message: string) | ScanStarted

  /** What pressing "start backup" does: a warning or error, a silent return when the
      user declines the userdata warning, or a started job. */
  datatype BackupStart = Refused(message: string) | Declined | Started(job: BackupExecutor.Job)

  /** `_scan_partitions`: nothing while a scan runs, an error outside system mode. */
  function ScanDecision(scanRunning: bool, mode: string): (d: ScanStart)
    ensures d.ScanStarted? <==> !scanRunning && mode == "system"
    ensures d.ScanIgnored? <==> scanRunning
  {
    if scanRunning then ScanIgnored
    else if mode != "system" then ScanRefused(ScanModeMessage)
    else ScanStarted
  }

  /** `_start_backup`, its checks in order. */
  function StartDecision(backupRunning: bool, selected: seq<string>, path: string, pathExists: bool,
                         mode: string, confirmed: bool, useZip: bool, genScript: bool): BackupStart
  {
    if backupRunning then Refused(BusyMessage)
    else if selected == [] then Refused(NoSelectionMessage)
    else if path == [] || !pathExists then Refused(BadPathMessage)
    else if mode != "system" then Refused(OfflineMessage)
    else if "userdata" in selected && !confirmed then Declined
    else Started(BackupExecutor.Job(path, selected, useZip, genScript))
  }

  /** A button press in the selection dialog, or a click on the box at `index`. */
  datatype DialogAction = PressSelectAll | PressInvert | PressDefault | Toggle(index: nat)

  /** The boxes after one action. */
  function Step(names: seq<string>, checks: seq<bool>, a: DialogAction): (r: seq<bool>)
    requires |checks| == |names|
    ensures |r| == |names|
  {
    match a
    case PressSelectAll => AllChecked(|names|)
    case PressInvert => Inverted(checks)
    case PressDefault => DefaultChecks(names)
    case Toggle(k) => if k < |checks| then checks[k := !checks[k]] else checks
  }

  /** The boxes after the user's actions. */
  function ChecksAfter(names: seq<string>, checks: seq<bool>, actions: seq<DialogAction>): (r: seq<bool>)
    requires |checks| == |names|
    ensures |r| == |names|
    decreases |actions|
  {
    if actions == [] then checks
    else ChecksAfter(names, Step(names, checks, actions[0]), actions[1..])
  }

  /** One action on an open dialog. */
  method ApplyAction(dlg: PartitionSelection, a: DialogAction)
    requires dlg.Valid()
    modifies dlg.checked
    ensures dlg.checked[..] == Step(dlg.names, old(dlg.checked[..]), a)
  {
    match a
    case PressSelectAll => dlg.SelectAll();
    case PressInvert => dlg.InvertSelection();
    case PressDefault => dlg.SelectDefault();
    case Toggle(k) =>
      if k < dlg.checked.Length {
        dlg.checked[k] := !dlg.checked[k];
      }
  }

  /** The user's actions on an open dialog, in order. */
  method ApplyActions(dlg: PartitionSelection, actions: seq<DialogAction>)
    requires dlg.Valid()
    modifies dlg.checked
    ensures dlg.checked[..] == ChecksAfter(dlg.names, old(dlg.checked[..]), actions)
  {
    for i := 0 to |actions|
      invariant ChecksAfter(dlg.names, dlg.checked[..], actions[i..])
             == ChecksAfter(dlg.names, old(dlg.checked[..]), actions)
    {
      assert actions[i..][0] == actions[i] && actions[i..][1..] == actions[i + 1..];
      ApplyAction(dlg, actions[i]);
    }
  }

  class Tab {
    /** The scan thread is running. */
    var scanRunning: bool
    /** The backup thread is running. */
    var backupRunning: bool
    /** The last scan's partitions. */
    var partitions: seq<string>
    /** The partitions picked in the last accepted dialog. */
    var selected: seq<string>
    /** The output folder field. */
    var path: string
    /** The two option boxes. */
    var useZip: bool
    var genScript: bool

    /** A new tab: no thread, nothing scanned or selected, the desktop as output folder,
        both options ticked. */
    constructor(home: string)
      ensures !scanRunning && !backupRunning
      ensures partitions == [] && selected == []
      ensures path == PathJoin(home, "Desktop") && useZip && genScript
    {
      scanRunning, backupRunning := false, false;
      partitions, selected := [], [];
      path := PathJoin(home, "Desktop");
      useZip, genScript := true, true;
    }

    /** `_scan_partitions` with `mode` the detected connection mode. */
    method ScanPartitions(mode: string) returns (d: ScanStart)
      modifies this
      ensures d == ScanDecision(old(scanRunning), mode)
      ensures scanRunning == (old(scanRunning) || d.ScanStarted?)
      ensures backupRunning == old(backupRunning) && partitions == old(partitions) && selected == old(selected)
      ensures path == old(path) && useZip == old(useZip) && genScript == old(genScript)
    {
      if scanRunning {
        return ScanIgnored;
      }
      if mode != "system" {
        return ScanRefused(ScanModeMessage);
      }
      scanRunning := true;
      d := ScanStarted;
    }

    /** `_on_scan_finished`: an error changes nothing; otherwise the partitions are kept
        and, if the dialog is accepted after the user's `actions`, its selection replaces
        the previous one. */
    method OnScanFinished(found: seq<string>, err: string, actions: seq<DialogAction>, accepted: bool)
      modifies this
      ensures err != [] ==> partitions == old(partitions) && selected == old(selected)
      ensures err == [] ==> partitions == found
      ensures err == [] && accepted ==>
                selected == Selected(Keys(found), ChecksAfter(Keys(found), DefaultChecks(Keys(found)), actions))
      ensures (err != [] || !accepted) ==> selected == old(selected)
      ensures scanRunning == old(scanRunning) && backupRunning == old(backupRunning)
      ensures path == old(path) && useZip == old(useZip) && genScript == old(genScript)
    {
      if err != [] {
        return;
      }
      partitions := found;
      var dlg := new PartitionSelection(found);
      ApplyActions(dlg, actions);
      if accepted {
        selected := dlg.GetSelected();
      }
    }

    /** `_cleanup_scan_thread`. */
    method ScanThreadFinished()
      modifies this
      ensures !scanRunning && backupRunning == old(backupRunning)
      ensures partitions == old(partitions) && selected == old(selected)
      ensures path == old(path) && useZip == old(useZip) && genScript == old(genScript)
    {
      scanRunning := false;
    }

    /** `_start_backup`, with whether the folder exists, the connection mode and the
        answer to the userdata warning as parameters. */
    method StartBackup(pathExists: bool, mode: string, confirmed: bool) returns (d: BackupStart)
      modifies this
      ensures d == StartDecision(old(backupRunning), selected, path, pathExists, mode, confirmed, useZip, genScript)
      ensures backupRunning == (old(backupRunning) || d.Started?)
      ensures scanRunning == old(scanRunning) && partitions == old(partitions) && selected == old(selected)
      ensures path == old(path) && useZip == old(useZip) && genScript == old(genScript)
    {
      if backupRunning {
        return Refused(BusyMessage);
      }
      if selected == [] {
        return Refused(NoSelectionMessage);
      }
      if path == [] || !pathExists {
        return Refused(BadPathMessage);
      }
      if mode != "system" {
        return Refused(OfflineMessage);
      }
      if "userdata" in selected && !confirmed {
        return Declined;
      }
      backupRunning := true;
      d := Started(BackupExecutor.Job(path, selected, useZip, genScript));
    }

    /** `_cleanup_backup_thread`. */
    method BackupThreadFinished()
      modifies this
      ensures !backupRunning && scanRunning == old(scanRunning)
      ensures partitions == old(partitions) && selected == old(selected)
      ensures path == old(path) && useZip == old(useZip) && genScript == old(genScript)
    {
      backupRunning := false;
    }
  }

  // ---------------------------------------------------------------- properties

  /** A job starts exactly when no backup runs, something is selected, the folder exists,
      the device is in system mode and a selected userdata has been confirmed; the job
      backs up the selection with the tab's options. */
  lemma StartedExactly(backupRunning: bool, selected: seq<string>, path: string, pathExists: bool,
                       mode: string, confirmed: bool, useZip: bool, genScript: bool)
    ensures var d := StartDecision(backupRunning, selected, path, pathExists, mode, confirmed, useZip, genScript);
            d.Started? <==> !backupRunning && selected != [] && path != [] && pathExists && mode == "system"
                            && ("userdata" in selected ==> confirmed)
    ensures var d := StartDecision(backupRunning, selected, path, pathExists, mode, confirmed, useZip, genScript);
            d.Started? ==> d.job == BackupExecutor.Job(path, selected, useZip, genScript) && d.job.partitions != []
  {
  }

  /** While a backup runs, every press is refused with the busy warning, whatever else
      holds. */
  lemma SingleFlight(selected: seq<string>, path: string, pathExists: bool, mode: string,
                     confirmed: bool, useZip: bool, genScript: bool)
    ensures StartDecision(true, selected, path, pathExists, mode, confirmed, useZip, genScript) == Refused(BusyMessage)
  {
  }

  /** Whatever the user does in the dialog, the selection holds only scanned names, each
      once. */
  lemma {:induction false} SelectionFromScan(found: seq<string>, actions: seq<DialogAction>)
    ensures Distinct(Selected(Keys(found), ChecksAfter(Keys(found), DefaultChecks(Keys(found)), actions)))
    ensures forall x :: x in Selected(Keys(found), ChecksAfter(Keys(found), DefaultChecks(Keys(found)), actions)) ==> x in found
  {
    KeysLayout(found);
    var keys := Keys(found);
    SelectedDistinct(keys, ChecksAfter(keys, DefaultChecks(keys), actions));
  }

  /** Picking from distinct names gives distinct names. */
  lemma {:induction false} SelectedDistinct(names: seq<string>, checks: seq<bool>)
    requires |checks| == |names| && Distinct(names)
    ensures Distinct(Selected(names, checks))
    decreases |names|
  {
    if names != [] {
      var k := |names| - 1;
      assert Distinct(names[..k]);
      SelectedDistinct(names[..k], checks[..k]);
      var before := Selected(names[..k], checks[..k]);
      assert forall i :: 0 <= i < k ==> names[..k][i] != names[k];
      assert names[k] !in before;
    }
  }
}
