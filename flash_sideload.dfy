/** Flashing an OTA package with `adb sideload`: the device-mode check that must pass
    first, the order of the checks, how a run ends, and stopping it. The device query,
    the file system and the child process are parameters. */
module Sideload {
  import opened Wrappers
  import opened Text
  import opened Seqs
  import opened FlashProcess

  const SideloadPrefix: string := "设备处于 Sideload 模式 (序列号: "
  const SystemMessage: string := "设备处于普通 ADB 模式（需要进入 Recovery sideload）"
  const FastbootdMessage: string := "设备处于 FastbootD 模式（请重启到 Recovery）"
  const BootloaderMessage: string := "设备处于 Bootloader 模式（请重启到 Recovery）"
  const OfflineMessage: string := "设备离线或未授权（请在手机上允许 USB 调试）"
  const NoneMessage: string := "未检测到任何设备"
  const UnknownPrefix: string := "设备状态未知: "
  const FailurePrefix: string := "检查设备状态失败: "

  /** What `detect_connection_mode` gives: a mode and a serial, or the message of the
      exception it raised. */
  datatype Detection = Detected(mode: string, serial: string) | DetectFailed(error: string)

  /** The modes with a message of their own. */
  const KnownModes: set<string> := {"sideload", "system", "fastbootd", "bootloader", "offline", "none"}

  /** `check_device_in_sideload`: ready exactly in sideload mode, with a message naming
      the state otherwise. */
  function CheckDevice(d: Detection): (r: (bool, string))
    ensures r.0 <==> d.Detected? && d.mode == "sideload"
  {
    match d
    case DetectFailed(e) => (false, FailurePrefix + e)
    case Detected(mode, serial) =>
      if mode == "sideload" then (true, SideloadPrefix + serial + ")")
      else if mode == "system" then (false, SystemMessage)
      else if mode == "fastbootd" then (false, FastbootdMessage)
      else if mode == "bootloader" then (false, BootloaderMessage)
      else if mode == "offline" then (false, OfflineMessage)
      else if mode == "none" then (false, NoneMessage)
      else (false, UnknownPrefix + mode)
  }

  /** `_resolve_adb`: the bundled adb when it exists, else `adb` from the search path. */
  function ResolveAdb(bundled: Option<string>): string
  {
    match bundled
    case Some(p) => p
    case None => "adb"
  }

  /** The result of `flash_ota`: the package exists, the device is in sideload mode, adb
      could be started, the run was not cancelled and adb exited with 0. */
  predicate OtaSucceeds(isFile: bool, d: Detection, spawned: bool, flag: bool, n: nat, stopAt: nat, code: int)
  {
    isFile && CheckDevice(d).0 && spawned && RunSucceeds(flag, n, stopAt, code)
  }

  class Logic {
    var stopFlag: bool
    var process: Proc
    /** `_adb_path`. */
    var adb: string

    /** An empty `adbPath` means none was given; `bundled` is the bundled adb when it
        exists. */
    constructor(adbPath: string, bundled: Option<string>)
      ensures adb == (if adbPath != [] then adbPath else ResolveAdb(bundled))
      ensures !stopFlag && process == NoProcess
    {
      adb := if adbPath != [] then adbPath else ResolveAdb(bundled);
      stopFlag, process := false, NoProcess;
    }

    /** `stop`: the flag is always set; only a child still running is terminated. */
    method Stop()
      modifies this
      ensures stopFlag
      ensures process == (if old(process) == Running then Terminated else old(process))
      ensures adb == old(adb)
    {
      stopFlag := true;
      if process == Running {
        process := Terminated;
      }
    }

    /** The output loop: echo each stripped, non-blank line until the output ends or
        the stop flag is seen, in which case adb is terminated. Another thread's
        `stop()` arrives just before line `stopAt`. */
    method Echo(out: seq<string>, stopAt: nat) returns (cancelled: bool, shown: seq<string>)
      requires process == Running
      modifies this
      ensures cancelled == Cancelled(old(stopFlag), |out|, stopAt)
      ensures shown == Shown(out[..LinesSeen(old(stopFlag), |out|, stopAt)])
      ensures stopFlag == (old(stopFlag) || stopAt < |out|)
      ensures process == (if cancelled then Terminated else Running)
      ensures adb == old(adb)
    {
      shown := [];
      var i := 0;
      while i < |out|
        invariant 0 <= i <= |out|
        invariant stopFlag == (old(stopFlag) || stopAt < i)
        invariant i > 0 ==> !stopFlag
        invariant process == Running && adb == old(adb)
        invariant shown == Shown(out[..i])
      {
        if i == stopAt {
          Stop();
        }
        if stopFlag {
          process := Terminated;
          return true, shown;
        }
        ShownSnoc(out[..i], out[i]);
        PrefixSnoc(out, i);
        var line := Strip(out[i]);
        if line != [] {
          shown := shown + [line];
        }
        i := i + 1;
      }
      PrefixAll(out);
      cancelled := false;
    }

    /** `flash_ota`. `isFile` says whether the package exists, `d` is what the device
        query gives, `spawned` whether adb could be started; adb prints `out` and exits
        with `code`. `queried` says whether the device was queried, `argv` is the command
        started. */
    method FlashOta(otaPath: string, isFile: bool, d: Detection, spawned: bool,
                    out: seq<string>, stopAt: nat, code: int)
      returns (ok: bool, queried: bool, argv: seq<string>, shown: seq<string>)
      modifies this
      ensures queried == isFile
      ensures argv == (if isFile && CheckDevice(d).0 && spawned then [old(adb), "sideload", otaPath] else [])
      ensures ok == OtaSucceeds(isFile, d, spawned, old(stopFlag), |out|, stopAt, code)
      ensures shown == (if argv != [] then Shown(out[..LinesSeen(old(stopFlag), |out|, stopAt)]) else [])
      ensures stopFlag == (old(stopFlag) || (argv != [] && stopAt < |out|))
      ensures process == NoProcess && adb == old(adb)
    {
      ok, queried, argv, shown := false, false, [], [];
      if !isFile {
        process := NoProcess;
        return;
      }
      queried := true;
      var check := CheckDevice(d);
      if !check.0 || !spawned {
        process := NoProcess;
        return;
      }
      argv := [adb, "sideload", otaPath];
      process := Running;
      var cancelled;
      cancelled, shown := Echo(out, stopAt);
      if !cancelled {
        process := Exited(code);
        ok := code == 0;
      }
      process := NoProcess;
    }
  }

  // ---------------------------------------------------------------- properties

  /** The characters that tell the messages apart: a failed query's message starts
      with `检`, an unknown mode's has `状` third, and the fixed messages differ in
      their first, third, fifth or sixth character. */
  lemma MessageSignature(d: Detection)
    requires !CheckDevice(d).0
    ensures var m := CheckDevice(d).1;
            |m| > 5 && (m[0] == '检' <==> d.DetectFailed?) &&
            (d.Detected? ==> (m[2] == '状' <==> d.mode !in KnownModes))
  {
    assert FailurePrefix[0] == '检' && |FailurePrefix| > 5;
    assert UnknownPrefix[0] == '设' && UnknownPrefix[2] == '状' && |UnknownPrefix| > 5;
    assert SystemMessage[0] == '设' && SystemMessage[2] == '处';
    assert FastbootdMessage[0] == '设' && FastbootdMessage[2] == '处';
    assert BootloaderMessage[0] == '设' && BootloaderMessage[2] == '处';
    assert OfflineMessage[0] == '设' && OfflineMessage[2] == '离';
    assert NoneMessage[0] == '未' && NoneMessage[2] == '测';
  }

  /** The message tells the states apart: two queries that are not ready and give the
      same message report the same mode, or both failed with the same error. */
  lemma MessageNamesState(d1: Detection, d2: Detection)
    requires !CheckDevice(d1).0 && !CheckDevice(d2).0
    requires CheckDevice(d1).1 == CheckDevice(d2).1
    ensures d1.Detected? <==> d2.Detected?
    ensures d1.Detected? ==> d1.mode == d2.mode
    ensures d1.DetectFailed? ==> d1.error == d2.error
  {
    var m1, m2 := CheckDevice(d1).1, CheckDevice(d2).1;
    MessageSignature(d1);
    MessageSignature(d2);
    if d1.DetectFailed? {
      assert m1[|FailurePrefix|..] == d1.error && m2[|FailurePrefix|..] == d2.error;
    } else if d1.mode !in KnownModes {
      assert m1[|UnknownPrefix|..] == d1.mode && m2[|UnknownPrefix|..] == d2.mode;
    } else if d1.Detected? {
      FixedMessageNamesMode(d1);
      FixedMessageNamesMode(d2);
    }
  }

  /** The mode a fixed message names. */
  function FixedMode(m: string): string
  {
    if m == SystemMessage then "system"
    else if m == FastbootdMessage then "fastbootd"
    else if m == BootloaderMessage then "bootloader"
    else if m == OfflineMessage then "offline"
    else "none"
  }

  lemma FixedMessageNamesMode(d: Detection)
    requires d.Detected? && d.mode in KnownModes && d.mode != "sideload"
    ensures FixedMode(CheckDevice(d).1) == d.mode
  {
    var m := CheckDevice(d).1;
    if d.mode == "system" {
      assert m == SystemMessage;
    } else if d.mode == "fastbootd" {
      assert m == FastbootdMessage && m[4] == ' ' && SystemMessage[4] == '普';
    } else if d.mode == "bootloader" {
      assert m == BootloaderMessage && m[4] == ' ' && m[5] == 'B';
      assert SystemMessage[4] == '普' && FastbootdMessage[5] == 'F';
    } else if d.mode == "offline" {
      assert m == OfflineMessage && m[2] == '离';
      assert SystemMessage[2] == '处' && FastbootdMessage[2] == '处' && BootloaderMessage[2] == '处';
    } else {
      assert m == NoneMessage && m[0] == '未';
      assert SystemMessage[0] == '设' && FastbootdMessage[0] == '设' && BootloaderMessage[0] == '设';
      assert OfflineMessage[0] == '设';
    }
  }

  /** A missing package fails before the device is queried, and a device outside
      sideload mode fails without adb, whatever adb would have done. */
  lemma ChecksComeFirst(isFile: bool, d: Detection, spawned: bool, flag: bool, n: nat, stopAt: nat, code: int)
    ensures !isFile ==> !OtaSucceeds(isFile, d, spawned, flag, n, stopAt, code)
    ensures !(d.Detected? && d.mode == "sideload") ==> !OtaSucceeds(isFile, d, spawned, flag, n, stopAt, code)
    ensures OtaSucceeds(isFile, d, spawned, flag, n, stopAt, code) ==> code == 0 && (n == 0 || (!flag && stopAt >= n))
  {
  }
}
