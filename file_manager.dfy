/** The file-manager tab: the device paths it builds and navigates, its copy/cut
    clipboard, the single transfer it runs at a time, the transfer worker's dispatch, and
    the progress it shows. The adb calls are parameters giving a success flag and a
    message; the folder listing itself is not modelled. */
module FileManager {
  import opened Wrappers
  import opened Text
  import opened HostPath
  import opened Seqs
  import DownloadWorker

  const DefaultDir: string := "/storage/emulated/0"
  const UnknownModeMessage: string := "未知的传输模式"
  const CancelledMessage: string := "已取消"
  const FailedMessage: string := "传输失败"

  // ---------------------------------------------------------------- paths

  /** The device path of the entry `name` of the folder `cwd`. */
  function ChildPath(cwd: string, name: string): (r: string)
    ensures EndsWith(r, "/" + name)
  {
    if cwd != "/" then RStripChar(cwd, '/') + "/" + name else "/" + name
  }

  /** The path in the address field, the default folder when it is blank. */
  function FieldPath(text: string): (r: string)
    ensures r != []
  {
    if Strip(text) == [] then DefaultDir else Strip(text)
  }

  /** `_go_up`: nothing at the root; otherwise the folder above, `/` when there is
      none. */
  function GoUp(text: string): (r: Option<string>)
    ensures r.None? <==> FieldPath(text) == "/"
    ensures r.Some? ==> r.value != []
  {
    var p := FieldPath(text);
    if p == "/" then None
    else
      var parent := Dirname(RStripChar(p, '/'));
      Some(if parent == [] then "/" else parent)
  }

  /** A folder path as the tab keeps it: the root, or an absolute path without a
      trailing separator, drive letter or surrounding blanks. */
  predicate NormalDir(cwd: string)
  {
    cwd == "/" || (|cwd| >= 2 && cwd[0] == '/' && !IsSep(cwd[|cwd| - 1]) && ':' !in cwd)
  }

  /** An entry name as a listing gives it. */
  predicate EntryName(name: string)
  {
    name != [] && NoSep(name) && ':' !in name && !IsSpace(name[|name| - 1])
  }

  // ---------------------------------------------------------------- the clipboard and transfers

  datatype ClipMode = CopyClip | CutClip

  datatype TxMode = Pull | Push | CopyTx | Move | RenameTx | OtherMode(name: string)

  /** A transfer source: one path, or a list of local files to push. */
  datatype Source = One(path: string) | Many(paths: seq<string>)

  datatype Job = Job(mode: TxMode, src: Source, dst: string)

  /** `_start_transfer`'s guard: nothing starts while a transfer runs. */
  function Guarded(busy: bool, request: Option<Job>): (r: Option<Job>)
    ensures busy ==> r.None?
    ensures !busy ==> r == request
  {
    if busy then None else request
  }

  /** `_paste_items`: the first clipboard path into the current folder, a copy for a
      copied entry and a move for a cut one; nothing with an empty clipboard. */
  function PasteRequest(mode: Option<ClipMode>, paths: seq<string>, cwd: string): Option<Job>
  {
    if mode.None? || paths == [] then None
    else Some(Job(if mode.value == CopyClip then CopyTx else Move, One(paths[0]), cwd))
  }

  /** `_rename_item`: `answer` is `None` when the dialog is cancelled. */
  function RenameRequest(cwd: string, name: string, answer: Option<string>): Option<Job>
  {
    if answer.None? || answer.value == [] || answer.value == name then None
    else Some(Job(RenameTx, One(ChildPath(cwd, name)), answer.value))
  }

  /** `_on_transfer_finished`: a successful paste of a cut entry empties the clipboard. */
  function ClipAfter(ok: bool, mode: Option<ClipMode>, paths: seq<string>): (Option<ClipMode>, seq<string>)
  {
    if ok && mode == Some(CutClip) then (None, []) else (mode, paths)
  }

  class Tab {
    /** `_cwd`: the folder last listed. */
    var cwd: string
    /** The address field. */
    var pathText: string
    /** The listing thread is running. */
    var listing: bool
    /** The transfer thread is running. */
    var transferring: bool
    var clipMode: Option<ClipMode>
    var clipPaths: seq<string>

    constructor()
      ensures cwd == DefaultDir && pathText == DefaultDir && !listing && !transferring
      ensures clipMode == None && clipPaths == []
    {
      cwd, pathText := DefaultDir, DefaultDir;
      listing, transferring := false, false;
      clipMode, clipPaths := None, [];
    }

    /** `_refresh`: the field's folder becomes the current one unless a listing runs. */
    method Refresh() returns (started: bool)
      modifies this
      ensures started == !old(listing) && listing
      ensures cwd == (if started then FieldPath(pathText) else old(cwd))
      ensures pathText == old(pathText) && transferring == old(transferring)
      ensures clipMode == old(clipMode) && clipPaths == old(clipPaths)
    {
      if listing {
        started := false;
      } else {
        cwd := FieldPath(pathText);
        listing := true;
        started := true;
      }
    }

    /** `_cleanup_list_thread`. */
    method ListFinished()
      modifies this
      ensures !listing && cwd == old(cwd) && pathText == old(pathText) && transferring == old(transferring)
      ensures clipMode == old(clipMode) && clipPaths == old(clipPaths)
    {
      listing := false;
    }

    /** `_go_up`. */
    method GoUpPressed() returns (started: bool)
      modifies this
      ensures pathText == GoUp(old(pathText)).GetOr(old(pathText))
      ensures started == (GoUp(old(pathText)).Some? && !old(listing))
      ensures cwd == (if started then FieldPath(pathText) else old(cwd))
      ensures transferring == old(transferring) && clipMode == old(clipMode) && clipPaths == old(clipPaths)
    {
      var up := GoUp(pathText);
      if up.Some? {
        pathText := up.value;
        started := Refresh();
      } else {
        started := false;
        assert pathText == old(pathText) && cwd == old(cwd);
      }
    }

    /** `_enter_item`: a row without a name, or one that is not a folder, does nothing;
        a folder becomes the field's path and is listed. */
    method EnterItem(name: string, isFolder: bool) returns (started: bool)
      modifies this
      ensures name == [] || !isFolder ==> !started && pathText == old(pathText) && cwd == old(cwd) && listing == old(listing)
      ensures name != [] && isFolder ==> pathText == ChildPath(old(cwd), name)
      ensures started == (name != [] && isFolder && !old(listing))
      ensures cwd == (if started then FieldPath(pathText) else old(cwd))
      ensures transferring == old(transferring) && clipMode == old(clipMode) && clipPaths == old(clipPaths)
    {
      if name == [] || !isFolder {
        return false;
      }
      pathText := ChildPath(cwd, name);
      started := Refresh();
    }

    /** `_start_transfer` and `_start_stream_transfer`. */
    method StartTransfer(request: Option<Job>) returns (job: Option<Job>)
      modifies this
      ensures job == Guarded(old(transferring), request)
      ensures transferring == (old(transferring) || job.Some?)
      ensures cwd == old(cwd) && pathText == old(pathText) && listing == old(listing)
      ensures clipMode == old(clipMode) && clipPaths == old(clipPaths)
    {
      if transferring || request.None? {
        return None;
      }
      transferring := true;
      job := request;
    }

    /** `_cleanup_tx_thread`. */
    method TransferThreadDone()
      modifies this
      ensures !transferring && cwd == old(cwd) && pathText == old(pathText) && listing == old(listing)
      ensures clipMode == old(clipMode) && clipPaths == old(clipPaths)
    {
      transferring := false;
    }

    /** `_clipboard_set`: exactly the one entry, with its mode. */
    method ClipboardSet(mode: ClipMode, name: string)
      modifies this
      ensures clipMode == Some(mode) && clipPaths == [ChildPath(old(cwd), name)]
      ensures cwd == old(cwd) && pathText == old(pathText) && listing == old(listing) && transferring == old(transferring)
    {
      clipMode := Some(mode);
      clipPaths := [ChildPath(cwd, name)];
    }

    /** `_paste_items`. */
    method Paste() returns (job: Option<Job>)
      modifies this
      ensures job == Guarded(old(transferring), PasteRequest(old(clipMode), old(clipPaths), old(cwd)))
      ensures transferring == (old(transferring) || job.Some?)
      ensures cwd == old(cwd) && pathText == old(pathText) && listing == old(listing)
      ensures clipMode == old(clipMode) && clipPaths == old(clipPaths)
    {
      if clipMode.None? || clipPaths == [] {
        return None;
      }
      var mode := if clipMode.value == CopyClip then CopyTx else Move;
      job := StartTransfer(Some(Job(mode, One(clipPaths[0]), cwd)));
    }

    /** `_rename_item`. */
    method Rename(name: string, answer: Option<string>) returns (job: Option<Job>)
      modifies this
      ensures job == Guarded(old(transferring), RenameRequest(old(cwd), name, answer))
      ensures transferring == (old(transferring) || job.Some?)
      ensures cwd == old(cwd) && pathText == old(pathText) && listing == old(listing)
      ensures clipMode == old(clipMode) && clipPaths == old(clipPaths)
    {
      if answer.None? || answer.value == [] || answer.value == name {
        return None;
      }
      job := StartTransfer(Some(Job(RenameTx, One(ChildPath(cwd, name)), answer.value)));
    }

    /** `_on_transfer_finished`: a success refreshes the listing, then empties a cut
        clipboard. */
    method OnTransferFinished(ok: bool)
      modifies this
      ensures (clipMode, clipPaths) == ClipAfter(ok, old(clipMode), old(clipPaths))
      ensures cwd == (if ok && !old(listing) then FieldPath(old(pathText)) else old(cwd))
      ensures listing == (old(listing) || ok)
      ensures pathText == old(pathText) && transferring == old(transferring)
    {
      if ok {
        var _ := Refresh();
        if clipMode == Some(CutClip) {
          clipMode, clipPaths := None, [];
        }
      }
    }
  }

  // ---------------------------------------------------------------- the transfer worker

  /** The index of the first file whose push fails, or `|srcs|`. */
  function FirstFailure(srcs: seq<string>, dst: string, push: (string, string) -> (bool, string)): (k: nat)
    ensures k <= |srcs|
    ensures forall j :: 0 <= j < k ==> push(srcs[j], dst).0
    ensures k < |srcs| ==> !push(srcs[k], dst).0
  {
    if srcs == [] || !push(srcs[0], dst).0 then 0 else 1 + FirstFailure(srcs[1..], dst, push)
  }

  /** The result of pushing `srcs` one after another: the first failure's, or the last
      push's when all succeed. */
  function PushAll(srcs: seq<string>, dst: string, push: (string, string) -> (bool, string)): (bool, string)
  {
    var k := FirstFailure(srcs, dst, push);
    if k < |srcs| then push(srcs[k], dst)
    else if srcs == [] then (true, "")
    else push(srcs[|srcs| - 1], dst)
  }

  /** The push loop: it stops at the first failure; `attempted` are the files pushed. */
  method PushFiles(srcs: seq<string>, dst: string, push: (string, string) -> (bool, string))
    returns (ok: bool, msg: string, attempted: seq<string>)
    ensures (ok, msg) == PushAll(srcs, dst, push)
    ensures var k := FirstFailure(srcs, dst, push);
            attempted == srcs[..if k < |srcs| then k + 1 else k]
  {
    ok, msg, attempted := true, "", [];
    var i := 0;
    while i < |srcs|
      invariant 0 <= i <= |srcs|
      invariant forall j :: 0 <= j < i ==> push(srcs[j], dst).0
      invariant attempted == srcs[..i]
      invariant ok && msg == (if i == 0 then "" else push(srcs[i - 1], dst).1)
    {
      var r := push(srcs[i], dst);
      PrefixSnoc(srcs, i);
      attempted := attempted + [srcs[i]];
      ok, msg := r.0, r.1;
      if !ok {
        break;
      }
      i := i + 1;
    }
    PrefixAll(srcs);
  }

  /** `_TransferWorker.run`: `push` is one local file pushed, `op` every other adb
      operation. */
  function RunTransfer(job: Job, push: (string, string) -> (bool, string),
                       op: (TxMode, Source, string) -> (bool, string)): (bool, string)
  {
    match job.mode
    case Push =>
      (match job.src
       case Many(ps) => PushAll(ps, job.dst, push)
       case One(p) => push(p, job.dst))
    case OtherMode(_) => (false, UnknownModeMessage)
    case _ => op(job.mode, job.src, job.dst)
  }

  method Transfer(job: Job, push: (string, string) -> (bool, string), op: (TxMode, Source, string) -> (bool, string))
    returns (ok: bool, msg: string)
    ensures (ok, msg) == RunTransfer(job, push, op)
  {
    match job.mode {
      case Push =>
        match job.src {
          case Many(ps) =>
            var attempted;
            ok, msg, attempted := PushFiles(ps, job.dst, push);
          case One(p) =>
            ok, msg := push(p, job.dst).0, push(p, job.dst).1;
        }
      case OtherMode(_) =>
        ok, msg := false, UnknownModeMessage;
      case _ =>
        ok, msg := op(job.mode, job.src, job.dst).0, op(job.mode, job.src, job.dst).1;
    }
  }

  // ---------------------------------------------------------------- progress

  /** What the progress bar shows: a busy indicator, or a value. */
  datatype Bar = Busy | Value(percent: int)

  /** `_progress_update`. */
  function ProgressView(percent: int): (b: Bar)
    ensures b.Busy? <==> percent < 0
    ensures b.Value? ==> 0 <= b.percent <= 100 && (percent <= 100 ==> b.percent == percent)
  {
    if percent < 0 then Busy else Value(if percent > 100 then 100 else percent)
  }

  /** The byte rule of the stream worker: the share of the known total, capped at 100,
      or the busy signal `-1` when the total is unknown. */
  function ByteProgress(done: nat, total: int): int
  {
    if total > 0 then (if done * 100 / total < 100 then done * 100 / total else 100) else -1
  }

  /** The end of a stream transfer. */
  function StreamFinish(stopped: bool, code: int): (r: (bool, string))
    ensures r.0 <==> !stopped && code == 0
  {
    if stopped then (false, CancelledMessage)
    else if code == 0 then (true, "")
    else (false, FailedMessage)
  }

  predicate LineBreak(c: char)
  {
    c == '\r' || c == '\n'
  }

  /** The progress lines read so far from the output `s`, and the unfinished line: a
      line ends at `\r` or `\n`, and empty lines are skipped. */
  function Scan(s: string): (r: (seq<string>, string))
  {
    if s == [] then ([], "")
    else
      var prev := Scan(s[..|s| - 1]);
      var c := s[|s| - 1];
      if LineBreak(c) then (if prev.1 == [] then prev.0 else prev.0 + [prev.1], "")
      else (prev.0, prev.1 + [c])
  }

  /** The character loop of `_StreamTransferWorker.run`. */
  method ReadLines(out: string) returns (lines: seq<string>, buf: string)
    ensures (lines, buf) == Scan(out)
  {
    lines, buf := [], "";
    for i := 0 to |out|
      invariant (lines, buf) == Scan(out[..i])
    {
      var ch := out[i];
      PrefixSnoc(out, i);
      assert out[..i + 1][..i] == out[..i];
      if LineBreak(ch) {
        var line := buf;
        buf := "";
        if line != [] {
          lines := lines + [line];
        }
      } else {
        buf := buf + [ch];
      }
    }
    PrefixAll(out);
  }

  /** Each line ended by a line break, in order. */
  function Terminated(lines: seq<string>): string
  {
    if lines == [] then "" else Terminated(lines[..|lines| - 1]) + lines[|lines| - 1] + "\n"
  }

  // ---------------------------------------------------------------- properties

  /** Going up from an entry of a folder returns to the folder. */
  lemma UpFromChild(cwd: string, name: string)
    requires NormalDir(cwd) && EntryName(name)
    ensures GoUp(ChildPath(cwd, name)) == Some(cwd)
  {
    var child := ChildPath(cwd, name);
    if cwd == "/" {
      assert child == "/" + name;
      StripOfTrimmed(child);
      assert RStripChar(child, '/') == child;
      DirnameOfRootChild(name);
    } else {
      assert RStripChar(cwd, '/') == cwd;
      assert child == cwd + "/" + name;
      assert child[|child| - 1] == name[|name| - 1];
      StripOfTrimmed(child);
      assert RStripChar(child, '/') == child;
      DirnameOfChild(cwd, name);
    }
  }

  /** At the root there is nothing above. */
  lemma NothingAboveRoot()
    ensures GoUp("/") == None && GoUp(" / ") == None
  {
    StripOfTrimmed("/");
    assert TrimRight(" / ") == " /";
    assert TrimLeft(" /") == "/";
  }

  /** A copied entry is pasted by copying and a cut one by moving; an empty clipboard
      pastes nothing. */
  lemma PasteModes(p: string, rest: seq<string>, cwd: string, mode: Option<ClipMode>)
    ensures PasteRequest(Some(CopyClip), [p] + rest, cwd) == Some(Job(CopyTx, One(p), cwd))
    ensures PasteRequest(Some(CutClip), [p] + rest, cwd) == Some(Job(Move, One(p), cwd))
    ensures PasteRequest(None, [p] + rest, cwd) == None && PasteRequest(mode, [], cwd) == None
  {
  }

  /** A cut entry is moved at most once: after a successful paste the clipboard is empty;
      a copied entry can be pasted again, and a failed transfer keeps the clipboard. */
  lemma ClipboardAfterPaste(paths: seq<string>, cwd: string, mode: Option<ClipMode>)
    ensures PasteRequest(ClipAfter(true, Some(CutClip), paths).0, ClipAfter(true, Some(CutClip), paths).1, cwd) == None
    ensures ClipAfter(true, Some(CopyClip), paths) == (Some(CopyClip), paths)
    ensures ClipAfter(false, mode, paths) == (mode, paths)
  {
  }

  /** A rename starts exactly for a new, non-empty name, and renames the entry's path. */
  lemma RenameExactly(cwd: string, name: string, answer: Option<string>)
    ensures RenameRequest(cwd, name, answer).Some? <==> answer.Some? && answer.value != [] && answer.value != name
    ensures RenameRequest(cwd, name, answer).Some? ==>
              RenameRequest(cwd, name, answer).value == Job(RenameTx, One(ChildPath(cwd, name)), answer.value)
  {
  }

  /** A list push succeeds exactly when every file is pushed, and a failure reports the
      first failing file's message. */
  lemma PushAllOutcome(srcs: seq<string>, dst: string, push: (string, string) -> (bool, string))
    ensures PushAll(srcs, dst, push).0 <==> forall j :: 0 <= j < |srcs| ==> push(srcs[j], dst).0
    ensures forall k :: 0 <= k < |srcs| && !push(srcs[k], dst).0 && (forall j :: 0 <= j < k ==> push(srcs[j], dst).0)
              ==> PushAll(srcs, dst, push) == push(srcs[k], dst)
  {
    var k := FirstFailure(srcs, dst, push);
    if k < |srcs| {
      assert !push(srcs[k], dst).0;
    } else if srcs != [] {
      assert push(srcs[|srcs| - 1], dst).0;
    }
    forall k' | 0 <= k' < |srcs| && !push(srcs[k'], dst).0 && (forall j :: 0 <= j < k' ==> push(srcs[j], dst).0)
      ensures PushAll(srcs, dst, push) == push(srcs[k'], dst)
    {
      assert !(k' < k);
      assert !(k < k');
    }
  }

  /** An unknown mode fails with its message and starts no adb call. */
  lemma UnknownModeFails(name: string, src: Source, dst: string, push: (string, string) -> (bool, string),
                         op1: (TxMode, Source, string) -> (bool, string), op2: (TxMode, Source, string) -> (bool, string))
    ensures RunTransfer(Job(OtherMode(name), src, dst), push, op1) == (false, UnknownModeMessage)
    ensures RunTransfer(Job(OtherMode(name), src, dst), push, op1) == RunTransfer(Job(OtherMode(name), src, dst), push, op2)
  {
  }

  /** Byte progress is a value in 0..100 that grows with the bytes done and is 100 once
      the total is reached; without a total the bar is busy. */
  lemma ByteProgressBounds(done: nat, more: nat, total: int)
    ensures total > 0 ==> 0 <= ByteProgress(done, total) <= 100
    ensures total > 0 && done >= total ==> ByteProgress(done, total) == 100
    ensures total > 0 ==> ByteProgress(done, total) <= ByteProgress(done + more, total)
    ensures total <= 0 ==> ProgressView(ByteProgress(done, total)) == Busy
  {
    if total > 0 {
      DownloadWorker.DivMono(done * 100, (done + more) * 100, total);
      if done >= total {
        DownloadWorker.DivMono(total * 100, done * 100, total);
      }
    }
  }

  /** Scanning the output after text without line breaks: the completed lines stay, and
      the text is only pending. */
  lemma {:induction false} ScanPending(s: string, w: string)
    requires forall j :: 0 <= j < |w| ==> !LineBreak(w[j])
    ensures Scan(s + w) == (Scan(s).0, Scan(s).1 + w)
    decreases |w|
  {
    if w == [] {
      assert s + w == s;
      assert Scan(s).1 + w == Scan(s).1;
    } else {
      var v := w[..|w| - 1];
      ScanPending(s, v);
      var sw := s + w;
      assert sw[..|sw| - 1] == s + v;
      assert sw[|sw| - 1] == w[|w| - 1];
      assert !LineBreak(w[|w| - 1]);
      assert Scan(s).1 + v + [w[|w| - 1]] == Scan(s).1 + w;
    }
  }

  /** Lines each ended by a line break are read back exactly, with nothing pending. */
  lemma {:induction false} ScanTerminated(lines: seq<string>)
    requires forall i :: 0 <= i < |lines| ==> lines[i] != [] && forall j :: 0 <= j < |lines[i]| ==> !LineBreak(lines[i][j])
    ensures Scan(Terminated(lines)) == (lines, "")
    decreases |lines|
  {
    if lines != [] {
      var init := lines[..|lines| - 1];
      var w := lines[|lines| - 1];
      ScanTerminated(init);
      ScanPending(Terminated(init), w);
      assert Scan(Terminated(init)).1 + w == w;
      var t := Terminated(init) + w + "\n";
      assert t == Terminated(lines);
      assert t[..|t| - 1] == Terminated(init) + w;
      assert LineBreak(t[|t| - 1]);
      assert init + [w] == lines;
    }
  }

  /** Every line read is non-empty and holds no line break, nor does the pending text. */
  lemma {:induction false} ScanClean(s: string)
    ensures forall i :: 0 <= i < |Scan(s).0| ==> Scan(s).0[i] != [] && forall j :: 0 <= j < |Scan(s).0[i]| ==> !LineBreak(Scan(s).0[i][j])
    ensures forall j :: 0 <= j < |Scan(s).1| ==> !LineBreak(Scan(s).1[j])
    decreases |s|
  {
    if s != [] {
      ScanClean(s[..|s| - 1]);
    }
  }
}
