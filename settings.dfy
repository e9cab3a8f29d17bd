/** The settings tab: the stored update address and its migration, the theme choice
    and its stored mode, the download folder shown and picked, the tool check, and the
    answer to an update check. The settings store is a map from keys to text; the file
    system and the dialogs are parameters. */
module Settings {
  import opened Wrappers
  import opened Text
  import opened HostPath
  import opened Seqs
  import UpdateChecker
  import opened Sorting

  const UrlKey: string := "update/url"
  const ModeKey: string := "theme/mode"
  const DirKey: string := "download/dir"

  /** The update manifest address the tab stores when none or a legacy one is set. */
  const CanonicalUrl: string := UrlHead + "Resilience" + UrlMiddle + LegacyTail

  const UrlHead: string := "https://gitee.com/AQ16/"
  const UrlMiddle: string := "/raw/Mellifluous"
  const LegacyTail: string := "/.github/workflows/boxver"

  /** What the download card shows when no folder is set. */
  const NotSet: string := "未设置"

  /** The three entries of the theme box, by index. */
  const Modes: seq<string> := ["system", "light", "dark"]

  /** `settings.value(key, "") or ""`. */
  function Value(store: map<string, string>, key: string): string
  {
    if key in store then store[key] else ""
  }

  // ---------------------------------------------------------------- the update address

  /** The stored address is replaced when it is empty or names the legacy manifest. */
  predicate Migrates(url: string)
  {
    url == [] || (Contains(url, "Resilience") && Contains(url, LegacyTail))
  }

  function MigratedUrl(url: string): (r: string)
  {
    if Migrates(url) then CanonicalUrl else url
  }

  // ---------------------------------------------------------------- the theme

  /** `_on_theme_changed`'s table: an index outside it means `system`. */
  function IndexToMode(index: int): (m: string)
    ensures m in Modes
  {
    if 0 <= index < |Modes| then Modes[index] else "system"
  }

  /** `_load_settings`: `light` is 1, `dark` is 2, anything else is 0. */
  function ModeToIndex(mode: string): (i: nat)
    ensures i < |Modes|
  {
    if mode == "light" then 1 else if mode == "dark" then 2 else 0
  }

  datatype Theme = Light | Dark | Auto

  function ThemeOf(mode: string): Theme
  {
    if mode == "light" then Light else if mode == "dark" then Dark else Auto
  }

  // ---------------------------------------------------------------- the download folder

  /** What the download card shows for the stored folder. */
  function DirText(dir: string): (r: string)
    ensures r != []
  {
    if dir == [] then NotSet else dir
  }

  /** The folder the picker opens at, from what the card shows. */
  function PickStart(shown: string): string
  {
    if shown == NotSet then "" else shown
  }

  // ---------------------------------------------------------------- the tool check

  /** Each tool with the file names it may have, in the order they are checked. */
  const Tools: seq<(string, seq<string>)> := [
    ("adb", ["adb.exe", "adb"]),
    ("fastboot", ["fastboot.exe", "fastboot"]),
    ("7z", ["7z.exe", "7za.exe", "7z"]),
    ("payload-dumper", ["payload-dumper-go.exe", "payload-dumper.exe", "payload-dumper-go"])
  ]

  /** Some candidate folder holds one of the tool's files. */
  predicate ToolPresent(files: seq<string>, folders: seq<string>, present: string -> bool)
  {
    exists i, j :: 0 <= i < |folders| && 0 <= j < |files| && present(PathJoin(folders[i], files[j]))
  }

  /** The names of the tools not found, in order. */
  function MissingTools(tools: seq<(string, seq<string>)>, folders: seq<string>, present: string -> bool): seq<string>
  {
    if tools == [] then []
    else MissingOne(tools[0], folders, present) + MissingTools(tools[1..], folders, present)
  }

  /** The name of one tool when it is not found. */
  function MissingOne(t: (string, seq<string>), folders: seq<string>, present: string -> bool): seq<string>
  {
    if ToolPresent(t.1, folders, present) then [] else [t.0]
  }

  datatype BinNotice = AllReady | MissingNotice(text: string)

  function BinNoticeOf(missing: seq<string>): BinNotice
  {
    if missing == [] then AllReady else MissingNotice("未找到：" + Join(", ", missing))
  }

  /** `_check_bin`'s innermost loops for one tool: the folders in order, and in each the
      file names in order, until one exists. */
  method FindTool(files: seq<string>, folders: seq<string>, present: string -> bool) returns (ok: bool)
    ensures ok == ToolPresent(files, folders, present)
  {
    ok := false;
    var i := 0;
    while i < |folders|
      invariant 0 <= i <= |folders|
      invariant !ok ==> forall i', j :: 0 <= i' < i && 0 <= j < |files| ==> !present(PathJoin(folders[i'], files[j]))
      invariant ok ==> ToolPresent(files, folders, present)
    {
      var j := 0;
      while j < |files|
        invariant 0 <= j <= |files|
        invariant !ok ==> forall j' :: 0 <= j' < j ==> !present(PathJoin(folders[i], files[j']))
        invariant ok ==> ToolPresent(files, folders, present)
      {
        if present(PathJoin(folders[i], files[j])) {
          ok := true;
          break;
        }
        j := j + 1;
      }
      if ok {
        break;
      }
      i := i + 1;
    }
  }

  /** The missing names of a table extended by one tool. */
  lemma {:induction false} MissingSnoc(tools: seq<(string, seq<string>)>, t: (string, seq<string>), folders: seq<string>, present: string -> bool)
    ensures MissingTools(tools + [t], folders, present) ==
              MissingTools(tools, folders, present) + MissingOne(t, folders, present)
    decreases |tools|
  {
    var ext := tools + [t];
    if tools == [] {
      assert ext[0] == t && ext[1..] == [];
      assert MissingTools(ext, folders, present) == MissingOne(t, folders, present) + [];
    } else {
      var rest := tools[1..];
      assert ext[0] == tools[0] && ext[1..] == rest + [t];
      MissingSnoc(rest, t, folders, present);
      var h := MissingOne(tools[0], folders, present);
      assert MissingTools(ext, folders, present) == h + MissingTools(rest + [t], folders, present);
      assert MissingTools(tools, folders, present) == h + MissingTools(rest, folders, present);
    }
  }

  /** `found` records, for the first `n` tools of the table, whether each was found. */
  ghost predicate Recorded(tools: seq<(string, seq<string>)>, n: nat, found: map<string, bool>,
                     folders: seq<string>, present: string -> bool)
    requires n <= |tools|
  {
    (forall x :: x in found <==> exists k :: 0 <= k < n && tools[k].0 == x)
    && forall k :: 0 <= k < n ==> tools[k].0 in found && found[tools[k].0] == ToolPresent(tools[k].1, folders, present)
  }

  /** Recording one more tool of a table without repeated names. */
  lemma RecordedSnoc(tools: seq<(string, seq<string>)>, n: nat, found: map<string, bool>,
                     folders: seq<string>, present: string -> bool, ok: bool)
    requires forall k, k' :: 0 <= k < k' < |tools| ==> tools[k].0 != tools[k'].0
    requires n < |tools| && Recorded(tools, n, found, folders, present)
    requires ok == ToolPresent(tools[n].1, folders, present)
    ensures Recorded(tools, n + 1, found[tools[n].0 := ok], folders, present)
  {
    var found' := found[tools[n].0 := ok];
    forall x | x in found'
      ensures exists k :: 0 <= k < n + 1 && tools[k].0 == x
    {
      if x != tools[n].0 {
        assert x in found;
      }
    }
    forall k | 0 <= k < n + 1
      ensures tools[k].0 in found' && found'[tools[k].0] == ToolPresent(tools[k].1, folders, present)
    {
      if k < n {
        assert tools[k].0 != tools[n].0;
      }
    }
  }

  /** `_check_bin`'s loop over the tool table: whether each tool was found, and the
      ones missing. */
  method CheckTools(tools: seq<(string, seq<string>)>, folders: seq<string>, present: string -> bool)
    returns (found: map<string, bool>, missing: seq<string>)
    requires forall k, k' :: 0 <= k < k' < |tools| ==> tools[k].0 != tools[k'].0
    ensures forall x :: x in found <==> exists k :: 0 <= k < |tools| && tools[k].0 == x
    ensures forall k :: 0 <= k < |tools| ==> tools[k].0 in found && found[tools[k].0] == ToolPresent(tools[k].1, folders, present)
    ensures missing == MissingTools(tools, folders, present)
  {
    found := map[];
    missing := [];
    for k := 0 to |tools|
      invariant Recorded(tools, k, found, folders, present)
      invariant missing == MissingTools(tools[..k], folders, present)
    {
      var t := tools[k];
      var ok := FindTool(t.1, folders, present);
      RecordedSnoc(tools, k, found, folders, present, ok);
      found := found[t.0 := ok];
      MissingSnoc(tools[..k], t, folders, present);
      PrefixSnoc(tools, k);
      assert MissingOne(t, folders, present) == if ok then [] else [t.0];
      if !ok {
        missing := missing + [t.0];
      }
    }
    PrefixAll(tools);
  }

  /** The tool names are distinct. */
  lemma ToolNamesDistinct()
    ensures forall k, k' :: 0 <= k < k' < |Tools| ==> Tools[k].0 != Tools[k'].0
  {
    assert Tools[0].0[0] == 'a' && Tools[1].0[0] == 'f' && Tools[2].0[0] == '7' && Tools[3].0[0] == 'p';
  }

  /** `_check_bin`: whether each tool was found, the ones missing, and the notice. */
  method CheckBin(folders: seq<string>, present: string -> bool)
    returns (found: map<string, bool>, missing: seq<string>, notice: BinNotice)
    ensures forall k :: 0 <= k < |Tools| ==> Tools[k].0 in found && found[Tools[k].0] == ToolPresent(Tools[k].1, folders, present)
    ensures forall x :: x in found <==> exists k :: 0 <= k < |Tools| && Tools[k].0 == x
    ensures missing == MissingTools(Tools, folders, present)
    ensures notice == BinNoticeOf(missing)
  {
    ToolNamesDistinct();
    found, missing := CheckTools(Tools, folders, present);
    notice := BinNoticeOf(missing);
  }

  // ---------------------------------------------------------------- the update answer

  /** What `_on_update_finished` shows: the error, an offer of the newer version with
      its message, its accept button's text and its download address, or that the
      current version is the latest. */
  datatype UpdateNotice = CheckFailed(error: string) | Offer(message: string, accept: string, download: string) | Latest(message: string)

  /** An update is offered when the manifest's version is non-empty and sorts after
      the current one as a string. */
  predicate Newer(latest: string, current: string)
  {
    latest != [] && StrLt(current, latest)
  }

  function UpdateNoticeOf(info: UpdateChecker.Manifest, error: string, current: string): UpdateNotice
  {
    if error != [] then CheckFailed(error)
    else
      var latest := Strip(UpdateChecker.Get(info, "version"));
      var notes := UpdateChecker.Get(info, "notes");
      var download := UpdateChecker.Get(info, "url");
      if Newer(latest, current) then
        Offer("发现新版本：" + latest + "\n当前版本：" + current + (if notes != [] then "\n\n更新内容：\n" + notes else ""),
              if download != [] then "去下载" else "确定", download)
      else Latest("当前版本：" + current)
  }

  /** The address opened after the notice: only an accepted offer with a download
      address opens it. */
  function OpenedLink(notice: UpdateNotice, accepted: bool): Option<string>
  {
    if notice.Offer? && accepted && notice.download != [] then Some(notice.download) else None
  }

  // ---------------------------------------------------------------- the tab

  class Tab {
    /** The `QSettings` store. */
    var store: map<string, string>
    /** The theme box's index. */
    var themeIndex: nat
    /** The theme applied last, if any. */
    var theme: Option<Theme>
    /** The download card's text. */
    var dirText: string

    /** `__init__` ends by loading the settings. */
    constructor(stored: map<string, string>)
      ensures store == (if Migrates(Value(stored, UrlKey)) then stored[UrlKey := CanonicalUrl] else stored)
      ensures themeIndex == ModeToIndex(if ModeKey in stored then stored[ModeKey] else "system")
      ensures dirText == DirText(Value(stored, DirKey))
      ensures theme == None
    {
      var url := Value(stored, UrlKey);
      var s := stored;
      if Contains(url, "Resilience") && Contains(url, LegacyTail) {
        url := CanonicalUrl;
        s := s[UrlKey := url];
      }
      if url == [] {
        s := s[UrlKey := CanonicalUrl];
      }
      store := s;
      themeIndex := ModeToIndex(if ModeKey in stored then stored[ModeKey] else "system");
      dirText := DirText(Value(stored, DirKey));
      theme := None;
    }

    /** `_on_theme_changed`: the mode is stored and its theme applied. */
    method OnThemeChanged(index: int)
      modifies this
      ensures store == old(store)[ModeKey := IndexToMode(index)]
      ensures theme == Some(ThemeOf(IndexToMode(index)))
      ensures themeIndex == old(themeIndex) && dirText == old(dirText)
    {
      var mode := IndexToMode(index);
      store := store[ModeKey := mode];
      theme := Some(ThemeOf(mode));
    }

    /** `_pick_download_dir`: `choose` is the folder dialog, given the folder it opens
        at; an empty answer (cancelled) changes nothing. */
    method PickDownloadDir(choose: string -> string) returns (start: string)
      modifies this
      ensures start == PickStart(old(dirText))
      ensures var path := choose(start);
              if path != [] then store == old(store)[DirKey := path] && dirText == path
              else store == old(store) && dirText == old(dirText)
      ensures themeIndex == old(themeIndex) && theme == old(theme)
    {
      start := if dirText == NotSet then "" else dirText;
      var path := choose(start);
      if path != [] {
        store := store[DirKey := path];
        dirText := path;
      }
    }
  }

  // ---------------------------------------------------------------- properties

  /** The canonical address names the legacy manifest. */
  lemma CanonicalIsLegacy()
    ensures Migrates(CanonicalUrl)
  {
    assert CanonicalUrl == UrlHead + "Resilience" + (UrlMiddle + LegacyTail);
    ContainsInConcat(UrlHead, "Resilience", UrlMiddle + LegacyTail);
    assert CanonicalUrl == UrlHead + "Resilience" + UrlMiddle + LegacyTail + "";
    ContainsInConcat(UrlHead + "Resilience" + UrlMiddle, LegacyTail, "");
  }

  /** The canonical address is a fixed point of the migration, so migrating twice is
      migrating once; the result is never empty, and any other address is kept. */
  lemma MigrationSettles(url: string)
    ensures MigratedUrl(MigratedUrl(url)) == MigratedUrl(url)
    ensures MigratedUrl(url) != []
    ensures !Migrates(url) ==> MigratedUrl(url) == url
  {
    CanonicalIsLegacy();
  }

  /** Loading the settings leaves the canonical address stored when it was empty or a
      legacy one, and the stored address as it was otherwise. */
  lemma StoredAfterLoad(stored: map<string, string>)
    ensures var s := if Migrates(Value(stored, UrlKey)) then stored[UrlKey := CanonicalUrl] else stored;
            Value(s, UrlKey) == MigratedUrl(Value(stored, UrlKey)) && Value(s, UrlKey) != [] &&
            (forall k :: k in stored && k != UrlKey ==> k in s && s[k] == stored[k])
  {
    MigrationSettles(Value(stored, UrlKey));
  }

  /** The theme round trip: an index of the box stores a mode that loads back as the
      same index, and a stored mode loads as an index that stores it back, an unknown
      mode as `system`. */
  lemma ThemeRoundTrip(index: int, mode: string)
    ensures ModeToIndex(IndexToMode(index)) == (if 0 <= index < |Modes| then index else 0)
    ensures IndexToMode(ModeToIndex(mode)) == (if mode in Modes then mode else "system")
    ensures ThemeOf(IndexToMode(index)) == (if index == 1 then Light else if index == 2 then Dark else Auto)
  {
  }

  /** The picker opens at the stored folder, and at no folder when none is set. */
  lemma PickerStartsAtStored(dir: string)
    requires dir != NotSet
    ensures PickStart(DirText(dir)) == dir
  {
  }

  /** A tool is missing exactly when no candidate folder holds any of its files, and
      no tool is reported twice by position. */
  lemma {:induction false} MissingMembers(tools: seq<(string, seq<string>)>, folders: seq<string>, present: string -> bool)
    ensures forall x :: x in MissingTools(tools, folders, present) <==>
              exists k :: 0 <= k < |tools| && tools[k].0 == x && !ToolPresent(tools[k].1, folders, present)
    ensures |MissingTools(tools, folders, present)| <= |tools|
    decreases |tools|
  {
    if tools != [] {
      var tail := tools[1..];
      MissingMembers(tail, folders, present);
      var h := MissingOne(tools[0], folders, present);
      var rest := MissingTools(tail, folders, present);
      assert MissingTools(tools, folders, present) == h + rest;
      forall x | x in h + rest
        ensures exists k :: 0 <= k < |tools| && tools[k].0 == x && !ToolPresent(tools[k].1, folders, present)
      {
        if x !in rest {
          assert x in h;
          assert tools[0].0 == x && !ToolPresent(tools[0].1, folders, present);
        } else {
          var k :| 0 <= k < |tail| && tail[k].0 == x && !ToolPresent(tail[k].1, folders, present);
          assert tools[k + 1] == tail[k];
        }
      }
      forall x | exists k :: 0 <= k < |tools| && tools[k].0 == x && !ToolPresent(tools[k].1, folders, present)
        ensures x in h + rest
      {
        var k :| 0 <= k < |tools| && tools[k].0 == x && !ToolPresent(tools[k].1, folders, present);
        if k > 0 {
          assert tail[k - 1] == tools[k];
          assert x in rest;
        } else {
          assert x in h;
        }
      }
    }
  }

  /** The missing list names exactly the tools no candidate folder holds, and the
      check succeeds exactly when nothing is missing. */
  lemma MissingExactly(tools: seq<(string, seq<string>)>, folders: seq<string>, present: string -> bool)
    ensures forall x :: x in MissingTools(tools, folders, present) <==>
              exists k :: 0 <= k < |tools| && tools[k].0 == x && !ToolPresent(tools[k].1, folders, present)
    ensures MissingTools(tools, folders, present) == [] <==>
              forall k :: 0 <= k < |tools| ==> ToolPresent(tools[k].1, folders, present)
    ensures |MissingTools(tools, folders, present)| <= |tools|
  {
    MissingMembers(tools, folders, present);
    var m := MissingTools(tools, folders, present);
    if m != [] {
      assert m[0] in m;
    }
    if exists k :: 0 <= k < |tools| && !ToolPresent(tools[k].1, folders, present) {
      var k :| 0 <= k < |tools| && !ToolPresent(tools[k].1, folders, present);
      assert tools[k].0 in m;
    }
  }

  /** An update is offered exactly for a newer version; the offer names the new and
      the current version, shows the notes only when there are some, and its button
      offers a download only when there is an address. */
  lemma OfferExactly(info: UpdateChecker.Manifest, current: string)
    ensures var latest := Strip(UpdateChecker.Get(info, "version"));
            UpdateNoticeOf(info, "", current).Offer? <==> Newer(latest, current)
    ensures var n := UpdateNoticeOf(info, "", current);
            n.Offer? ==> StartsWith(n.message, "发现新版本：" + Strip(UpdateChecker.Get(info, "version")) + "\n当前版本：" + current) &&
                         n.download == UpdateChecker.Get(info, "url") &&
                         (n.accept == "去下载" <==> n.download != [])
    ensures forall e :: e != [] ==> UpdateNoticeOf(info, e, current) == CheckFailed(e)
  {
    var n := UpdateNoticeOf(info, "", current);
    if n.Offer? {
      var head := "发现新版本：" + Strip(UpdateChecker.Get(info, "version")) + "\n当前版本：" + current;
      StartsWithConcat(head, n.message[|head|..]);
      assert n.message == head + n.message[|head|..];
    }
  }

  /** The gate is a strict order on versions: the current version is never offered, two
      versions are never each newer than the other, and of two different non-empty
      versions one is newer. */
  lemma GateIsStrictOrder(a: string, b: string)
    ensures !Newer(a, a)
    ensures !(Newer(a, b) && Newer(b, a))
    ensures a != b && a != [] && b != [] ==> Newer(a, b) || Newer(b, a)
  {
    StrLeTotal(a, b);
    if StrLe(a, b) && StrLe(b, a) {
      StrLeAntisymmetric(a, b);
    }
  }

  /** Compared as strings, `1.10` is not newer than `1.9`: a two-digit component sorts
      by its first digit. */
  lemma TwoDigitComponentNotNewer()
    ensures !Newer("1.10", "1.9") && Newer("1.9", "1.10")
  {
    assert "1.9"[2] == '9' && "1.10"[2] == '1';
    assert "1.9"[1..][1..] == "9" && "1.10"[1..][1..] == "10";
  }

  /** Only an accepted offer with an address opens a link, and it opens that address. */
  lemma OpensOnlyAcceptedDownload(notice: UpdateNotice, accepted: bool)
    ensures OpenedLink(notice, accepted).Some? <==> notice.Offer? && accepted && notice.download != []
    ensures OpenedLink(notice, accepted).Some? ==> OpenedLink(notice, accepted).value == notice.download
  {
  }
}
