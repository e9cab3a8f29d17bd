/** The firmware tab: the checks in front of a download request, the file name offered
    for it, the single download slot of the tab, and the firmware-list loader that turns
    a JSON array into table rows. The network, the file system, the JSON decoder and the
    user's answers to dialogs are parameters. */
module FirmwareTab {
  import opened Wrappers
  import opened Text
  import opened HostPath
  import opened Seqs
  import DownloadWorker

  const ExamplePrefix: string := "https://example.com"
  const NotListMessage: string := "返回数据不是数组"
  const DefaultModel: string := "一加Ace Pro"
  const DefaultExtension: string := ".zip"

  // ---------------------------------------------------------------- the URL path

  /** The characters that end the network location of a URL. */
  const NetlocEnd: set<char> := {'/', '?', '#'}
  /** The characters that end the path of a URL. */
  const PathEnd: set<char> := {'?', '#'}

  predicate AsciiLetter(c: char)
  {
    'a' <= c <= 'z' || 'A' <= c <= 'Z'
  }

  /** The characters `urlsplit` accepts in a scheme. */
  predicate SchemeChar(c: char)
  {
    AsciiLetter(c) || '0' <= c <= '9' || c == '+' || c == '-' || c == '.'
  }

  /** The position of the first character of `s` in `stops`, or `|s|`. */
  function CutAt(s: string, stops: set<char>): (r: nat)
    ensures r <= |s|
    ensures forall j :: 0 <= j < r ==> s[j] !in stops
    ensures r < |s| ==> s[r] in stops
  {
    if s == [] || s[0] in stops then 0 else 1 + CutAt(s[1..], stops)
  }

  /** The URL without its scheme: the text before the first `:` is a scheme when it is
      non-empty, starts with a letter and holds only scheme characters. */
  function AfterScheme(url: string): (r: string)
    ensures EndsWith(url, r)
  {
    var scheme := BeforeChar(url, ':');
    if |scheme| < |url| && scheme != [] && AsciiLetter(scheme[0])
       && forall k :: 0 <= k < |scheme| ==> SchemeChar(scheme[k])
    then url[|scheme| + 1..]
    else url
  }

  /** `urlparse(url).path`: the scheme and a `//` network location are dropped, and the
      path ends at the query or the fragment. */
  function UrlPath(url: string): (r: string)
    ensures forall j :: 0 <= j < |r| ==> r[j] !in PathEnd
  {
    var rest := AfterScheme(url);
    var tail := if StartsWith(rest, "//") then rest[2 + CutAt(rest[2..], NetlocEnd)..] else rest;
    tail[..CutAt(tail, PathEnd)]
  }

  // ---------------------------------------------------------------- the offered file

  /** The name part of the offered file: spaces and both slashes become `_`. */
  function SafeName(name: string): (r: string)
    ensures |r| == |name| && NoSep(r) && ' ' !in r
    ensures forall i :: 0 <= i < |name| && name[i] != ' ' && !IsSep(name[i]) ==> r[i] == name[i]
  {
    ReplaceChar(ReplaceChar(ReplaceChar(name, ' ', '_'), '/', '_'), '\\', '_')
  }

  /** The extension of the file the URL names, or `.zip` when it names none. */
  function FileExtension(url: string): (r: string)
    ensures r != [] && r[0] == '.' && NoSep(r)
    ensures Extension(Basename(UrlPath(url))) == [] ==> r == DefaultExtension
    ensures Extension(Basename(UrlPath(url))) != [] ==> EndsWith(UrlPath(url), r)
  {
    var path := UrlPath(url);
    var ext := Extension(Basename(path));
    if ext == [] then
      DefaultExtensionPlain();
      DefaultExtension
    else
      EndsWithTrans(path, Basename(path), ext);
      ext
  }

  lemma DefaultExtensionPlain()
    ensures DefaultExtension[0] == '.' && NoSep(DefaultExtension)
  {
    assert DefaultExtension == ['.', 'z', 'i', 'p'];
    forall i | 0 <= i < |DefaultExtension|
      ensures !IsSep(DefaultExtension[i])
    {
    }
  }

  function DefaultFileName(name: string, url: string): (r: string)
    ensures NoSep(r) && EndsWith(r, FileExtension(url))
  {
    NoSepConcat(SafeName(name), FileExtension(url));
    SafeName(name) + FileExtension(url)
  }

  lemma NoSepConcat(a: string, b: string)
    requires NoSep(a) && NoSep(b)
    ensures NoSep(a + b) && EndsWith(a + b, b)
  {
    assert (a + b)[|a|..] == b;
    forall i | 0 <= i < |a + b|
      ensures !IsSep((a + b)[i])
    {
      if i < |a| {
        assert (a + b)[i] == a[i];
      } else {
        assert (a + b)[i] == b[i - |a|];
      }
    }
  }

  /** The path offered in the save dialog: the file in the configured download folder,
      or the bare file name when none is configured. A name that starts like a drive
      (`C:`) is joined as `os.path.join` does, so only its part after the drive is sure to
      end the path. */
  function DefaultPath(baseDir: string, name: string, url: string): (r: string)
    ensures var file := DefaultFileName(name, url);
            EndsWith(r, file[|Drive(file)|..]) && (Drive(file) == [] ==> EndsWith(r, file))
    ensures baseDir == [] ==> r == DefaultFileName(name, url)
  {
    if baseDir != [] then PathJoin(baseDir, DefaultFileName(name, url)) else DefaultFileName(name, url)
  }

  // ---------------------------------------------------------------- the download slot

  /** A link the tab will download: not empty and not the placeholder host. */
  predicate UsableLink(url: string)
  {
    url != [] && !StartsWith(url, ExamplePrefix)
  }

  /** The download the tab tracks. */
  datatype Download = Download(name: string, url: string, path: string)

  /** What pressing a download button does: a warning about the link, keeping the
      running download, a cancelled save dialog, or a started download. */
  datatype Request = BadLink | KeptCurrent | NoPath | Begun(download: Download)

  /** What the tab tells the user when the slot is cleared. */
  datatype Notice = Silent | CancelNotice | SuccessNotice(name: string, result: string) | ErrorNotice(message: string)

  /** `_on_download`: `busy` is whether a download is tracked, `replace` the answer to
      the replace question and `choose` the save dialog given the offered path. */
  function RequestOutcome(busy: bool, name: string, url: string, baseDir: string, replace: bool,
                          choose: string -> string): Request
  {
    if !UsableLink(url) then BadLink
    else if busy && !replace then KeptCurrent
    else
      var chosen := choose(DefaultPath(baseDir, name, url));
      if chosen == [] then NoPath else Begun(Download(name, url, chosen))
  }

  /** `_on_download_finished`: nothing without a tracked download; a cancellation
      result is reported as such, any other result as the saved file. */
  function FinishNotice(slot: Option<Download>, result: string): (n: Notice)
    ensures n == Silent <==> slot.None?
    ensures slot.Some? && result != DownloadWorker.Canceled ==> n == SuccessNotice(slot.value.name, result)
  {
    match slot
    case None => Silent
    case Some(d) => if result == DownloadWorker.Canceled then CancelNotice else SuccessNotice(d.name, result)
  }

  class Tab {
    /** `current_download`: at most one download is tracked. */
    var current: Option<Download>

    constructor()
      ensures current == None
    {
      current := None;
    }

    /** `_cancel_current_download` and `_force_cleanup_download`: the slot is cleared. */
    method CancelCurrent() returns (n: Notice)
      modifies this
      ensures current == None
      ensures n == (if old(current).Some? then CancelNotice else Silent)
    {
      if current.None? {
        return Silent;
      }
      current := None;
      n := CancelNotice;
    }

    /** `_on_download`. */
    method OnDownload(name: string, url: string, baseDir: string, replace: bool, choose: string -> string)
      returns (r: Request)
      modifies this
      ensures r == RequestOutcome(old(current).Some?, name, url, baseDir, replace, choose)
      ensures current == (match r
                          case Begun(d) => Some(d)
                          case NoPath => None
                          case _ => old(current))
    {
      if !UsableLink(url) {
        return BadLink;
      }
      if current.Some? {
        if !replace {
          return KeptCurrent;
        }
        var _ := CancelCurrent();
      }
      var ext := Extension(Basename(UrlPath(url)));
      if ext == [] {
        ext := DefaultExtension;
      }
      var file := SafeName(name) + ext;
      var offered := if baseDir != [] then PathJoin(baseDir, file) else file;
      var chosen := choose(offered);
      if chosen == [] {
        return NoPath;
      }
      current := Some(Download(name, url, chosen));
      r := Begun(current.value);
    }

    /** `_on_download_finished`. */
    method OnFinished(result: string) returns (n: Notice)
      modifies this
      ensures current == None && n == FinishNotice(old(current), result)
    {
      if current.None? {
        return Silent;
      }
      var name := current.value.name;
      current := None;
      n := if result == DownloadWorker.Canceled then CancelNotice else SuccessNotice(name, result);
    }

    /** `_on_download_error`. */
    method OnError(message: string) returns (n: Notice)
      modifies this
      ensures current == None
      ensures n == (if old(current).Some? then ErrorNotice(message) else Silent)
    {
      if current.None? {
        return Silent;
      }
      current := None;
      n := ErrorNotice(message);
    }
  }

  // ---------------------------------------------------------------- the list loader

  /** An element of the decoded JSON array: an object, its values as text, or anything
      else. */
  datatype Item = Obj(fields: map<string, string>) | NonObj

  /** What the JSON decoder makes of the text. */
  datatype Listing = Unparsable(message: string) | NotArray | Array(items: seq<Item>)

  /** A table row. */
  datatype Firmware = Firmware(name: string, model: string, url: string, notes: string)

  /** What the loader emits: the rows, or the error text. */
  datatype Loaded = Loaded(entries: seq<Firmware>) | LoadError(message: string)

  /** Where the list comes from. */
  datatype Source = Remote(url: string) | Local(path: string)

  /** An `http://` or `https://` source is fetched; anything else is a file path, with a
      `file://` prefix removed. */
  function SourceOf(src: string): (s: Source)
    ensures s.Remote? <==> StartsWith(src, "http://") || StartsWith(src, "https://")
    ensures s.Remote? ==> s.url == src
    ensures s.Local? ==> EndsWith(src, s.path)
  {
    if StartsWith(src, "http://") || StartsWith(src, "https://") then Remote(src)
    else if StartsWith(src, "file://") then Local(src[7..])
    else Local(src)
  }

  function FieldOr(m: map<string, string>, key: string, default: string): string
  {
    if key in m then m[key] else default
  }

  predicate IsObj(it: Item)
  {
    it.Obj?
  }

  /** The row made of one object: its four fields, each defaulted when missing. */
  function ToFirmware(it: Item): Firmware
  {
    var m := if it.Obj? then it.fields else map[];
    Firmware(FieldOr(m, "name", ""), FieldOr(m, "model", DefaultModel), FieldOr(m, "url", ""), FieldOr(m, "notes", ""))
  }

  /** The rows of the array: one per object, in order. */
  function Normalize(items: seq<Item>): seq<Firmware>
  {
    Map(Filter(items, IsObj), ToFirmware)
  }

  /** `_FirmwareListLoader.run`, with `fetch` the HTTP read, `read` the file read and
      `parse` the JSON decoder. */
  function LoadOutcome(src: string, fetch: string -> Outcome, read: string -> Outcome,
                       parse: string -> Listing): Loaded
  {
    var got := match SourceOf(src)
               case Remote(u) => fetch(u)
               case Local(p) => read(p);
    match got
    case Raised(m) => LoadError(m)
    case Output(text) =>
      match parse(text)
      case Unparsable(m) => LoadError(m)
      case NotArray => LoadError(NotListMessage)
      case Array(items) => Loaded(Normalize(items))
  }

  /** The normalizing loop. */
  method Collect(items: seq<Item>) returns (entries: seq<Firmware>)
    ensures entries == Normalize(items)
  {
    entries := [];
    for i := 0 to |items|
      invariant entries == Map(Filter(items[..i], IsObj), ToFirmware)
    {
      PrefixSnoc(items, i);
      NormalizeSnoc(items[..i], items[i]);
      if items[i].Obj? {
        entries := entries + [ToFirmware(items[i])];
      }
    }
    PrefixAll(items);
  }

  method Load(src: string, fetch: string -> Outcome, read: string -> Outcome, parse: string -> Listing)
    returns (r: Loaded)
    ensures r == LoadOutcome(src, fetch, read, parse)
  {
    var got: Outcome;
    if StartsWith(src, "http://") || StartsWith(src, "https://") {
      got := fetch(src);
    } else {
      var path := src;
      if StartsWith(path, "file://") {
        path := path[7..];
      }
      got := read(path);
    }
    match got
    case Raised(m) =>
      return LoadError(m);
    case Output(text) =>
      match parse(text)
      case Unparsable(m) =>
        return LoadError(m);
      case NotArray =>
        return LoadError(NotListMessage);
      case Array(items) =>
        var entries := Collect(items);
        return Loaded(entries);
  }

  // ---------------------------------------------------------------- properties

  lemma {:induction false} CutAtConcat(a: string, b: string, stops: set<char>)
    requires forall j :: 0 <= j < |a| ==> a[j] !in stops
    requires b == [] || b[0] in stops
    ensures CutAt(a + b, stops) == |a|
    decreases |a|
  {
    if a != [] {
      assert (a + b)[1..] == a[1..] + b;
      CutAtConcat(a[1..], b, stops);
    }
  }

  /** The path of `https://<host><path><query or fragment>` is `<path>`. */
  lemma UrlPathOf(host: string, path: string, tail: string)
    requires forall j :: 0 <= j < |host| ==> host[j] !in NetlocEnd
    requires forall j :: 0 <= j < |path| ==> path[j] !in PathEnd
    requires path == [] || path[0] == '/'
    requires tail == [] || tail[0] in PathEnd
    ensures UrlPath("https://" + host + path + tail) == path
  {
    var url := "https://" + host + path + tail;
    var after := path + tail;
    var rest := "//" + host + after;
    assert url == "https" + [':'] + rest;
    HttpsScheme(rest);
    PathOfRest(url, host, after);
    CutAtConcat(path, tail, PathEnd);
    assert after[..|path|] == path;
  }

  lemma PathOfRest(url: string, host: string, after: string)
    requires forall j :: 0 <= j < |host| ==> host[j] !in NetlocEnd
    requires after == [] || after[0] in NetlocEnd
    requires AfterScheme(url) == "//" + host + after
    ensures UrlPath(url) == after[..CutAt(after, PathEnd)]
  {
    NetlocDropped(host, after);
  }

  lemma HttpsScheme(rest: string)
    ensures AfterScheme("https" + [':'] + rest) == rest
  {
    var url := "https" + [':'] + rest;
    BeforeCharOfConcat("https", ':', rest);
    assert url[6..] == rest;
  }

  lemma NetlocDropped(host: string, after: string)
    requires forall j :: 0 <= j < |host| ==> host[j] !in NetlocEnd
    requires after == [] || after[0] in NetlocEnd
    ensures var rest := "//" + host + after;
            StartsWith(rest, "//") && rest[2 + CutAt(rest[2..], NetlocEnd)..] == after
  {
    var rest := "//" + host + after;
    assert rest[..2] == "//";
    assert rest[2..] == host + after;
    CutAtConcat(host, after, NetlocEnd);
    assert rest[2 + |host|..] == after;
  }

  /** Sanitising an already sanitised name changes nothing. */
  lemma SafeNameIdempotent(name: string)
    ensures SafeName(SafeName(name)) == SafeName(name)
  {
    var once := SafeName(name);
    assert forall i :: 0 <= i < |once| ==> once[i] != ' ' && !IsSep(once[i]);
  }

  /** The file name the dialog offers is the last component of the offered path. */
  lemma DefaultPathNamesFile(baseDir: string, name: string, url: string)
    requires ':' !in DefaultFileName(name, url)
    ensures Basename(DefaultPath(baseDir, name, url)) == DefaultFileName(name, url)
  {
    var file := DefaultFileName(name, url);
    var ext := FileExtension(url);
    assert ext != [] && EndsWith(file, ext);
    if baseDir == [] {
      BasenameOfPlain(file);
    } else {
      BasenameOfJoin(baseDir, file);
    }
  }

  /** A plain file name is its own base name. */
  lemma BasenameOfPlain(file: string)
    requires file != [] && NoSep(file) && ':' !in file
    ensures Basename(file) == file
  {
    assert Drive("") == [] && Drive(file) == [];
    assert PathJoin("", file) == file;
    BasenameOfJoin("", file);
  }

  /** A download starts exactly when the link is usable, no download is tracked or the
      user agreed to replace it, and a path was chosen; it is the chosen path that is
      written. A link that is not usable is refused before anything else. */
  lemma RequestExactly(busy: bool, name: string, url: string, baseDir: string, replace: bool,
                       choose: string -> string)
    ensures var r := RequestOutcome(busy, name, url, baseDir, replace, choose);
            r.Begun? <==> UsableLink(url) && (!busy || replace) && choose(DefaultPath(baseDir, name, url)) != []
    ensures var r := RequestOutcome(busy, name, url, baseDir, replace, choose);
            r.Begun? ==> r.download == Download(name, url, choose(DefaultPath(baseDir, name, url)))
    ensures RequestOutcome(busy, name, url, baseDir, replace, choose) == BadLink <==> !UsableLink(url)
    ensures RequestOutcome(busy, name, url, baseDir, replace, choose) == KeptCurrent <==> UsableLink(url) && busy && !replace
  {
  }

  /** An empty link and any link on the placeholder host are refused. */
  lemma PlaceholderRefused(rest: string)
    ensures !UsableLink("") && !UsableLink(ExamplePrefix + rest)
  {
    assert (ExamplePrefix + rest)[..|ExamplePrefix|] == ExamplePrefix;
  }

  /** A `file://` source is read from the path after the prefix. */
  lemma FileSchemeStripped(p: string)
    ensures SourceOf("file://" + p) == Local(p)
  {
    var src := "file://" + p;
    assert src[0] == 'f';
    assert src[..7] == "file://";
    assert src[7..] == p;
  }

  /** A web source is fetched and never read from disk. */
  lemma RemoteNeverRead(src: string, fetch: string -> Outcome, read1: string -> Outcome, read2: string -> Outcome,
                        parse: string -> Listing)
    requires StartsWith(src, "http://") || StartsWith(src, "https://")
    ensures LoadOutcome(src, fetch, read1, parse) == LoadOutcome(src, fetch, read2, parse)
  {
  }

  /** Text that decodes to something other than an array is an error. */
  lemma NotArrayRejected(src: string, fetch: string -> Outcome, read: string -> Outcome,
                         parse: string -> Listing, text: string)
    requires (match SourceOf(src) case Remote(u) => fetch(u) case Local(p) => read(p)) == Output(text)
    requires parse(text) == NotArray
    ensures LoadOutcome(src, fetch, read, parse) == LoadError(NotListMessage)
  {
  }

  /** An element that is not an object adds no row; an object adds its row at the end. */
  lemma NormalizeSnoc(items: seq<Item>, it: Item)
    ensures it.NonObj? ==> Normalize(items + [it]) == Normalize(items)
    ensures it.Obj? ==> (Normalize(items + [it]) == Normalize(items)
              + [Firmware(FieldOr(it.fields, "name", ""), FieldOr(it.fields, "model", DefaultModel),
                          FieldOr(it.fields, "url", ""), FieldOr(it.fields, "notes", ""))])
  {
    FilterSnoc(items, it, IsObj);
    if it.Obj? {
      MapSnoc(Filter(items, IsObj), it, ToFirmware);
    } else {
      assert Filter(items + [it], IsObj) == Filter(items, IsObj) + [];
      assert Filter(items, IsObj) + [] == Filter(items, IsObj);
    }
  }

  /** Every row comes from an object of the array, and there is one row per object. */
  lemma RowsFromObjects(items: seq<Item>)
    ensures |Normalize(items)| == |Filter(items, IsObj)|
    ensures forall i :: 0 <= i < |Normalize(items)| ==>
              exists m :: Obj(m) in items && Normalize(items)[i] == ToFirmware(Obj(m))
  {
    var objs := Filter(items, IsObj);
    forall i | 0 <= i < |Normalize(items)|
      ensures exists m :: Obj(m) in items && Normalize(items)[i] == ToFirmware(Obj(m))
    {
      MapAt(objs, ToFirmware, i);
      assert objs[i] in objs;
      assert Obj(objs[i].fields) in items;
    }
  }
}
