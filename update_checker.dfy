/** The update check (`UpdateCheckerWorker.run`): turn a GitHub or Gitee "blob" page
    address into the raw file address, fetch the manifest, and read it as a JSON object,
    else as `key=value` lines, else as a bare version on its first non-empty line. The
    fetch and `json.loads` are parameters. */
module UpdateChecker {
  import opened Wrappers
  import opened Text
  import opened Seqs

  const NoUrlMessage: string := "未配置更新地址"
  const NoVersionMessage: string := "返回数据缺少版本信息"

  /** A manifest: its keys with their values as text. */
  type Manifest = map<string, string>

  /** What `json.loads` makes of the text. */
  datatype Json = NotJson | NotObject | Object(fields: Manifest)

  /** The dictionary and error text the check finishes with, and the address it fetched. */
  datatype Checked = Checked(info: Manifest, error: string, fetched: Option<string>)

  // ---------------------------------------------------------------- the address

  /** The raw file address for a blob page address; any other address as it is. An
      address whose last host part has no `/blob/` after it stays as it is. */
  function RawUrl(url: string): string
  {
    if Contains(url, "github.com") && Contains(url, "/blob/") then
      match SplitOnce(AfterLast(url, "github.com/"), "/blob/")
      case None => url
      case Some((userRepo, rest)) => "https://raw.githubusercontent.com/" + userRepo + "/" + rest
    else if Contains(url, "gitee.com") && Contains(url, "/blob/") then
      match SplitOnce(AfterLast(url, "gitee.com/"), "/blob/")
      case None => url
      case Some((userRepo, rest)) => "https://gitee.com/" + userRepo + "/raw/" + rest
    else url
  }

  /** `https://github.com/<user/repo>/blob/<rest>` becomes
      `https://raw.githubusercontent.com/<user/repo>/<rest>`, when that `github.com/` is the
      last one and that `/blob/` the first. */
  lemma GithubBlobToRaw(userRepo: string, rest: string)
    requires !Contains(userRepo + "/blob/" + rest, "github.com/")
    requires !Contains(userRepo + "/blob", "/blob/")
    ensures RawUrl("https://github.com/" + userRepo + "/blob/" + rest)
         == "https://raw.githubusercontent.com/" + userRepo + "/" + rest
  {
    var t := userRepo + "/blob/" + rest;
    var url := "https://github.com/" + userRepo + "/blob/" + rest;
    assert url == "https://" + "github.com" + ("/" + t);
    ContainsInConcat("https://", "github.com", "/" + t);
    assert url == ("https://github.com/" + userRepo) + "/blob/" + rest;
    ContainsInConcat("https://github.com/" + userRepo, "/blob/", rest);
    assert url == "https://" + "github.com/" + t;
    HostsFirstUnrepeated();
    AfterHostIs("https://", "github.com/", t);
    BlobPrefix();
    SplitAtFirst(userRepo, "/blob/", rest);
  }

  /** `https://gitee.com/<user/repo>/blob/<rest>` becomes
      `https://gitee.com/<user/repo>/raw/<rest>`, for an address that does not mention
      `github.com` (which is tried first). */
  lemma GiteeBlobToRaw(userRepo: string, rest: string)
    requires !Contains("https://gitee.com/" + userRepo + "/blob/" + rest, "github.com")
    requires !Contains(userRepo + "/blob/" + rest, "gitee.com/")
    requires !Contains(userRepo + "/blob", "/blob/")
    ensures RawUrl("https://gitee.com/" + userRepo + "/blob/" + rest)
         == "https://gitee.com/" + userRepo + "/raw/" + rest
  {
    var t := userRepo + "/blob/" + rest;
    var url := "https://gitee.com/" + userRepo + "/blob/" + rest;
    assert url == "https://" + "gitee.com" + ("/" + t);
    ContainsInConcat("https://", "gitee.com", "/" + t);
    assert url == ("https://gitee.com/" + userRepo) + "/blob/" + rest;
    ContainsInConcat("https://gitee.com/" + userRepo, "/blob/", rest);
    assert url == "https://" + "gitee.com/" + t;
    HostsFirstUnrepeated();
    AfterHostIs("https://", "gitee.com/", t);
    BlobPrefix();
    SplitAtFirst(userRepo, "/blob/", rest);
  }

  /** Neither host part repeats its first character. */
  lemma HostsFirstUnrepeated()
    ensures "github.com/"[0] !in "github.com/"[1..]
    ensures "gitee.com/"[0] !in "gitee.com/"[1..]
  {
    assert "github.com/"[1..] == "ithub.com/";
    assert "gitee.com/"[1..] == "itee.com/";
  }

  lemma BlobPrefix()
    ensures "/blob/"[..|"/blob/"| - 1] == "/blob"
  {
  }

  /** The text after a host part that occurs once, at the given place. */
  lemma AfterHostIs(scheme: string, host: string, t: string)
    requires host != [] && host[0] !in host[1..]
    requires !Contains(t, host)
    ensures AfterLast(scheme + host + t, host) == t
  {
    ContainsSkipsPrefix(host[1..], t, host);
    RFindOfConcat(scheme, host, t);
    assert (scheme + host + t)[|scheme| + |host|..] == t;
  }

  /** Splitting at the first occurrence of a separator that occurs first after `a`. */
  lemma SplitAtFirst(a: string, sep: string, b: string)
    requires sep != [] && !Contains(a + sep[..|sep| - 1], sep)
    ensures SplitOnce(a + sep + b, sep) == Some((a, b))
  {
    FindOfConcat(a, sep, b);
    var s := a + sep + b;
    assert s[..|a|] == a && s[|a| + |sep|..] == b;
  }

  /** An address without `/blob/` is fetched as it is. */
  lemma NoBlobUnchanged(url: string)
    requires !Contains(url, "/blob/")
    ensures RawUrl(url) == url
  {
  }

  // ---------------------------------------------------------------- the manifest

  /** One `key=value` line, both sides stripped; nothing for a blank line, a `#` line or
      a line without `=`. */
  function IniLine(line: string): (r: Option<(string, string)>)
    ensures r.Some? ==> Strip(line) != [] && Strip(line)[0] != '#' && '=' in Strip(line)
  {
    var t := Strip(line);
    if t == [] || t[0] == '#' || '=' !in t then None
    else
      var k := BeforeChar(t, '=');
      assert |k| < |t|;
      Some((Strip(k), Strip(t[|k| + 1..])))
  }

  /** The dictionary that lines fill through `parse`, later keys overwriting earlier
      ones. */
  function Fill(lines: seq<string>, parse: string -> Option<(string, string)>): Manifest
  {
    if lines == [] then map[]
    else
      var m := Fill(lines[..|lines| - 1], parse);
      match parse(lines[|lines| - 1])
      case None => m
      case Some((k, v)) => m[k := v]
  }

  /** The dictionary of the `key=value` lines. */
  function IniMap(lines: seq<string>): Manifest
  {
    Fill(lines, IniLine)
  }

  function Get(m: Manifest, k: string): string
  {
    if k in m then m[k] else ""
  }

  /** The manifest of the `key=value` tier. */
  function IniManifest(kv: Manifest): (r: Manifest)
    ensures r.Keys == {"version", "url", "notes"}
  {
    map["version" := Get(kv, "version"), "url" := Get(kv, "url"), "notes" := Get(kv, "notes")]
  }

  /** The first line that is not blank, stripped. */
  function FirstNonEmpty(lines: seq<string>): (r: Option<string>)
    ensures r.None? <==> forall i :: 0 <= i < |lines| ==> Strip(lines[i]) == []
    ensures r.Some? ==> r.value != []
  {
    if lines == [] then None
    else if Strip(lines[0]) != [] then Some(Strip(lines[0]))
    else
      assert forall i :: 1 <= i < |lines| ==> lines[i] == lines[1..][i - 1];
      FirstNonEmpty(lines[1..])
  }

  /** The line found is the first non-blank one. */
  lemma {:induction false} FirstNonEmptyIsFirst(lines: seq<string>)
    requires FirstNonEmpty(lines).Some?
    ensures exists k :: 0 <= k < |lines| && FirstNonEmpty(lines).value == Strip(lines[k])
                        && forall j :: 0 <= j < k ==> Strip(lines[j]) == []
    decreases |lines|
  {
    if Strip(lines[0]) == [] {
      var tail := lines[1..];
      FirstNonEmptyIsFirst(tail);
      var k :| 0 <= k < |tail| && FirstNonEmpty(tail).value == Strip(tail[k])
               && forall j :: 0 <= j < k ==> Strip(tail[j]) == [];
      assert tail[k] == lines[k + 1];
      forall j | 0 <= j < k + 1
        ensures Strip(lines[j]) == []
      {
        if j > 0 {
          assert lines[j] == tail[j - 1];
          assert Strip(tail[j - 1]) == [];
        }
      }
      assert FirstNonEmpty(lines) == FirstNonEmpty(tail);
      assert FirstNonEmpty(lines).value == Strip(lines[k + 1]);
    }
  }

  /** The three tiers, in order. */
  function Pick(text: string, json: Json): Option<Manifest>
  {
    match json
    case Object(m) => Some(m)
    case _ =>
      var kv := IniMap(SplitLines(text));
      if "version" in kv then Some(IniManifest(kv))
      else
        match FirstNonEmpty(SplitLines(text))
        case Some(f) => Some(map["version" := f])
        case None => None
  }

  /** The result for the manifest found, if any, at `target`. */
  function Decide(target: string, found: Option<Manifest>): (r: Checked)
    ensures r.fetched == Some(target)
  {
    if found.Some? && "version" in found.value then Checked(found.value, "", Some(target))
    else Checked(map[], NoVersionMessage, Some(target))
  }

  /** What the check makes of the reply to its request for `target`. */
  function Answer(target: string, reply: Outcome, parse: string -> Json): Checked
  {
    match reply
    case Raised(e) => Checked(map[], e, Some(target))
    case Output(data) => Decide(target, Pick(Strip(data), parse(Strip(data))))
  }

  /** The whole check, as a function of the configured address, the fetch and the JSON
      reader. */
  function CheckOutcome(url: string, fetch: string -> Outcome, parse: string -> Json): Checked
  {
    if url == [] then Checked(map[], NoUrlMessage, None)
    else Answer(RawUrl(url), fetch(RawUrl(url)), parse)
  }

  // ---------------------------------------------------------------- the worker

  /** One turn of the `key=value` loop: the pair a line sets, if any. */
  method ReadLine(raw: string) returns (entry: Option<(string, string)>)
    ensures entry == IniLine(raw)
  {
    var line := Strip(raw);
    if line == [] || line[0] == '#' {
      assert IniLine(raw) == None;
      return None;
    }
    entry := None;
    if '=' in line {
      var k := BeforeChar(line, '=');
      assert |k| < |line|;
      entry := Some((Strip(k), Strip(line[|k| + 1..])));
    } else {
      assert IniLine(raw) == None;
    }
  }

  /** The `key=value` loop. */
  method IniTier(lines: seq<string>) returns (kv: Manifest)
    ensures kv == IniMap(lines)
  {
    kv := map[];
    for i := 0 to |lines|
      invariant kv == Fill(lines[..i], IniLine)
    {
      FillSnoc(lines[..i], lines[i], IniLine);
      PrefixSnoc(lines, i);
      var entry := ReadLine(lines[i]);
      if entry.Some? {
        kv := kv[entry.value.0 := entry.value.1];
      }
    }
    PrefixAll(lines);
  }

  /** The first-line loop. */
  method FirstLine(lines: seq<string>) returns (first: Option<string>)
    ensures first == FirstNonEmpty(lines)
  {
    first := None;
    var i := 0;
    while i < |lines|
      invariant 0 <= i <= |lines|
      invariant FirstNonEmpty(lines) == FirstNonEmpty(lines[i..])
    {
      SuffixTail(lines, i);
      var t := Strip(lines[i]);
      if t != [] {
        first := Some(t);
        break;
      }
      i := i + 1;
    }
  }

  /** The three tiers of `UpdateCheckerWorker.run`, on the stripped reply. */
  method FindManifest(text: string, parsed: Json) returns (obj: Option<Manifest>)
    ensures obj == Pick(text, parsed)
  {
    obj := None;
    if parsed.Object? {
      obj := Some(parsed.fields);
    }
    if obj.None? {
      var kv := IniTier(SplitLines(text));
      if "version" in kv {
        obj := Some(IniManifest(kv));
      }
    }
    if obj.None? {
      var first := FirstLine(SplitLines(text));
      if first.Some? {
        obj := Some(map["version" := first.value]);
      }
    }
  }

  /** `UpdateCheckerWorker.run`. */
  method Check(url: string, fetch: string -> Outcome, parse: string -> Json) returns (r: Checked)
    ensures r == CheckOutcome(url, fetch, parse)
  {
    if url == [] {
      return Checked(map[], NoUrlMessage, None);
    }
    var target := RawUrl(url);
    var data := fetch(target);
    if data.Raised? {
      return Checked(map[], data.msg, Some(target));
    }
    var text := Strip(data.text);
    var obj := FindManifest(text, parse(text));
    AnswerOfOutput(target, data.text, parse);
    if obj.None? || "version" !in obj.value {
      return Checked(map[], NoVersionMessage, Some(target));
    }
    return Checked(obj.value, "", Some(target));
  }

  // ---------------------------------------------------------------- properties

  /** Without an address nothing is fetched. */
  lemma NoUrlNoFetch(fetch: string -> Outcome, parse: string -> Json)
    ensures CheckOutcome("", fetch, parse) == Checked(map[], NoUrlMessage, None)
  {
  }

  /** A fetched manifest has a version, and then no error; otherwise the dictionary is
      empty. */
  lemma VersionOrEmpty(url: string, fetch: string -> Outcome, parse: string -> Json)
    ensures var r := CheckOutcome(url, fetch, parse);
            r.info == map[] || ("version" in r.info && r.error == [])
    ensures url != [] ==> CheckOutcome(url, fetch, parse).fetched == Some(RawUrl(url))
  {
  }

  /** A JSON object is taken as it is (the other tiers are not consulted): with a version
      it is the result, without one the check fails. */
  lemma JsonObjectTaken(url: string, fetch: string -> Outcome, parse: string -> Json)
    requires url != [] && fetch(RawUrl(url)).Output?
    requires parse(Strip(fetch(RawUrl(url)).text)).Object?
    ensures var m := parse(Strip(fetch(RawUrl(url)).text)).fields;
            CheckOutcome(url, fetch, parse)
            == if "version" in m then Checked(m, "", Some(RawUrl(url)))
               else Checked(map[], NoVersionMessage, Some(RawUrl(url)))
  {
    var target := RawUrl(url);
    var text := Strip(fetch(target).text);
    AnswerOfOutput(target, fetch(target).text, parse);
    PickOfObject(text, parse(text));
  }

  lemma AnswerOfOutput(target: string, data: string, parse: string -> Json)
    ensures Answer(target, Output(data), parse) == Decide(target, Pick(Strip(data), parse(Strip(data))))
  {
  }

  lemma PickOfObject(text: string, json: Json)
    requires json.Object?
    ensures Pick(text, json) == Some(json.fields)
  {
  }

  /** Without a JSON object, a `version` key among the lines gives exactly the three
      keys, the missing ones empty. */
  lemma IniTierTaken(text: string, json: Json)
    requires !json.Object? && "version" in IniMap(SplitLines(text))
    ensures Pick(text, json) == Some(IniManifest(IniMap(SplitLines(text))))
    ensures Pick(text, json).value.Keys == {"version", "url", "notes"}
    ensures Pick(text, json).value["version"] == IniMap(SplitLines(text))["version"]
  {
    var kv := IniMap(SplitLines(text));
    var m := IniManifest(kv);
    assert Pick(text, json) == Some(m);
    assert m["version"] == Get(kv, "version") == kv["version"];
  }

  /** Failing both, the first non-blank line is the version; with no such line there is
      no manifest. */
  lemma PlainTierTaken(text: string, json: Json)
    requires !json.Object? && "version" !in IniMap(SplitLines(text))
    ensures FirstNonEmpty(SplitLines(text)).Some? ==>
              Pick(text, json) == Some(map["version" := FirstNonEmpty(SplitLines(text)).value])
    ensures FirstNonEmpty(SplitLines(text)).None? ==> Pick(text, json).None?
  {
  }

  /** A blank answer that is not JSON fails with the missing-version error. */
  lemma BlankAnswerFails(url: string, fetch: string -> Outcome, parse: string -> Json)
    requires url != [] && fetch(RawUrl(url)).Output? && AllSpace(fetch(RawUrl(url)).text)
    requires !parse("").Object?
    ensures CheckOutcome(url, fetch, parse) == Checked(map[], NoVersionMessage, Some(RawUrl(url)))
  {
    StripEmptyIffAllSpace(fetch(RawUrl(url)).text);
  }

  /** A line the parser skips leaves the dictionary as it is; any other line sets its
      key. */
  lemma FillSnoc(lines: seq<string>, line: string, parse: string -> Option<(string, string)>)
    ensures parse(line).None? ==> Fill(lines + [line], parse) == Fill(lines, parse)
    ensures parse(line).Some? ==>
              Fill(lines + [line], parse) == Fill(lines, parse)[parse(line).value.0 := parse(line).value.1]
  {
    assert (lines + [line])[..|lines|] == lines;
  }

  /** The value of a key is the one on the last line that sets it. */
  lemma {:induction false} FillLastWins(lines: seq<string>, parse: string -> Option<(string, string)>,
                                        i: nat, k: string, v: string)
    requires i < |lines| && parse(lines[i]) == Some((k, v))
    requires forall j :: i < j < |lines| ==> parse(lines[j]).None? || parse(lines[j]).value.0 != k
    ensures k in Fill(lines, parse) && Fill(lines, parse)[k] == v
    decreases |lines|
  {
    var n := |lines| - 1;
    assert lines[..n] + [lines[n]] == lines;
    FillSnoc(lines[..n], lines[n], parse);
    if i < n {
      FillLastWins(lines[..n], parse, i, k, v);
    }
  }

  /** Blank and comment lines are skipped. */
  lemma IniSkips(lines: seq<string>, line: string)
    requires Strip(line) == [] || Strip(line)[0] == '#'
    ensures IniMap(lines + [line]) == IniMap(lines)
  {
    FillSnoc(lines, line, IniLine);
  }

  /** In the `key=value` tier the last line that sets a key gives its value. */
  lemma IniLastWins(lines: seq<string>, i: nat, k: string, v: string)
    requires i < |lines| && IniLine(lines[i]) == Some((k, v))
    requires forall j :: i < j < |lines| ==> IniLine(lines[j]).None? || IniLine(lines[j]).value.0 != k
    ensures k in IniMap(lines) && IniMap(lines)[k] == v
  {
    FillLastWins(lines, IniLine, i, k, v);
  }

  /** A plain `key=value` line reads back as that key and value. */
  lemma IniLineRead(key: string, value: string)
    requires key != [] && Strip(key) == key && Strip(value) == value
    requires key[0] != '#' && '=' !in key
    ensures IniLine(key + "=" + value) == Some((key, value))
  {
    KeyValueLine(key, value);
    IniLineOfStripped(key + "=" + value);
  }

  /** The facts about `key=value` that reading it back needs. */
  lemma KeyValueLine(key: string, value: string)
    requires key != [] && Strip(key) == key && Strip(value) == value
    requires key[0] != '#' && '=' !in key
    ensures var line := key + "=" + value;
            Strip(line) == line && line != [] && line[0] != '#' && '=' in line
            && BeforeChar(line, '=') == key && line[|key| + 1..] == value
  {
    var line := key + ['='] + value;
    assert key + "=" + value == line;
    assert !IsSpace(Strip(key)[0]);
    assert value == [] || !IsSpace(Strip(value)[|value| - 1]);
    LineEnds(key, value);
    StripOfTrimmed(line);
    BeforeCharOfConcat(key, '=', value);
    assert line[|key|] == '=' && line[|key| + 1..] == value;
  }

  lemma LineEnds(key: string, value: string)
    requires key != [] && !IsSpace(key[0]) && (value == [] || !IsSpace(value[|value| - 1]))
    ensures var line := key + ['='] + value;
            !IsSpace(line[0]) && !IsSpace(line[|line| - 1]) && line[0] == key[0]
  {
    var line := key + ['='] + value;
    assert line[0] == key[0];
    if value != [] {
      assert line[|line| - 1] == value[|value| - 1];
    }
  }

  /** The pair a stripped line sets. */
  lemma IniLineOfStripped(t: string)
    requires Strip(t) == t && t != [] && t[0] != '#' && '=' in t
    ensures IniLine(t) == Some((Strip(BeforeChar(t, '=')), Strip(t[|BeforeChar(t, '=')| + 1..])))
  {
    var s := Strip(t);
    assert s == t;
    assert !(s == [] || s[0] == '#' || '=' !in s);
  }
}
