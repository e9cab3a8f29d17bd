/** The partition scan of the backup tab (`_ScanWorker.run`): check for root, then probe
    the block-device `by-name` directories in priority order and return the sorted
    partition names of the first one that lists any. */
module PartitionScan {
  import opened Wrappers
  import opened Text
  import opened Sorting
  import opened Seqs

  /** `adb -s <serial> shell <cmd>`: what the device answers to one command text. */
  type Shell = string -> Outcome

  /** The directories probed, highest priority first; the last is a wildcard. */
  const SearchPaths: seq<string> :=
    ["/dev/block/bootdevice/by-name", "/dev/block/by-name", "/dev/block/platform/*/by-name"]

  const IdCommand: string := "id"
  const SuIdCommand: string := "su -c id"

  const NoRootMessage: string := "未获取到 Root 权限，无法读取分区表。"
  const NotFoundMessage: string := "无法找到分区路径 (/dev/block/by-name 等)。"

  function AdbMissingMessage(adbPath: string): string
  {
    "ADB executable not found at: " + adbPath
  }

  function RootCheckFailedMessage(e: string): string
  {
    "Root 权限检查失败: " + e + "\n请确认设备已 Root 并授予 Shell 权限。"
  }

  /** `_run_cmd`: the command's output with surrounding whitespace removed. */
  function Run(shell: Shell, cmd: string): (o: Outcome)
    ensures o.Output? ==> shell(cmd).Output? && o.text == Strip(shell(cmd).text)
    ensures o.Raised? ==> shell(cmd) == o
  {
    match shell(cmd)
    case Output(t) => Output(Strip(t))
    case Raised(e) => Raised(e)
  }

  /** What the scan reports: the partitions (empty on failure), the error text (empty on
      success) and, for the proofs, the shell commands it issued in order. */
  datatype ScanResult = ScanResult(partitions: seq<string>, error: string, commands: seq<string>)

  /** The outcome of probing one candidate directory: the commands it issued and the
      partition names it yielded (none when the candidate was skipped). */
  datatype Probe = Probe(commands: seq<string>, entries: seq<string>)

  /** A listing token that names a partition: not a path, not an error line of `ls`. */
  predicate IsPartitionName(x: string)
  {
    x != [] && !StartsWith(x, "/") && !StartsWith(x, "ls:")
  }

  /** The filter over the tokens of a listing, in order. */
  function KeepNames(tokens: seq<string>): (r: seq<string>)
    ensures forall x :: multiset(r)[x] == if IsPartitionName(x) then multiset(tokens)[x] else 0
    ensures forall x :: x in r <==> x in tokens && IsPartitionName(x)
  {
    if tokens == [] then []
    else
      assert tokens == [tokens[0]] + tokens[1..];
      if IsPartitionName(tokens[0]) then [tokens[0]] + KeepNames(tokens[1..])
      else KeepNames(tokens[1..])
  }

  /** A listing is usable when it is non-empty and carries neither error text. */
  predicate ListingAccepted(res: string)
  {
    res != [] && !Contains(res, "No such file") && !Contains(res, "Permission denied")
  }

  /** The partition names a listing yields: its whitespace tokens that name a partition,
      and nothing for a refused listing. */
  function ListingEntries(res: string): (r: seq<string>)
    ensures r != [] ==> ListingAccepted(res)
    ensures forall x :: x in r <==> ListingAccepted(res) && x in Split(res) && IsPartitionName(x)
    ensures forall x :: multiset(r)[x] == if ListingAccepted(res) && IsPartitionName(x) then multiset(Split(res))[x] else 0
  {
    if ListingAccepted(res) then KeepNames(Split(res)) else []
  }

  /** The command that resolves a wildcard candidate. */
  function WildcardCommand(p: string): string
  {
    "ls -d " + BeforeChar(p, '*') + "* 2>/dev/null"
  }

  /** The directory a wildcard candidate stands for: the first line of the `ls -d` answer
      followed by `/by-name`, or the unresolved candidate when the answer is unusable. */
  function ResolveWildcard(lsBase: string, p: string): string
  {
    if lsBase != [] && !Contains(lsBase, "No such") then
      var lines := SplitLines(lsBase);
      if lines != [] then Strip(lines[0]) + "/by-name" else p
    else p
  }

  function ListCommand(q: string): string
  {
    "ls -1 " + q
  }

  /** Listing directory `q`, after the commands `before`; a raised command skips it. */
  function ListProbe(before: seq<string>, q: string, shell: Shell): Probe
  {
    var c := ListCommand(q);
    match Run(shell, c)
    case Raised(_) => Probe(before + [c], [])
    case Output(res) => Probe(before + [c], ListingEntries(res))
  }

  /** One iteration of the probing loop. */
  function ProbeCandidate(p: string, shell: Shell): Probe
  {
    if '*' in p then
      var c := WildcardCommand(p);
      match Run(shell, c)
      case Raised(_) => Probe([c], [])
      case Output(lsBase) => ListProbe([c], ResolveWildcard(Strip(lsBase), p), shell)
    else ListProbe([], p, shell)
  }

  /** The probe of each candidate, as if each were probed. */
  function ProbeEach(cands: seq<string>, shell: Shell): (r: seq<Probe>)
    ensures |r| == |cands| && forall j :: 0 <= j < |cands| ==> r[j] == ProbeCandidate(cands[j], shell)
  {
    seq(|cands|, j requires 0 <= j < |cands| => ProbeCandidate(cands[j], shell))
  }

  /** Going through the probes `probes[i..]` in order after the commands `issued`, stopping
      at the first that yields a name: all commands issued, and the names found (none if
      no probe yields any). */
  function FirstListing(probes: seq<Probe>, i: nat, issued: seq<string>): Probe
    decreases |probes| - i
  {
    if i >= |probes| then Probe(issued, [])
    else if probes[i].entries != [] then Probe(issued + probes[i].commands, probes[i].entries)
    else FirstListing(probes, i + 1, issued + probes[i].commands)
  }

  /** The whole scan over the candidate directories `cands`, as a function of whether the
      adb binary exists and of the device; the application probes `SearchPaths`. */
  function ScanOutcome(cands: seq<string>, adbExists: bool, adbPath: string, shell: Shell): ScanResult
  {
    if !adbExists then ScanResult([], AdbMissingMessage(adbPath), [])
    else match Run(shell, IdCommand)
      case Raised(e) => ScanResult([], RootCheckFailedMessage(e), [IdCommand])
      case Output(_) =>
        match Run(shell, SuIdCommand)
        case Raised(e) => ScanResult([], RootCheckFailedMessage(e), [IdCommand, SuIdCommand])
        case Output(su) =>
          if !Contains(su, "uid=0") then ScanResult([], NoRootMessage, [IdCommand, SuIdCommand])
          else
            var found := FirstListing(ProbeEach(cands, shell), 0, []);
            var cmds := [IdCommand, SuIdCommand] + found.commands;
            if found.entries == [] then ScanResult([], NotFoundMessage, cmds)
            else ScanResult(Sort(found.entries), "", cmds)
  }

  /** One pass of the probing loop body: resolve a wildcard candidate, then list it. */
  method ProbeOne(cand: string, shell: Shell) returns (here: Probe)
    ensures here == ProbeCandidate(cand, shell)
  {
    var p := cand;
    if '*' in p {
      var c := WildcardCommand(p);
      var lsBase := Run(shell, c);
      if lsBase.Raised? {
        return Probe([c], []);
      }
      p := ResolveWildcard(Strip(lsBase.text), p);
      here := ListProbe([c], p, shell);
    } else {
      here := ListProbe([], p, shell);
    }
  }

  /** The probing loop of `_ScanWorker.run` over the candidates `cands`, in order. */
  method ProbeAll(cands: seq<string>, shell: Shell) returns (probed: seq<string>, partitions: seq<string>)
    ensures Probe(probed, partitions) == FirstListing(ProbeEach(cands, shell), 0, [])
  {
    ghost var probes := ProbeEach(cands, shell);
    partitions := [];
    probed := [];
    var i := 0;
    while i < |cands|
      invariant 0 <= i <= |cands|
      invariant partitions == []
      invariant FirstListing(probes, i, probed) == FirstListing(probes, 0, [])
    {
      var here := ProbeOne(cands[i], shell);
      probed := probed + here.commands;
      partitions := here.entries;
      if partitions != [] {
        return;
      }
      i := i + 1;
    }
  }

  /** `_ScanWorker.run`. */
  method Scan(adbExists: bool, adbPath: string, shell: Shell) returns (r: ScanResult)
    ensures r == ScanOutcome(SearchPaths, adbExists, adbPath, shell)
  {
    if !adbExists {
      return ScanResult([], AdbMissingMessage(adbPath), []);
    }
    var res := Run(shell, IdCommand);
    if res.Raised? {
      return ScanResult([], RootCheckFailedMessage(res.msg), [IdCommand]);
    }
    var resSu := Run(shell, SuIdCommand);
    if resSu.Raised? {
      return ScanResult([], RootCheckFailedMessage(resSu.msg), [IdCommand, SuIdCommand]);
    }
    if !Contains(resSu.text, "uid=0") {
      return ScanResult([], NoRootMessage, [IdCommand, SuIdCommand]);
    }
    var probed, partitions := ProbeAll(SearchPaths, shell);
    var commands := [IdCommand, SuIdCommand] + probed;
    if partitions == [] {
      return ScanResult([], NotFoundMessage, commands);
    }
    return ScanResult(Sort(partitions), "", commands);
  }

  // ---------------------------------------------------------------- properties

  /** The commands of all the probes, in order. */
  function CommandsOf(probes: seq<Probe>): seq<string>
  {
    if probes == [] then [] else probes[0].commands + CommandsOf(probes[1..])
  }

  /** The root check passed: adb exists, `id` answered, and `su -c id` reports uid 0. */
  predicate RootGranted(adbExists: bool, shell: Shell)
  {
    adbExists && Run(shell, IdCommand).Output? && Run(shell, SuIdCommand).Output?
    && Contains(Run(shell, SuIdCommand).text, "uid=0")
  }

  /** Probing stops at the first probe `k` that yields a name; the ones before it were
      issued in order and yielded none. */
  lemma {:induction false} StopsAtFirst(probes: seq<Probe>, i: nat, issued: seq<string>, k: nat)
    requires i <= k < |probes|
    requires probes[k].entries != []
    requires forall j :: i <= j < k ==> probes[j].entries == []
    ensures FirstListing(probes, i, issued) == Probe(issued + CommandsOf(probes[i..k + 1]), probes[k].entries)
    decreases k - i
  {
    var here := probes[i].commands;
    assert probes[i..k + 1][1..] == probes[i + 1..k + 1];
    if i == k {
      assert CommandsOf(probes[i..k + 1]) == here + CommandsOf([]);
    } else {
      StopsAtFirst(probes, i + 1, issued + here, k);
      assert (issued + here) + CommandsOf(probes[i + 1..k + 1])
             == issued + (here + CommandsOf(probes[i + 1..k + 1]));
    }
  }

  /** When no probe yields a name, every probe is issued and none is found. */
  lemma {:induction false} FindsNothing(probes: seq<Probe>, i: nat, issued: seq<string>)
    requires i <= |probes|
    requires forall j :: i <= j < |probes| ==> probes[j].entries == []
    ensures FirstListing(probes, i, issued) == Probe(issued + CommandsOf(probes[i..]), [])
    decreases |probes| - i
  {
    if i == |probes| {
      assert probes[i..] == [];
    } else {
      var here := probes[i].commands;
      assert probes[i..][1..] == probes[i + 1..];
      FindsNothing(probes, i + 1, issued + here);
      assert (issued + here) + CommandsOf(probes[i + 1..])
             == issued + (here + CommandsOf(probes[i + 1..]));
    }
  }

  /** Without adb, or without root, the scan reports an empty list and an error, and
      probes no directory. */
  lemma {:induction false} ScanNeedsRoot(cands: seq<string>, adbExists: bool, adbPath: string, shell: Shell)
    requires !RootGranted(adbExists, shell)
    ensures ScanOutcome(cands, adbExists, adbPath, shell).partitions == []
    ensures ScanOutcome(cands, adbExists, adbPath, shell).error
            == if !adbExists then AdbMissingMessage(adbPath)
               else if Run(shell, IdCommand).Raised? then RootCheckFailedMessage(Run(shell, IdCommand).msg)
               else if Run(shell, SuIdCommand).Raised? then RootCheckFailedMessage(Run(shell, SuIdCommand).msg)
               else NoRootMessage
    ensures ScanOutcome(cands, adbExists, adbPath, shell).commands
            <= [IdCommand, SuIdCommand]
  {
  }

  /** With root, the scan returns, sorted, the names of the first directory in priority
      order that lists any, after probing exactly the directories up to it. */
  lemma ScanFindsFirstListing(cands: seq<string>, adbExists: bool, adbPath: string, shell: Shell, k: nat)
    requires RootGranted(adbExists, shell)
    requires k < |cands|
    requires ProbeCandidate(cands[k], shell).entries != []
    requires forall j :: 0 <= j < k ==> ProbeCandidate(cands[j], shell).entries == []
    ensures ScanOutcome(cands, adbExists, adbPath, shell).error == []
    ensures Sorted(ScanOutcome(cands, adbExists, adbPath, shell).partitions)
    ensures multiset(ScanOutcome(cands, adbExists, adbPath, shell).partitions)
            == multiset(ProbeCandidate(cands[k], shell).entries)
    ensures ScanOutcome(cands, adbExists, adbPath, shell).commands
            == [IdCommand, SuIdCommand] + CommandsOf(ProbeEach(cands, shell)[..k + 1])
  {
    var probes := ProbeEach(cands, shell);
    StopsAtFirstFromStart(probes, k);
  }

  lemma StopsAtFirstFromStart(probes: seq<Probe>, k: nat)
    requires k < |probes|
    requires probes[k].entries != []
    requires forall j :: 0 <= j < k ==> probes[j].entries == []
    ensures FirstListing(probes, 0, []) == Probe(CommandsOf(probes[..k + 1]), probes[k].entries)
  {
    StopsAtFirst(probes, 0, [], k);
    assert probes[0..k + 1] == probes[..k + 1];
    assert [] + CommandsOf(probes[..k + 1]) == CommandsOf(probes[..k + 1]);
  }

  lemma FindsNothingFromStart(probes: seq<Probe>)
    requires forall j :: 0 <= j < |probes| ==> probes[j].entries == []
    ensures FirstListing(probes, 0, []) == Probe(CommandsOf(probes), [])
  {
    FindsNothing(probes, 0, []);
    assert probes[0..] == probes;
    assert [] + CommandsOf(probes) == CommandsOf(probes);
  }

  /** With root but no directory that lists a name, the scan probes them all and fails. */
  lemma ScanFindsNothing(cands: seq<string>, adbExists: bool, adbPath: string, shell: Shell)
    requires RootGranted(adbExists, shell)
    requires forall j :: 0 <= j < |cands| ==> ProbeCandidate(cands[j], shell).entries == []
    ensures ScanOutcome(cands, adbExists, adbPath, shell)
            == ScanResult([], NotFoundMessage, [IdCommand, SuIdCommand] + CommandsOf(ProbeEach(cands, shell)))
  {
    FindsNothingFromStart(ProbeEach(cands, shell));
  }

  /** The scan never reports a partial list: it fails with an empty list, or succeeds
      with a non-empty one and no error. */
  lemma ScanAllOrNothing(cands: seq<string>, adbExists: bool, adbPath: string, shell: Shell)
    ensures (ScanOutcome(cands, adbExists, adbPath, shell).error == [])
            <==> (ScanOutcome(cands, adbExists, adbPath, shell).partitions != [])
  {
    var r := ScanOutcome(cands, adbExists, adbPath, shell);
    if !adbExists {
      assert r.error == AdbMissingMessage(adbPath) && r.partitions == [];
      assert r.error[0] == 'A';
    } else if Run(shell, IdCommand).Raised? {
      assert r.error == RootCheckFailedMessage(Run(shell, IdCommand).msg) && r.partitions == [];
      assert r.error[0] == 'R';
    } else if Run(shell, SuIdCommand).Raised? {
      assert r.error == RootCheckFailedMessage(Run(shell, SuIdCommand).msg) && r.partitions == [];
      assert r.error[0] == 'R';
    } else if !Contains(Run(shell, SuIdCommand).text, "uid=0") {
      assert r.error == NoRootMessage && r.partitions == [];
      assert r.error[0] == '未';
    } else {
      var found := FirstListing(ProbeEach(cands, shell), 0, []);
      if found.entries == [] {
        assert r.error == NotFoundMessage && r.partitions == [];
        assert r.error[0] == '无';
      } else {
        assert r.error == "" && r.partitions == Sort(found.entries);
        assert found.entries[0] in multiset(found.entries);
      }
    }
  }

  /** A candidate without `*` is listed directly: one `ls -1` of the path itself. */
  lemma PlainCandidateListed(p: string, shell: Shell)
    requires '*' !in p
    ensures ProbeCandidate(p, shell).commands == [ListCommand(p)]
  {
  }

  /** A wildcard candidate `<base>*<rest>` first asks `ls -d <base>*`; from a usable answer
      it lists the first line followed by `/by-name`, and otherwise the unresolved path. */
  lemma {:induction false} WildcardCandidateResolved(base: string, rest: string, shell: Shell)
    requires '*' !in base
    ensures var p := base + "*" + rest;
      var c := "ls -d " + base + "* 2>/dev/null";
      ProbeCandidate(p, shell).commands
      == (match Run(shell, c)
          case Raised(_) => [c]
          case Output(t) =>
            [c, ListCommand(ResolveWildcard(t, p))])
  {
    var p := base + "*" + rest;
    WildcardCommandOf(base, rest);
    var c := "ls -d " + base + "* 2>/dev/null";
    var o := Run(shell, c);
    if o.Output? {
      StripIdempotent(shell(c).text);
      assert Strip(o.text) == o.text;
      var q := ResolveWildcard(o.text, p);
      assert ProbeCandidate(p, shell) == ListProbe([c], q, shell);
      PairOf(c, ListCommand(q));
    } else {
      assert ProbeCandidate(p, shell) == Probe([c], []);
    }
  }

  lemma WildcardCommandOf(base: string, rest: string)
    requires '*' !in base
    ensures '*' in base + "*" + rest
    ensures WildcardCommand(base + "*" + rest) == "ls -d " + base + "* 2>/dev/null"
  {
    var p := base + "*" + rest;
    assert p == base + ['*'] + rest;
    assert p[|base|] == '*';
    BeforeCharOfConcat(base, '*', rest);
  }

  /** The third search path is the only wildcard one; its base is the platform directory. */
  lemma PlatformPathIsWildcard()
    ensures SearchPaths[2] == "/dev/block/platform/" + "*" + "/by-name"
    ensures '*' !in "/dev/block/platform/" && '*' !in SearchPaths[0] && '*' !in SearchPaths[1]
  {
  }
}
