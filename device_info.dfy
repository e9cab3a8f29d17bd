/** The device-information tab: reading a percentage out of a text, the ring widget that
    shows one, the storage summary of a `df` line, the Chinese labels of the connection
    mode and of the bootloader lock, the connection banner that is shown only on a
    change, and the text each information card shows after a collection. The device
    query itself is a parameter: its result is the `info` map. */
module DeviceInfo {
  import opened Wrappers
  import opened Text
  import opened Seqs

  // ---------------------------------------------------------------- percentages

  /** `max(0, min(100, v))`. */
  function Clamp(v: int): (r: int)
    ensures 0 <= r <= 100
    ensures 0 <= v <= 100 ==> r == v
    ensures v > 100 ==> r == 100
  {
    if v < 0 then 0 else if v > 100 then 100 else v
  }

  /** The position of the first digit of `s`, or `|s|`. */
  function FirstDigitAt(s: string): (r: nat)
    ensures r <= |s|
    ensures forall j :: 0 <= j < r ==> !IsDigit(s[j])
    ensures r < |s| ==> IsDigit(s[r])
  {
    if s == [] || IsDigit(s[0]) then 0 else 1 + FirstDigitAt(s[1..])
  }

  /** The digits at the start of `s`, at most `limit` of them: what `\d{1,limit}`
      matches greedily. */
  function LeadingDigits(s: string, limit: nat): (r: string)
    ensures |r| <= limit && AllDigits(r) && StartsWith(s, r)
    ensures |r| < limit && |r| < |s| ==> !IsDigit(s[|r|])
  {
    if limit == 0 || s == [] || !IsDigit(s[0]) then []
    else [s[0]] + LeadingDigits(s[1..], limit - 1)
  }

  /** `_extract_percent`: the first run of one to three digits, clamped to 0..100, or
      nothing for a text without digits. */
  function ExtractPercent(text: string): (r: Option<int>)
    ensures r.None? <==> forall j :: 0 <= j < |text| ==> !IsDigit(text[j])
    ensures r.Some? ==> 0 <= r.value <= 100
  {
    if text == [] then None
    else
      var i := FirstDigitAt(text);
      if i == |text| then None
      else Some(Clamp(DigitsValue(LeadingDigits(text[i..], 3))))
  }

  /** At `i` there are one to three digits followed by `%`: where `(\d{1,3})%` matches. */
  predicate PercentAt(s: string, i: nat)
  {
    i < |s| && var w := LeadingDigits(s[i..], 3);
    w != [] && i + |w| < |s| && s[i + |w|] == '%'
  }

  function PercentFrom(s: string, i: nat): (r: Option<nat>)
    requires i <= |s|
    ensures r.Some? ==> i <= r.value < |s| && PercentAt(s, r.value)
                        && forall j :: i <= j < r.value ==> !PercentAt(s, j)
    ensures r.None? ==> forall j :: i <= j < |s| ==> !PercentAt(s, j)
    decreases |s| - i
  {
    if i == |s| then None
    else if PercentAt(s, i) then Some(i)
    else PercentFrom(s, i + 1)
  }

  /** The number before the first `%` that `(\d{1,3})%` finds, unclamped. */
  function StoragePercent(line: string): (r: Option<nat>)
    ensures r.Some? ==> r.value < 1000
    ensures r.None? <==> forall j :: 0 <= j < |line| ==> !PercentAt(line, j)
  {
    match PercentFrom(line, 0)
    case None => None
    case Some(i) =>
      LeadingBelow1000(LeadingDigits(line[i..], 3));
      Some(DigitsValue(LeadingDigits(line[i..], 3)))
  }

  lemma {:induction false} LeadingBelow1000(w: string)
    requires AllDigits(w) && |w| <= 3
    ensures DigitsValue(w) < Power10(|w|) <= 1000
    decreases |w|
  {
    if w != [] {
      LeadingBelow1000(w[..|w| - 1]);
    }
  }

  function Power10(n: nat): nat
  {
    if n == 0 then 1 else 10 * Power10(n - 1)
  }

  /** What a ring shows: its value and its centre text. */
  datatype RingView = RingView(value: int, display: string)

  /** `_update_storage_ring`: the clamped percentage and the unclamped one as text, or 0
      and `--` without a match. */
  function StorageRing(line: string): (v: RingView)
    ensures 0 <= v.value <= 100 && v.display != []
  {
    match StoragePercent(line)
    case None => RingView(0, "--")
    case Some(p) => RingView(Clamp(p), NatToString(p) + "%")
  }

  /** An empty centre text is shown as `--`. */
  function Shown(text: string): (r: string)
    ensures r != [] && (text != [] ==> r == text)
  {
    if text == [] then "--" else text
  }

  /** `StatsRingWidget`. */
  class Ring {
    var value: int
    var display: string

    predicate Valid()
      reads this
    {
      0 <= value <= 100 && display != []
    }

    constructor()
      ensures Valid() && value == 0 && display == "--"
    {
      value, display := 0, "--";
    }

    /** `setValue`: `v` is `None` when the value does not convert to an integer. */
    method SetValue(v: Option<int>, text: Option<string>)
      requires Valid()
      modifies this
      ensures Valid()
      ensures value == Clamp(v.GetOr(0))
      ensures display == (match text
                          case None => old(display)
                          case Some(t) => Shown(t))
    {
      value := Clamp(v.GetOr(0));
      if text.Some? {
        display := Shown(text.value);
      }
    }

    /** `setDisplayText`. */
    method SetDisplayText(text: string)
      requires Valid()
      modifies this
      ensures Valid() && value == old(value) && display == Shown(text)
    {
      display := Shown(text);
    }
  }

  /** `_update_storage_ring`, returning the detail line under the ring. */
  method UpdateStorageRing(ring: Ring, rawLine: string, displayText: Option<string>) returns (detail: string)
    requires ring.Valid()
    modifies ring
    ensures ring.Valid() && RingView(ring.value, ring.display) == StorageRing(rawLine)
    ensures detail == (if displayText.GetOr("-") == [] then "-" else displayText.GetOr("-"))
  {
    var percent := StoragePercent(rawLine);
    match percent {
      case None =>
        ring.SetValue(Some(0), Some("--"));
      case Some(p) =>
        ring.SetValue(Some(Clamp(p)), Some(NatToString(p) + "%"));
    }
    var d := displayText.GetOr("-");
    detail := if d == [] then "-" else d;
  }

  // ---------------------------------------------------------------- df summary

  function Summary(size: string, used: string, avail: string): string
  {
    "已用 " + used + "  可用 " + avail + "  总 " + size
  }

  /** A token that looks like a size: it has a unit letter and is not a percentage. */
  predicate SizeToken(p: string)
  {
    ('G' in p || 'M' in p || 'K' in p || 'T' in p) && !EndsWith(p, "%")
  }

  /** `_format_storage`. */
  function FormatStorage(line: string): (r: string)
    ensures line == [] ==> r == "-"
  {
    if line == [] then "-" else FormatColumns(line, Split(line))
  }

  /** The summary of the columns `parts` of a non-empty `line`. */
  function FormatColumns(line: string, parts: seq<string>): string
  {
    if |parts| >= 6 then Summary(parts[1], parts[2], parts[3])
    else
      var tokens := Filter(parts, SizeToken);
      if |tokens| >= 3 then Summary(tokens[0], tokens[1], tokens[2])
      else line
  }

  // ---------------------------------------------------------------- labels

  const ConnectionNames: map<string, string> :=
    map["system" := "系统", "sideload" := "Sideload", "fastbootd" := "Fastbootd",
        "bootloader" := "Bootloader", "offline" := "离线", "none" := "未连接"]

  const UnlockNames: map<string, string> := map["unlocked" := "已解锁", "locked" := "已锁定", "unknown" := "未知"]

  /** `_cn_connection`. */
  function CnConnection(v: string): string
  {
    if v in ConnectionNames then ConnectionNames[v] else v
  }

  /** `_cn_unlock`. */
  function CnUnlock(v: string): string
  {
    if v in UnlockNames then UnlockNames[v] else v
  }

  // ---------------------------------------------------------------- the banner

  const Connected: string := "connected"
  const Disconnected: string := "disconnected"

  /** `_apply_banner_state`: the remembered banner and whether a message is shown. A
      message is shown, and remembered, only for one of the two states and only when it
      differs from the remembered one. */
  function BannerStep(last: Option<string>, state: string): (r: (Option<string>, bool))
    ensures r.1 <==> (state == Connected || state == Disconnected) && last != Some(state)
    ensures r.0 == (if r.1 then Some(state) else last)
  {
    if state == Connected && last != Some(Connected) then (Some(Connected), true)
    else if state == Disconnected && last != Some(Disconnected) then (Some(Disconnected), true)
    else (last, false)
  }

  // ---------------------------------------------------------------- the cards

  const ModeKey: string := "connection_status"
  const UnlockKey: string := "bootloader_unlock"
  const SlotKey: string := "current_slot"

  /** The keys `_on_collect_finished` walks, in order. */
  const PrimaryKeys: seq<string> :=
    [ModeKey, UnlockKey, "battery", "storage_data", "memory_percent", "kernel", SlotKey,
     "android_version", "brand", "model", "product"]

  /** The keys that have an information card. */
  const LabelKeys: set<string> :=
    {ModeKey, UnlockKey, SlotKey, "android_version", "kernel", "brand", "model", "product"}

  const NoDeviceMessage: string := "未发现已连接设备"
  const OfflineMessage: string := "设备已连接但离线/未授权，请在手机上授权 USB 调试"

  function Get(info: map<string, string>, key: string, default: string): string
  {
    if key in info then info[key] else default
  }

  /** The connection mode reported, `none` when the key is missing. */
  function Mode(info: map<string, string>): string
  {
    Get(info, ModeKey, "none")
  }

  predicate NoDevice(info: map<string, string>)
  {
    Mode(info) == "none" || Mode(info) == "offline"
  }

  /** The text of a card before an empty one becomes `-`. */
  function Transform(key: string, v: string): string
  {
    if key == ModeKey then CnConnection(v)
    else if key == UnlockKey then CnUnlock(v)
    else if key == SlotKey then Upper(v)
    else v
  }

  function OrDash(v: string): string
  {
    if v == [] then "-" else v
  }

  /** What the card of `key` shows after a collection. */
  function LabelText(info: map<string, string>, key: string): string
  {
    if NoDevice(info) || key !in info then "-" else OrDash(Transform(key, info[key]))
  }

  function LabelsFor(info: map<string, string>): map<string, string>
  {
    map key | key in LabelKeys :: LabelText(info, key)
  }

  /** The status line above the cards. */
  function StatusLine(info: map<string, string>): string
  {
    if Mode(info) == "none" then NoDeviceMessage
    else if Mode(info) == "offline" then OfflineMessage
    else if Get(info, "status_line", "") != [] then info["status_line"]
    else "已连接：" + CnConnection(Mode(info))
  }

  /** The banner state the collection asks for. */
  function BannerOf(info: map<string, string>): string
  {
    Get(info, "banner_state", if NoDevice(info) then Disconnected else Connected)
  }

  /** `display_values` after the first `n` primary keys. */
  function DisplayUpTo(info: map<string, string>, n: nat): map<string, string>
    requires n <= |PrimaryKeys|
  {
    if n == 0 then map[]
    else
      var d := DisplayUpTo(info, n - 1);
      var key := PrimaryKeys[n - 1];
      if key in info && key in LabelKeys then d[key := OrDash(Transform(key, info[key]))] else d
  }

  /** The loop filling `display_values`. */
  method CollectDisplay(info: map<string, string>) returns (display: map<string, string>)
    ensures display == DisplayUpTo(info, |PrimaryKeys|)
  {
    display := map[];
    for i := 0 to |PrimaryKeys|
      invariant display == DisplayUpTo(info, i)
    {
      var key := PrimaryKeys[i];
      if key !in info {
        continue;
      }
      var val := Transform(key, info[key]);
      if key in LabelKeys {
        display := display[key := OrDash(val)];
      }
    }
  }

  class Tab {
    /** `_last_conn_banner`. */
    var lastBanner: Option<string>
    /** The text of each information card. */
    var labels: map<string, string>

    constructor()
      ensures lastBanner == None && labels == map key | key in LabelKeys :: "-"
    {
      lastBanner := None;
      labels := map key | key in LabelKeys :: "-";
    }

    /** `_apply_banner_state`. */
    method ApplyBanner(state: string) returns (notified: bool)
      modifies this
      ensures (lastBanner, notified) == BannerStep(old(lastBanner), state)
      ensures labels == old(labels)
    {
      notified := false;
      if state == Connected && lastBanner != Some(Connected) {
        notified := true;
        lastBanner := Some(Connected);
      } else if state == Disconnected && lastBanner != Some(Disconnected) {
        notified := true;
        lastBanner := Some(Disconnected);
      }
    }

    /** `_on_collect_finished`: the status line, the banner and the cards. */
    method OnCollectFinished(info: map<string, string>) returns (status: string, notified: bool)
      modifies this
      ensures status == StatusLine(info)
      ensures (lastBanner, notified) == BannerStep(old(lastBanner), BannerOf(info))
      ensures labels == LabelsFor(info)
    {
      var mode := Get(info, ModeKey, "none");
      if mode == "none" || mode == "offline" {
        status := if mode == "none" then NoDeviceMessage else OfflineMessage;
        notified := ApplyBanner(Get(info, "banner_state", Disconnected));
        labels := map key | key in LabelKeys :: "-";
        return;
      }
      var line := Get(info, "status_line", "");
      status := if line != [] then line else "已连接：" + CnConnection(mode);
      notified := ApplyBanner(Get(info, "banner_state", Connected));
      var display := CollectDisplay(info);
      DisplayIsLabels(info);
      labels := map key | key in LabelKeys :: Get(display, key, "-");
    }
  }

  // ---------------------------------------------------------------- properties

  lemma {:induction false} FirstDigitOfConcat(prefix: string, rest: string)
    requires forall j :: 0 <= j < |prefix| ==> !IsDigit(prefix[j])
    requires rest != [] && IsDigit(rest[0])
    ensures FirstDigitAt(prefix + rest) == |prefix|
    decreases |prefix|
  {
    if prefix != [] {
      assert (prefix + rest)[1..] == prefix[1..] + rest;
      FirstDigitOfConcat(prefix[1..], rest);
    }
  }

  lemma {:induction false} LeadingDigitsOfConcat(w: string, rest: string, limit: nat)
    requires AllDigits(w) && |w| <= limit
    requires rest == [] || !IsDigit(rest[0])
    ensures LeadingDigits(w + rest, limit) == w
    decreases |w|
  {
    if w != [] {
      assert (w + rest)[1..] == w[1..] + rest;
      assert (w + rest)[0] == w[0];
      LeadingDigitsOfConcat(w[1..], rest, limit - 1);
    } else {
      assert w + rest == rest;
    }
  }

  lemma {:induction false} NatToStringShort(n: nat)
    requires n < 1000
    ensures |NatToString(n)| <= 3
  {
    if n >= 10 {
      NatToStringShort(n / 10);
      if n / 10 >= 10 {
        assert n / 10 / 10 < 10;
      }
    }
  }

  /** A number of at most three digits after a text without digits is what is read,
      clamped to 100. */
  lemma PercentOfText(prefix: string, n: nat, suffix: string)
    requires forall j :: 0 <= j < |prefix| ==> !IsDigit(prefix[j])
    requires n < 1000
    requires suffix == [] || !IsDigit(suffix[0])
    ensures ExtractPercent(prefix + NatToString(n) + suffix) == Some(if n > 100 then 100 else n)
  {
    var w := NatToString(n);
    var text := prefix + w + suffix;
    assert text == prefix + (w + suffix);
    FirstDigitOfConcat(prefix, w + suffix);
    assert text[|prefix|..] == w + suffix;
    NatToStringShort(n);
    LeadingDigitsOfConcat(w, suffix, 3);
    DigitsOfNatToString(n);
    assert LeadingDigits(text[FirstDigitAt(text)..], 3) == w;
    assert ExtractPercent(text) == Some(Clamp(n));
  }

  /** The storage ring reads the number before `%` when nothing earlier looks like a
      percentage: the text before it holds no `%` and does not end in a digit. */
  lemma StorageOfLine(prefix: string, n: nat, suffix: string)
    requires '%' !in prefix && (prefix == [] || !IsDigit(prefix[|prefix| - 1]))
    requires n < 1000
    ensures StorageRing(prefix + NatToString(n) + "%" + suffix) == RingView(Clamp(n), NatToString(n) + "%")
  {
    StoragePercentOf(prefix, n, suffix);
  }

  /** The number the storage line holds, under the same conditions. */
  lemma StoragePercentOf(prefix: string, n: nat, suffix: string)
    requires '%' !in prefix && (prefix == [] || !IsDigit(prefix[|prefix| - 1]))
    requires n < 1000
    ensures StoragePercent(prefix + NatToString(n) + "%" + suffix) == Some(n)
  {
    var w := NatToString(n);
    var rest := w + "%" + suffix;
    var line := prefix + w + "%" + suffix;
    assert line == prefix + rest;
    forall j | 0 <= j < |prefix|
      ensures !PercentAt(line, j)
    {
      NoPercentInPrefix(prefix, rest, j);
    }
    assert line[|prefix|..] == w + ("%" + suffix);
    NatToStringShort(n);
    LeadingDigitsOfConcat(w, "%" + suffix, 3);
    assert line[|prefix| + |w|] == '%';
    assert PercentAt(line, |prefix|);
    FirstPercent(line, |prefix|);
    DigitsOfNatToString(n);
  }

  lemma NoPercentInPrefix(prefix: string, rest: string, j: nat)
    requires '%' !in prefix && (prefix == [] || !IsDigit(prefix[|prefix| - 1]))
    requires j < |prefix|
    ensures !PercentAt(prefix + rest, j)
  {
    var s := prefix + rest;
    var w := LeadingDigits(s[j..], 3);
    if w != [] && j + |w| < |s| {
      assert forall k :: j <= k < j + |w| ==> s[k] == w[k - j];
      assert s[|prefix| - 1] == prefix[|prefix| - 1];
      assert j + |w| < |prefix|;
      assert s[j + |w|] == prefix[j + |w|];
    }
  }

  lemma {:induction false} FirstPercent(s: string, i: nat)
    requires i < |s| && PercentAt(s, i)
    requires forall j :: 0 <= j < i ==> !PercentAt(s, j)
    ensures StoragePercent(s) == Some(DigitsValue(LeadingDigits(s[i..], 3)))
  {
    PercentFromFinds(s, 0, i);
  }

  lemma {:induction false} PercentFromFinds(s: string, k: nat, i: nat)
    requires k <= i < |s| && PercentAt(s, i)
    requires forall j :: k <= j < i ==> !PercentAt(s, j)
    ensures PercentFrom(s, k) == Some(i)
    decreases i - k
  {
    if k < i {
      PercentFromFinds(s, k + 1, i);
    }
  }

  /** A ring keeps its value in 0..100 whatever it is given, and an empty text shows
      `--`. */
  lemma RingClamps(v: int, text: string)
    ensures 0 <= Clamp(v) <= 100 && (v < 0 ==> Clamp(v) == 0)
    ensures Shown(text) == (if text == [] then "--" else text)
  {
  }

  /** A line of six or more columns shows its second, third and fourth as size, used
      and available space. */
  lemma DfColumns(fs: string, size: string, used: string, avail: string, rest: seq<string>)
    requires |rest| >= 2
    requires forall w :: w in [fs, size, used, avail] + rest ==> w != [] && NoSpace(w)
    ensures FormatStorage(Join(" ", [fs, size, used, avail] + rest)) == Summary(size, used, avail)
  {
    var words := [fs, size, used, avail] + rest;
    assert forall i :: 0 <= i < |words| ==> words[i] in words;
    SplitJoinSpace(words);
    FormatOfWords(Join(" ", words), words);
  }

  /** With fewer columns the first three size-like tokens are used, and without three of
      them the line is shown unchanged. */
  lemma DfFallback(words: seq<string>)
    requires 0 < |words| < 6
    requires forall i :: 0 <= i < |words| ==> words[i] != [] && NoSpace(words[i])
    ensures var tokens := Filter(words, SizeToken);
            FormatStorage(Join(" ", words))
            == if |tokens| >= 3 then Summary(tokens[0], tokens[1], tokens[2]) else Join(" ", words)
  {
    SplitJoinSpace(words);
    FormatOfWords(Join(" ", words), words);
  }

  lemma FormatOfWords(line: string, words: seq<string>)
    requires Split(line) == words && words != []
    ensures FormatStorage(line) == FormatColumns(line, words)
  {
  }

  /** Every known mode and lock state gets a label of its own that differs from the key;
      any other text is shown as it is. */
  lemma LabelsTranslate(v: string)
    ensures v !in ConnectionNames ==> CnConnection(v) == v
    ensures v !in UnlockNames ==> CnUnlock(v) == v
    ensures forall a, b :: a in ConnectionNames && b in ConnectionNames && a != b ==> ConnectionNames[a] != ConnectionNames[b]
    ensures forall a :: a in ConnectionNames ==> CnConnection(a) != a
    ensures forall a, b :: a in UnlockNames && b in UnlockNames && a != b ==> UnlockNames[a] != UnlockNames[b]
    ensures forall a :: a in UnlockNames ==> CnUnlock(a) != a
  {
    ConnectionLabelsDistinct();
    UnlockLabelsDistinct();
  }

  lemma ConnectionLabelsDistinct()
    ensures forall a, b :: a in ConnectionNames && b in ConnectionNames && a != b ==> ConnectionNames[a] != ConnectionNames[b]
    ensures forall a :: a in ConnectionNames ==> ConnectionNames[a] != a
  {
  }

  lemma UnlockLabelsDistinct()
    ensures forall a, b :: a in UnlockNames && b in UnlockNames && a != b ==> UnlockNames[a] != UnlockNames[b]
    ensures forall a :: a in UnlockNames ==> UnlockNames[a] != a
  {
  }

  /** Repeating a banner state shows nothing and changes nothing. */
  lemma BannerRepeatSilent(last: Option<string>, state: string)
    ensures var first := BannerStep(last, state);
            BannerStep(first.0, state) == (first.0, false)
  {
  }

  /** The remembered banner is always one of the two states, or none yet. */
  lemma BannerRemembersState(last: Option<string>, state: string)
    requires last == None || last == Some(Connected) || last == Some(Disconnected)
    ensures var r := BannerStep(last, state).0;
            r == None || r == Some(Connected) || r == Some(Disconnected)
  {
  }

  /** The slot card shows the slot in upper case, every card shows `-` for an empty or a
      missing value, and all cards show `-` without a device. */
  lemma CardsShown(info: map<string, string>, key: string)
    requires key in LabelKeys
    ensures NoDevice(info) ==> LabelsFor(info)[key] == "-"
    ensures key !in info ==> LabelsFor(info)[key] == "-"
    ensures !NoDevice(info) && SlotKey in info && key == SlotKey ==>
              LabelsFor(info)[key] == (if info[SlotKey] == [] then "-" else Upper(info[SlotKey]))
    ensures LabelsFor(info)[key] != []
  {
  }

  lemma {:induction false} DisplayUpToAt(info: map<string, string>, n: nat, key: string)
    requires n <= |PrimaryKeys|
    ensures key in DisplayUpTo(info, n) <==> key in PrimaryKeys[..n] && key in info && key in LabelKeys
    ensures key in DisplayUpTo(info, n) ==> DisplayUpTo(info, n)[key] == OrDash(Transform(key, info[key]))
  {
    if n > 0 {
      DisplayUpToAt(info, n - 1, key);
      PrefixSnoc(PrimaryKeys, n - 1);
      var k := PrimaryKeys[n - 1];
      var d := DisplayUpTo(info, n - 1);
      assert key in PrimaryKeys[..n] <==> key in PrimaryKeys[..n - 1] || key == k;
      if k in info && k in LabelKeys {
        assert DisplayUpTo(info, n) == d[k := OrDash(Transform(k, info[k]))];
      } else {
        assert DisplayUpTo(info, n) == d;
      }
    }
  }

  /** The cards filled by the loop are the cards `LabelsFor` describes. */
  lemma DisplayIsLabels(info: map<string, string>)
    requires !NoDevice(info)
    ensures (map key | key in LabelKeys :: Get(DisplayUpTo(info, |PrimaryKeys|), key, "-")) == LabelsFor(info)
  {
    forall key | key in LabelKeys
      ensures Get(DisplayUpTo(info, |PrimaryKeys|), key, "-") == LabelText(info, key)
    {
      DisplayUpToAt(info, |PrimaryKeys|, key);
      PrefixAll(PrimaryKeys);
    }
  }
}
