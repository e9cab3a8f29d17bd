/** The registration lookup (`check_registration`): the registry is a text file in which
    a serial stands on a line of its own, with `# <qq> <name...>` on the nearest non-empty
    line above it (or, failing that, below it). The search runs from the bottom, so the
    last occurrence of a serial decides. The registry text is a parameter: `None` stands
    for a failed fetch. */
module Registration {
  import opened Wrappers
  import opened Text
  import opened Seqs

  /** The byte order mark dropped from the start of a line. */
  const Bom: char := '\U{FEFF}'

  /** The dictionary `check_registration` returns. */
  datatype Entry = Entry(registered: bool, qq: Option<string>, name: Option<string>, id: string)

  /** The answer before (or without) a match. */
  function Unregistered(serial: string): Entry
  {
    Entry(false, None, None, serial)
  }

  // ---------------------------------------------------------------- lines

  /** A registry line as compared: stripped, then without leading byte order marks. */
  function Clean(line: string): string
  {
    LStripChar(Strip(line), Bom)
  }

  function CleanLines(raw: seq<string>): (r: seq<string>)
    ensures |r| == |raw|
  {
    Map(raw, Clean)
  }

  /** The qq number and name on an info line: leading `#`s dropped, then the first word
      and the other words joined by single spaces; nothing for a line without words. */
  function InfoOf(line: string): (r: Option<(string, string)>)
    ensures r.Some? ==> r.value.0 != [] && NoSpace(r.value.0)
  {
    var t := if line != [] && line[0] == '#' then Strip(LStripChar(line, '#')) else line;
    var parts := Split(t);
    if parts == [] then None else Some((parts[0], Join(" ", parts[1..])))
  }

  // ---------------------------------------------------------------- the search

  /** The last index below `n` whose line is the serial. */
  function LastMatch(lines: seq<string>, serial: string, n: nat): (r: Option<nat>)
    requires n <= |lines|
    ensures r.Some? ==> r.value < n && lines[r.value] == serial
                        && forall j :: r.value < j < n ==> lines[j] != serial
    ensures r.None? ==> forall j :: 0 <= j < n ==> lines[j] != serial
  {
    if n == 0 then None
    else if lines[n - 1] == serial then Some(n - 1)
    else LastMatch(lines, serial, n - 1)
  }

  /** The nearest non-empty line at or above `k`. */
  function PrevFrom(lines: seq<string>, k: int): (r: Option<nat>)
    requires -1 <= k < |lines|
    ensures r.Some? ==> r.value <= k && lines[r.value] != []
                        && forall j :: r.value < j <= k ==> lines[j] == []
    ensures r.None? ==> forall j :: 0 <= j <= k ==> lines[j] == []
    decreases k + 1
  {
    if k < 0 then None
    else if lines[k] != [] then Some(k)
    else PrevFrom(lines, k - 1)
  }

  /** The nearest non-empty line at or below `j`. */
  function NextFrom(lines: seq<string>, j: nat): (r: Option<nat>)
    requires j <= |lines|
    ensures r.Some? ==> j <= r.value < |lines| && lines[r.value] != []
                        && forall m :: j <= m < r.value ==> lines[m] == []
    ensures r.None? ==> forall m :: j <= m < |lines| ==> lines[m] == []
    decreases |lines| - j
  {
    if j == |lines| then None
    else if lines[j] != [] then Some(j)
    else NextFrom(lines, j + 1)
  }

  /** The info of the nearest non-empty line at `at`, if there is one. */
  function InfoAt(lines: seq<string>, at: Option<nat>): Option<(string, string)>
  {
    if at.Some? && at.value < |lines| then InfoOf(lines[at.value]) else None
  }

  /** The info for the serial on line `i`: above first, then below. */
  function InfoNear(lines: seq<string>, i: nat): Option<(string, string)>
    requires i < |lines|
  {
    var above := InfoAt(lines, PrevFrom(lines, i - 1));
    if above.Some? then above else InfoAt(lines, NextFrom(lines, i + 1))
  }

  /** A matched serial, with its info if any was found. */
  function Found(serial: string, info: Option<(string, string)>): (r: Entry)
    ensures r.registered && r.id == serial
  {
    match info
    case Some((qq, name)) => Entry(true, Some(qq), Some(name), serial)
    case None => Entry(true, None, None, serial)
  }

  /** The lookup over the cleaned registry lines. */
  function LookupLines(serial: string, lines: seq<string>): Entry
  {
    match LastMatch(lines, serial, |lines|)
    case None => Unregistered(serial)
    case Some(i) => Found(serial, InfoNear(lines, i))
  }

  /** `check_registration`, with the registry text (or its absence) as a parameter. */
  function Lookup(serial: string, registry: Option<string>): (r: Entry)
    ensures r.id == serial
  {
    if serial == [] || registry.None? then Unregistered(serial)
    else LookupLines(serial, CleanLines(SplitLines(registry.value)))
  }

  // ---------------------------------------------------------------- the loops

  /** What `check_registration` does once line `i` is the serial. */
  method Matched(lines: seq<string>, i: nat, serial: string) returns (r: Entry)
    requires i < |lines|
    ensures r == Found(serial, InfoNear(lines, i))
  {
    var above := ScanAbove(lines, i);
    if above.Some? {
      NearAbove(lines, i, above);
      return Entry(true, Some(above.value.0), Some(above.value.1), serial);
    }
    var below := ScanBelow(lines, i);
    NearBelow(lines, i, below);
    if below.Some? {
      return Entry(true, Some(below.value.0), Some(below.value.1), serial);
    }
    return Entry(true, None, None, serial);
  }

  /** The backward loop from the line before `i`, skipping empty lines. */
  method ScanAbove(lines: seq<string>, i: nat) returns (above: Option<(string, string)>)
    requires i < |lines|
    ensures above == InfoAt(lines, PrevFrom(lines, i - 1))
  {
    var k := i - 1;
    while k >= 0 && lines[k] == []
      invariant -1 <= k < i
      invariant PrevFrom(lines, k) == PrevFrom(lines, i - 1)
      decreases k + 1
    {
      k := k - 1;
    }
    above := if k >= 0 then InfoOf(lines[k]) else None;
    InfoAbove(lines, i, k);
  }

  /** The forward loop from the line after `i`, skipping empty lines. */
  method ScanBelow(lines: seq<string>, i: nat) returns (below: Option<(string, string)>)
    requires i < |lines|
    ensures below == InfoAt(lines, NextFrom(lines, i + 1))
  {
    var j := i + 1;
    while j < |lines| && lines[j] == []
      invariant i + 1 <= j <= |lines|
      invariant NextFrom(lines, j) == NextFrom(lines, i + 1)
      decreases |lines| - j
    {
      j := j + 1;
    }
    below := if j < |lines| then InfoOf(lines[j]) else None;
    InfoBelow(lines, i, j);
  }

  lemma InfoAbove(lines: seq<string>, i: nat, k: int)
    requires -1 <= k < i < |lines|
    requires PrevFrom(lines, k) == PrevFrom(lines, i - 1) && (k >= 0 ==> lines[k] != [])
    ensures InfoAt(lines, PrevFrom(lines, i - 1)) == if k >= 0 then InfoOf(lines[k]) else None
  {
  }

  /** Info above wins. */
  lemma NearAbove(lines: seq<string>, i: nat, above: Option<(string, string)>)
    requires i < |lines| && InfoAt(lines, PrevFrom(lines, i - 1)) == above && above.Some?
    ensures InfoNear(lines, i) == above
  {
  }

  /** Nothing above: the info is what lies below. */
  lemma NearBelow(lines: seq<string>, i: nat, below: Option<(string, string)>)
    requires i < |lines| && InfoAt(lines, PrevFrom(lines, i - 1)).None?
    requires InfoAt(lines, NextFrom(lines, i + 1)) == below
    ensures InfoNear(lines, i) == below
  {
  }

  lemma InfoBelow(lines: seq<string>, i: nat, j: nat)
    requires i + 1 <= j <= |lines|
    requires NextFrom(lines, j) == NextFrom(lines, i + 1) && (j < |lines| ==> lines[j] != [])
    ensures InfoAt(lines, NextFrom(lines, i + 1)) == if j < |lines| then InfoOf(lines[j]) else None
  {
  }

  /** `check_registration`. */
  method CheckRegistration(serial: string, registry: Option<string>) returns (r: Entry)
    ensures r == Lookup(serial, registry)
  {
    r := Unregistered(serial);
    if serial == [] || registry.None? {
      return;
    }
    var lines := CleanLines(SplitLines(registry.value));
    LookupOfText(serial, registry.value);
    var i := |lines|;
    while i > 0
      invariant 0 <= i <= |lines|
      invariant LastMatch(lines, serial, i) == LastMatch(lines, serial, |lines|)
    {
      i := i - 1;
      if lines[i] == serial {
        r := Matched(lines, i, serial);
        LookupOfLast(serial, lines, i);
        return;
      }
    }
    LookupOfNone(serial, lines);
  }

  lemma LookupOfText(serial: string, text: string)
    requires serial != []
    ensures Lookup(serial, Some(text)) == LookupLines(serial, CleanLines(SplitLines(text)))
  {
  }

  lemma LookupOfLast(serial: string, lines: seq<string>, i: nat)
    requires i < |lines| && LastMatch(lines, serial, |lines|) == Some(i)
    ensures LookupLines(serial, lines) == Found(serial, InfoNear(lines, i))
  {
  }

  lemma LookupOfNone(serial: string, lines: seq<string>)
    requires LastMatch(lines, serial, |lines|) == None
    ensures LookupLines(serial, lines) == Unregistered(serial)
  {
  }

  // ---------------------------------------------------------------- properties

  /** Without a serial, or without the registry, nothing is registered. */
  lemma NoLookup(serial: string, registry: Option<string>)
    requires serial == [] || registry.None?
    ensures Lookup(serial, registry) == Entry(false, None, None, serial)
  {
  }

  /** A serial is registered exactly when some cleaned registry line equals it; qq and
      name are given together or not at all. */
  lemma RegisteredIff(serial: string, text: string)
    ensures var r := Lookup(serial, Some(text));
            r.registered <==> serial != [] && exists i :: 0 <= i < |SplitLines(text)| && Clean(SplitLines(text)[i]) == serial
    ensures var r := Lookup(serial, Some(text));
            r.qq.Some? == r.name.Some? && (r.qq.Some? ==> r.registered)
  {
    if serial != [] {
      var raw := SplitLines(text);
      var lines := CleanLines(raw);
      LookupOfText(serial, text);
      LinesRegisteredIff(serial, lines);
      if serial in lines {
        var i :| 0 <= i < |lines| && lines[i] == serial;
        MapAt(raw, Clean, i);
      }
      forall i | 0 <= i < |raw| && Clean(raw[i]) == serial
        ensures serial in lines
      {
        MapAt(raw, Clean, i);
      }
    }
  }

  /** Over the cleaned lines: registered exactly when a line is the serial. */
  lemma LinesRegisteredIff(serial: string, lines: seq<string>)
    ensures LookupLines(serial, lines).registered <==> serial in lines
    ensures var r := LookupLines(serial, lines);
            r.qq.Some? == r.name.Some? && (r.qq.Some? ==> r.registered)
  {
    var m := LastMatch(lines, serial, |lines|);
    if m.Some? {
      LookupOfLast(serial, lines, m.value);
    } else {
      LookupOfNone(serial, lines);
    }
  }

  /** The last line equal to the serial decides the answer. */
  lemma LastOccurrenceDecides(serial: string, lines: seq<string>, i: nat)
    requires i < |lines| && lines[i] == serial
    requires forall j :: i < j < |lines| ==> lines[j] != serial
    ensures LookupLines(serial, lines) == Found(serial, InfoNear(lines, i))
  {
    var m := LastMatch(lines, serial, |lines|);
    assert m.Some?;
    assert m.value == i;
  }

  /** The nearest non-empty line above the serial gives the info when it has any. */
  lemma AboveFirst(lines: seq<string>, i: nat, k: nat)
    requires k < i < |lines| && lines[k] != [] && forall j :: k < j < i ==> lines[j] == []
    requires InfoOf(lines[k]).Some?
    ensures InfoNear(lines, i) == InfoOf(lines[k])
  {
    var p := PrevFrom(lines, i - 1);
    assert p.Some?;
    assert p.value == k;
  }

  /** Otherwise the nearest non-empty line below it does. */
  lemma BelowOtherwise(lines: seq<string>, i: nat, j: nat)
    requires i < j < |lines| && lines[j] != [] && forall m :: i < m < j ==> lines[m] == []
    requires InfoAt(lines, PrevFrom(lines, i - 1)).None?
    ensures InfoNear(lines, i) == InfoOf(lines[j])
  {
    var n := NextFrom(lines, i + 1);
    assert n.Some?;
    assert n.value == j;
  }

  /** An info line reads back as its qq number and name. */
  lemma InfoLineRead(qq: string, words: seq<string>)
    requires qq != [] && NoSpace(qq) && qq[0] != '#'
    requires forall i :: 0 <= i < |words| ==> words[i] != [] && NoSpace(words[i])
    ensures InfoOf("#" + Join(" ", [qq] + words)) == Some((qq, Join(" ", words)))
  {
    var all := [qq] + words;
    HashLineFacts(qq, words);
    ConsParts(qq, words);
    InfoOfHashLine("#" + Join(" ", all), Join(" ", all), all);
  }

  lemma HashLineFacts(qq: string, words: seq<string>)
    requires qq != [] && NoSpace(qq) && qq[0] != '#'
    requires forall i :: 0 <= i < |words| ==> words[i] != [] && NoSpace(words[i])
    ensures var body := Join(" ", [qq] + words);
            Strip(LStripChar("#" + body, '#')) == body && Split(body) == [qq] + words
  {
    var all := [qq] + words;
    var body := Join(" ", all);
    assert forall i :: 0 <= i < |all| ==> all[i] != [] && NoSpace(all[i]);
    SplitJoinSpace(all);
    JoinEnds(all);
    LStripOneHash(body);
    StripOfTrimmed(body);
  }

  lemma ConsParts(qq: string, words: seq<string>)
    ensures ([qq] + words)[0] == qq && ([qq] + words)[1..] == words
  {
  }

  lemma InfoOfHashLine(line: string, body: string, parts: seq<string>)
    requires line != [] && line[0] == '#' && Strip(LStripChar(line, '#')) == body
    requires Split(body) == parts && parts != []
    ensures InfoOf(line) == Some((parts[0], Join(" ", parts[1..])))
  {
  }

  /** A join of words starts and ends with a word character. */
  lemma {:induction false} JoinEnds(words: seq<string>)
    requires words != [] && forall i :: 0 <= i < |words| ==> words[i] != [] && NoSpace(words[i])
    ensures var j := Join(" ", words);
            j != [] && j[0] == words[0][0] && !IsSpace(j[0]) && !IsSpace(j[|j| - 1])
    decreases |words|
  {
    if |words| >= 2 {
      JoinEnds(words[1..]);
      JoinSpaceCons(words);
      var rest := Join(" ", words[1..]);
      assert Join(" ", words)[|Join(" ", words)| - 1] == rest[|rest| - 1];
    }
  }

  /** `("#" + s).lstrip("#")` is `s` when `s` does not start with `#`. */
  lemma LStripOneHash(s: string)
    requires s != [] && s[0] != '#'
    ensures LStripChar("#" + s, '#') == s
  {
    assert ("#" + s)[1..] == s;
  }

  /** A registry entry: the info line, then the serial, with nothing equal to the serial
      below it, reads back as registered under that qq number and name. */
  lemma EntryFound(serial: string, before: seq<string>, qq: string, words: seq<string>, after: seq<string>)
    requires qq != [] && NoSpace(qq) && qq[0] != '#'
    requires forall i :: 0 <= i < |words| ==> words[i] != [] && NoSpace(words[i])
    requires serial !in after
    ensures LookupLines(serial, before + ["#" + Join(" ", [qq] + words), serial] + after)
         == Entry(true, Some(qq), Some(Join(" ", words)), serial)
  {
    var info := "#" + Join(" ", [qq] + words);
    var lines := before + [info, serial] + after;
    var i := |before| + 1;
    assert lines[i] == serial && lines[i - 1] == info;
    forall j | i < j < |lines|
      ensures lines[j] != serial
    {
      assert lines[j] == after[j - i - 1];
    }
    LastOccurrenceDecides(serial, lines, i);
    InfoLineRead(qq, words);
    AboveFirst(lines, i, i - 1);
  }

  /** A leading byte order mark is dropped before comparing. */
  lemma BomDropped(s: string)
    requires s != [] && Strip(s) == s && s[0] != Bom
    ensures Clean([Bom] + s) == s
  {
    var line := [Bom] + s;
    assert !IsSpace(Strip(s)[0]) && !IsSpace(Strip(s)[|s| - 1]);
    assert line[|line| - 1] == s[|s| - 1];
    StripOfTrimmed(line);
    assert line[1..] == s;
  }
}
