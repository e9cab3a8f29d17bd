/** The restore scripts the backup writes next to the images: `flash_all.bat` and
    `flash_all.sh`, one line per element, each flashing every backed-up partition from
    its image in backup order. */
module RestoreScripts {
  import opened Text

  /** The two lines that flash one partition in the Windows script. */
  function BatLines(p: string): seq<string>
  {
    ["echo Flashing " + p + "...", FlashLine(p)]
  }

  /** The two lines that flash one partition in the shell script. */
  function ShLines(p: string): seq<string>
  {
    ["echo 'Flashing " + p + "...'", FlashLine(p)]
  }

  /** `fastboot flash <p> <p>.img`. */
  function FlashLine(p: string): string
  {
    "fastboot flash " + p + " " + p + ".img"
  }

  const BatHeader: seq<string> := ["@echo off", "echo Waiting for device in fastboot...", "fastboot devices", "pause"]
  const BatFooter: seq<string> := ["echo Done!", "pause"]
  const ShHeader: seq<string> := ["#!/bin/bash", "echo 'Waiting for device...'", "fastboot devices"]
  const ShFooter: seq<string> := ["echo 'Done!'"]

  /** The per-partition lines of the Windows script, in order. */
  function BatBody(parts: seq<string>): seq<string>
  {
    if parts == [] then [] else BatBody(parts[..|parts| - 1]) + BatLines(parts[|parts| - 1])
  }

  /** The per-partition lines of the shell script, in order. */
  function ShBody(parts: seq<string>): seq<string>
  {
    if parts == [] then [] else ShBody(parts[..|parts| - 1]) + ShLines(parts[|parts| - 1])
  }

  function BatScript(parts: seq<string>): seq<string>
  {
    BatHeader + BatBody(parts) + BatFooter
  }

  function ShScript(parts: seq<string>): seq<string>
  {
    ShHeader + ShBody(parts) + ShFooter
  }

  /** The script writer: both files' lines, built by one loop over the partitions each. */
  method WriteScripts(parts: seq<string>) returns (bat: seq<string>, sh: seq<string>)
    ensures bat == BatScript(parts) && sh == ShScript(parts)
  {
    bat := BatHeader;
    for i := 0 to |parts|
      invariant bat == BatHeader + BatBody(parts[..i])
    {
      assert parts[..i + 1][..i] == parts[..i];
      bat := bat + BatLines(parts[i]);
    }
    bat := bat + BatFooter;
    sh := ShHeader;
    for i := 0 to |parts|
      invariant sh == ShHeader + ShBody(parts[..i])
    {
      assert parts[..i + 1][..i] == parts[..i];
      sh := sh + ShLines(parts[i]);
    }
    sh := sh + ShFooter;
    assert parts[..|parts|] == parts;
  }

  // ---------------------------------------------------------------- reading a script back

  const FlashPrefix: string := "fastboot flash "

  /** The partitions a script flashes: for each `fastboot flash` line, its first argument. */
  function FlashedPartitions(lines: seq<string>): seq<string>
  {
    if lines == [] then []
    else
      var rest := FlashedPartitions(lines[1..]);
      if StartsWith(lines[0], FlashPrefix) then [BeforeChar(lines[0][|FlashPrefix|..], ' ')] + rest else rest
  }

  lemma {:induction false} FlashedPartitionsConcat(a: seq<string>, b: seq<string>)
    ensures FlashedPartitions(a + b) == FlashedPartitions(a) + FlashedPartitions(b)
    decreases |a|
  {
    if a != [] {
      assert (a + b)[0] == a[0] && (a + b)[1..] == a[1..] + b;
      FlashedPartitionsConcat(a[1..], b);
    } else {
      assert a + b == b;
    }
  }

  /** A flash line gives back its partition, when the name has no space. */
  lemma FlashLineRead(p: string)
    requires ' ' !in p
    ensures StartsWith(FlashLine(p), FlashPrefix)
    ensures BeforeChar(FlashLine(p)[|FlashPrefix|..], ' ') == p
  {
    var line := FlashLine(p);
    assert line == FlashPrefix + (p + [' '] + (p + ".img"));
    StartsWithConcat(FlashPrefix, p + [' '] + (p + ".img"));
    assert line[|FlashPrefix|..] == p + [' '] + (p + ".img");
    BeforeCharOfConcat(p, ' ', p + ".img");
  }

  /** A line that differs from the flash prefix at some position is not a flash line. */
  lemma NotFlashAt(line: string, k: nat)
    requires k < |FlashPrefix| && (k >= |line| || line[k] != FlashPrefix[k])
    ensures !StartsWith(line, FlashPrefix)
  {
  }

  /** Lines none of which is a flash line name no partition. */
  lemma {:induction false} NoFlashLines(lines: seq<string>)
    requires forall i :: 0 <= i < |lines| ==> !StartsWith(lines[i], FlashPrefix)
    ensures FlashedPartitions(lines) == []
    decreases |lines|
  {
    if lines != [] {
      NoFlashLines(lines[1..]);
    }
  }

  /** The two lines for `p` name `p`, whichever script they belong to. */
  lemma EchoThenFlash(echo: string, p: string)
    requires echo != [] && echo[0] == 'e' && ' ' !in p
    ensures FlashedPartitions([echo, FlashLine(p)]) == [p]
  {
    NotFlashAt(echo, 0);
    FlashLineRead(p);
    var f := FlashLine(p);
    assert [echo, f][1..] == [f];
    assert [f][1..] == [];
    assert FlashedPartitions([f]) == [p] + FlashedPartitions([]);
    assert FlashedPartitions([echo, f]) == FlashedPartitions([f]);
  }

  lemma BatLinesRead(p: string)
    requires ' ' !in p
    ensures FlashedPartitions(BatLines(p)) == [p]
  {
    var echo := "echo Flashing " + p + "...";
    assert echo[0] == 'e';
    EchoThenFlash(echo, p);
  }

  lemma ShLinesRead(p: string)
    requires ' ' !in p
    ensures FlashedPartitions(ShLines(p)) == [p]
  {
    var echo := "echo 'Flashing " + p + "...'";
    assert echo[0] == 'e';
    EchoThenFlash(echo, p);
  }

  lemma {:induction false} BatBodyRead(parts: seq<string>)
    requires forall i :: 0 <= i < |parts| ==> ' ' !in parts[i]
    ensures FlashedPartitions(BatBody(parts)) == parts
    decreases |parts|
  {
    if parts != [] {
      var p := parts[|parts| - 1];
      var init := parts[..|parts| - 1];
      BatBodyRead(init);
      FlashedPartitionsConcat(BatBody(init), BatLines(p));
      BatLinesRead(p);
      assert init + [p] == parts;
    }
  }

  lemma {:induction false} ShBodyRead(parts: seq<string>)
    requires forall i :: 0 <= i < |parts| ==> ' ' !in parts[i]
    ensures FlashedPartitions(ShBody(parts)) == parts
    decreases |parts|
  {
    if parts != [] {
      var p := parts[|parts| - 1];
      var init := parts[..|parts| - 1];
      ShBodyRead(init);
      FlashedPartitionsConcat(ShBody(init), ShLines(p));
      ShLinesRead(p);
      assert init + [p] == parts;
    }
  }

  lemma FixedLinesNotFlash()
    ensures FlashedPartitions(BatHeader) == [] && FlashedPartitions(BatFooter) == []
    ensures FlashedPartitions(ShHeader) == [] && FlashedPartitions(ShFooter) == []
  {
    NotFlashAt(BatHeader[0], 0);
    NotFlashAt(BatHeader[1], 0);
    NotFlashAt(BatHeader[2], 9);
    NotFlashAt(BatHeader[3], 0);
    NoFlashLines(BatHeader);
    NotFlashAt(BatFooter[0], 0);
    NotFlashAt(BatFooter[1], 0);
    NoFlashLines(BatFooter);
    NotFlashAt(ShHeader[0], 0);
    NotFlashAt(ShHeader[1], 0);
    NotFlashAt(ShHeader[2], 9);
    NoFlashLines(ShHeader);
    NotFlashAt(ShFooter[0], 0);
    NoFlashLines(ShFooter);
  }

  /** Each script flashes exactly the backed-up partitions, once each, in backup order,
      after a `fastboot devices` line. */
  lemma ScriptsFlashExactly(parts: seq<string>)
    requires forall i :: 0 <= i < |parts| ==> ' ' !in parts[i]
    ensures FlashedPartitions(BatScript(parts)) == parts
    ensures FlashedPartitions(ShScript(parts)) == parts
    ensures BatScript(parts)[2] == "fastboot devices" && ShScript(parts)[2] == "fastboot devices"
  {
    FixedLinesNotFlash();
    BatBodyRead(parts);
    ShBodyRead(parts);
    FlashedPartitionsConcat(BatHeader, BatBody(parts));
    FlashedPartitionsConcat(BatHeader + BatBody(parts), BatFooter);
    FlashedPartitionsConcat(ShHeader, ShBody(parts));
    FlashedPartitionsConcat(ShHeader + ShBody(parts), ShFooter);
  }
}
