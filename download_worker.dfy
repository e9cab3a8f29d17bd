/** The firmware download worker (`DownloadWorker`): the choice between a segmented and
    a plain download, the split of the byte range into segments, the zip check after a
    segmented download, and the chunk loop of the plain download with its progress and
    cancellation. The network replies, the segment threads' outcome and the zip test are
    parameters. */
module DownloadWorker {
  import opened Wrappers
  import opened Text
  import opened HostPath
  import opened Seqs

  /** Number of segments (`self.threads`). */
  const Threads: nat := 4
  /** Largest file size whose zip is tested (`_verify_zip_threshold`). */
  const VerifyZipThreshold: int := 600 * 1024 * 1024
  /** The result text of a cancelled download. */
  const Canceled: string := "CANCELED"

  /** A signal the worker emits. */
  datatype Event = Progress(percent: int) | Finished(result: string) | Failed(message: string)

  /** The reply to the HEAD request. */
  datatype HeadReply = HeadFailed(message: string) | Head(contentLength: int, acceptRanges: string)

  /** How the segment threads ended: all done, or stopped (cancelled, or a segment
      failed, which sets the same flag). */
  datatype Segments = Completed | Stopped

  /** The reply to the plain GET: its length header, the lengths of the chunks received
      and written, and the message of the exception raised after them, while receiving
      or writing the next chunk (a dropped connection, a full disk), if one is. */
  datatype GetReply = GetFailed(message: string) | Body(contentLength: int, chunks: seq<nat>, failure: Option<string>)

  // ---------------------------------------------------------------- the plan

  /** Sources that are always downloaded plainly. */
  predicate ForceSimple(url: string)
  {
    Contains(Lower(url), "kcnb.qutama.de") || EndsWith(Lower(url), ".7z")
  }

  /** A segmented download is tried for a server that reports a length and byte
      ranges. */
  predicate UseSegments(url: string, total: int, acceptRanges: string)
  {
    !ForceSimple(url) && total > 0 && Lower(acceptRanges) == "bytes" && Threads > 1
  }

  /** `_should_verify_zip`: a `.zip` file (any case) no larger than the threshold; `size`
      is `None` when the size cannot be read. */
  predicate ShouldVerifyZip(dest: string, size: Option<int>)
  {
    Lower(Extension(dest)) == ".zip" && size.Some? && size.value <= VerifyZipThreshold
  }

  // ---------------------------------------------------------------- the byte ranges

  /** The `threads` inclusive byte ranges of `_download_with_threads`: equal segments of
      `total / threads` bytes, the last one running to the end. */
  function Ranges(total: int, threads: nat): (r: seq<(int, int)>)
    requires threads > 0
    ensures |r| == threads
  {
    var seg := total / threads;
    seq(threads, i requires 0 <= i < threads => (i * seg, if i == threads - 1 then total - 1 else (i + 1) * seg - 1))
  }

  /** The range-building loop. */
  method SplitRanges(total: int, threads: nat) returns (ranges: seq<(int, int)>)
    requires threads > 0
    ensures ranges == Ranges(total, threads)
  {
    var seg := total / threads;
    ranges := [];
    var start := 0;
    for i := 0 to threads
      invariant |ranges| == i && (i < threads ==> start == i * seg)
      invariant forall j :: 0 <= j < i ==> ranges[j] == Ranges(total, threads)[j]
    {
      var end := if i == threads - 1 then total - 1 else start + seg - 1;
      assert (i + 1) * seg == i * seg + seg;
      ranges := ranges + [(start, end)];
      start := end + 1;
    }
  }

  /** The ranges start at 0, end at the last byte, follow one another without gap or
      overlap, and all but the last are `total / threads` long. */
  lemma RangesContiguous(total: int, threads: nat)
    requires threads > 0
    ensures var r := Ranges(total, threads);
            r[0].0 == 0 && r[threads - 1].1 == total - 1
            && (forall i :: 0 < i < threads ==> r[i].0 == r[i - 1].1 + 1)
            && (forall i :: 0 <= i < threads - 1 ==> r[i].1 - r[i].0 + 1 == total / threads)
  {
    var r := Ranges(total, threads);
    var seg := total / threads;
    forall i | 0 < i < threads
      ensures r[i].0 == r[i - 1].1 + 1
    {
      assert r[i - 1].1 == i * seg - 1;
    }
    forall i | 0 <= i < threads - 1
      ensures r[i].1 - r[i].0 + 1 == seg
    {
      assert (i + 1) * seg == i * seg + seg;
    }
  }

  /** Every byte of the file lies in exactly one range. */
  lemma RangesCover(total: int, threads: nat, b: int)
    requires threads > 0 && 0 <= b < total
    ensures exists i :: 0 <= i < threads && Ranges(total, threads)[i].0 <= b <= Ranges(total, threads)[i].1
    ensures forall i, j :: (0 <= i < threads && 0 <= j < threads
                            && Ranges(total, threads)[i].0 <= b <= Ranges(total, threads)[i].1
                            && Ranges(total, threads)[j].0 <= b <= Ranges(total, threads)[j].1) ==> i == j
  {
    var r := Ranges(total, threads);
    var seg := total / threads;
    assert seg >= 0;
    var k := if seg == 0 then threads - 1 else Min(b / seg, threads - 1);
    InRange(total, threads, b, k);
    forall i, j | 0 <= i < threads && 0 <= j < threads && r[i].0 <= b <= r[i].1 && r[j].0 <= b <= r[j].1
      ensures i == j
    {
      if i < j { RangesOrdered(total, threads, i, j); }
      if j < i { RangesOrdered(total, threads, j, i); }
    }
  }

  lemma InRange(total: int, threads: nat, b: int, k: nat)
    requires threads > 0 && 0 <= b < total
    requires k == if total / threads == 0 then threads - 1 else Min(b / (total / threads), threads - 1)
    ensures k < threads && Ranges(total, threads)[k].0 <= b <= Ranges(total, threads)[k].1
  {
    var seg := total / threads;
    DivTimes(total, threads);
    var r := Ranges(total, threads)[k];
    assert r == (k * seg, if k == threads - 1 then total - 1 else (k + 1) * seg - 1);
    if seg == 0 {
      assert k == threads - 1 && r.0 == 0;
    } else {
      SegmentHolds(total, threads, seg, b, k);
    }
  }

  lemma DivTimes(total: int, threads: nat)
    requires threads > 0 && total >= 0
    ensures 0 <= total / threads && (total / threads) * threads <= total
  {
  }

  /** The arithmetic of `InRange` for segments of `seg > 0` bytes. */
  lemma SegmentHolds(total: int, threads: nat, seg: int, b: int, k: nat)
    requires threads > 0 && 0 <= b < total && seg > 0 && seg * threads <= total
    requires k == Min(b / seg, threads - 1)
    ensures k < threads && k * seg <= b
    ensures b <= if k == threads - 1 then total - 1 else (k + 1) * seg - 1
  {
    var q := b / seg;
    assert seg * q <= b < seg * q + seg;
    MulMono(seg, k, q);
    if k == q && k < threads - 1 {
      assert (k + 1) * seg - 1 == seg * q + seg - 1;
    }
  }

  /** A range ends before any later one starts. */
  lemma RangesOrdered(total: int, threads: nat, i: nat, j: nat)
    requires i < j < threads && total >= 0
    ensures Ranges(total, threads)[i].1 < Ranges(total, threads)[j].0
  {
    var seg := total / threads;
    assert seg >= 0;
    MulMono(seg, i + 1, j);
    assert Ranges(total, threads)[i].1 == (i + 1) * seg - 1;
  }

  lemma MulMono(d: int, x: int, y: int)
    requires d >= 0 && x <= y
    ensures d * x <= d * y
  {
    assert d * y - d * x == d * (y - x);
  }

  // ---------------------------------------------------------------- the plain download

  /** Bytes received over the first chunks. */
  function Sum(chunks: seq<nat>): nat
  {
    if chunks == [] then 0 else Sum(chunks[..|chunks| - 1]) + chunks[|chunks| - 1]
  }

  /** The progress shown while the transfer runs: capped at 99. */
  function Percent(downloaded: nat, total: int): (p: int)
    requires total > 0
    ensures 0 <= p <= 99
  {
    if downloaded * 100 / total < 99 then downloaded * 100 / total else 99
  }

  /** The progress signals of the first `n` chunks: one per non-empty chunk, when the
      length is known. */
  function ProgressUpTo(total: int, chunks: seq<nat>, n: nat): seq<Event>
    requires n <= |chunks|
  {
    if n == 0 then []
    else ProgressUpTo(total, chunks, n - 1)
         + (if chunks[n - 1] > 0 && total > 0 then [Progress(Percent(Sum(chunks[..n]), total))] else [])
  }

  /** The chunk loop: cancelled when the flag is seen at chunk `cancelAt` (never, if there
      are fewer chunks), failed with the exception's message after the chunks when the
      stream breaks, otherwise 100 and the destination. */
  function TransferEvents(dest: string, total: int, chunks: seq<nat>, failure: Option<string>, cancelAt: nat): seq<Event>
  {
    if cancelAt < |chunks| then ProgressUpTo(total, chunks, cancelAt) + [Finished(Canceled)]
    else if failure.Some? then ProgressUpTo(total, chunks, |chunks|) + [Failed(failure.value)]
    else ProgressUpTo(total, chunks, |chunks|) + [Progress(100), Finished(dest)]
  }

  /** The chunk loop of `run`. */
  method Transfer(dest: string, total: int, chunks: seq<nat>, failure: Option<string>, cancelAt: nat)
    returns (events: seq<Event>)
    ensures events == TransferEvents(dest, total, chunks, failure, cancelAt)
  {
    events := [];
    var downloaded: nat := 0;
    for k := 0 to |chunks|
      invariant k <= cancelAt || cancelAt >= |chunks|
      invariant events == ProgressUpTo(total, chunks, k) && downloaded == Sum(chunks[..k])
    {
      if k == cancelAt {
        events := events + [Finished(Canceled)];
        return;
      }
      PrefixSnoc(chunks, k);
      assert chunks[..k + 1][..k] == chunks[..k];
      if chunks[k] > 0 {
        downloaded := downloaded + chunks[k];
        if total > 0 {
          events := events + [Progress(Percent(downloaded, total))];
        }
      }
    }
    if failure.Some? {
      events := events + [Failed(failure.value)];
      return;
    }
    events := events + [Progress(100), Finished(dest)];
  }

  // ---------------------------------------------------------------- the whole run

  /** `run`: a forced-plain source skips the HEAD request; creating the destination's
      folder may fail (`dirError`); a segmented download that completes (and, for a small
      zip, tests intact) ends the run; one whose zip is broken is removed and downloaded
      again plainly; one that was stopped reports cancellation and leaves the flag set for
      the plain download that follows. */
  function RunEvents(url: string, dest: string, head: HeadReply, dirError: Option<string>, segments: Segments,
                     size: Option<int>, intact: bool, get: GetReply, cancelAt: nat): seq<Event>
  {
    if !ForceSimple(url) && head.HeadFailed? then [Failed(head.message)]
    else if dirError.Some? then [Failed(dirError.value)]
    else
      var segmented := !ForceSimple(url) && UseSegments(url, head.contentLength, head.acceptRanges);
      if segmented && segments.Completed? && !(ShouldVerifyZip(dest, size) && !intact) then
        [Progress(100), Finished(dest)]
      else
        var stopped := segmented && segments.Stopped?;
        (if stopped then [Finished(Canceled)] else []) + PlainEvents(dest, get, if stopped then 0 else cancelAt)
  }

  /** The plain download's events, from the reply to its GET. */
  function PlainEvents(dest: string, get: GetReply, cancelAt: nat): seq<Event>
  {
    match get
    case GetFailed(m) => [Failed(m)]
    case Body(total, chunks, failure) => TransferEvents(dest, total, chunks, failure, cancelAt)
  }

  // ---------------------------------------------------------------- properties

  /** A forced-plain source never depends on the HEAD reply or on segments. */
  lemma ForcedIgnoresHead(url: string, dest: string, h1: HeadReply, h2: HeadReply, dirError: Option<string>,
                          s1: Segments, s2: Segments, size: Option<int>, intact: bool, get: GetReply, cancelAt: nat)
    requires ForceSimple(url)
    ensures RunEvents(url, dest, h1, dirError, s1, size, intact, get, cancelAt)
         == RunEvents(url, dest, h2, dirError, s2, size, intact, get, cancelAt)
  {
  }

  /** A failed HEAD request, and then a folder that cannot be created, end the run with
      their message before anything is downloaded. */
  lemma EarlyFailures(url: string, dest: string, head: HeadReply, dirError: Option<string>, segments: Segments,
                      size: Option<int>, intact: bool, get: GetReply, cancelAt: nat)
    ensures !ForceSimple(url) && head.HeadFailed? ==>
              RunEvents(url, dest, head, dirError, segments, size, intact, get, cancelAt) == [Failed(head.message)]
    ensures (ForceSimple(url) || head.Head?) && dirError.Some? ==>
              RunEvents(url, dest, head, dirError, segments, size, intact, get, cancelAt) == [Failed(dirError.value)]
  {
  }

  /** A `.7z` address is always downloaded plainly, whatever its case. */
  lemma SevenZipForced(url: string)
    requires EndsWith(Lower(url), ".7z")
    ensures ForceSimple(url) && !UseSegments(url, 1, "bytes")
  {
  }

  /** A completed segmented download that needs no zip test, or passes it, finishes at
      once without a plain download. */
  lemma SegmentedDone(url: string, dest: string, total: int, ranges: string, size: Option<int>,
                      intact: bool, get: GetReply, cancelAt: nat)
    requires UseSegments(url, total, ranges)
    requires !ShouldVerifyZip(dest, size) || intact
    ensures RunEvents(url, dest, Head(total, ranges), None, Completed, size, intact, get, cancelAt)
         == [Progress(100), Finished(dest)]
  {
  }

  /** A broken small zip falls through to the plain download. */
  lemma BrokenZipRetried(url: string, dest: string, total: int, ranges: string, size: Option<int>,
                         get: GetReply, cancelAt: nat)
    requires UseSegments(url, total, ranges) && ShouldVerifyZip(dest, size)
    ensures RunEvents(url, dest, Head(total, ranges), None, Completed, size, false, get, cancelAt)
         == match get
            case GetFailed(m) => [Failed(m)]
            case Body(t, chunks, failure) => TransferEvents(dest, t, chunks, failure, cancelAt)
  {
    var head := Head(total, ranges);
    assert !head.HeadFailed? && head.contentLength == total && head.acceptRanges == ranges;
    assert [] + PlainEvents(dest, get, cancelAt) == PlainEvents(dest, get, cancelAt);
  }

  /** Only a `.zip` name of at most 600 MiB with a readable size is tested. */
  lemma ZipGate(dest: string, size: Option<int>)
    ensures ShouldVerifyZip(dest, size) ==> size.Some? && size.value <= 629145600
    ensures Lower(Extension(dest)) != ".zip" ==> !ShouldVerifyZip(dest, size)
  {
  }

  /** A stopped segmented download reports cancellation, and the plain download after it
      sees the flag at its first chunk: no data is transferred and no 100 is shown. */
  lemma StoppedStaysCanceled(url: string, dest: string, total: int, ranges: string, size: Option<int>,
                             intact: bool, t: int, chunks: seq<nat>, failure: Option<string>, cancelAt: nat)
    requires UseSegments(url, total, ranges) && chunks != []
    ensures RunEvents(url, dest, Head(total, ranges), None, Stopped, size, intact, Body(t, chunks, failure), cancelAt)
         == [Finished(Canceled), Finished(Canceled)]
  {
    assert ProgressUpTo(t, chunks, 0) == [];
  }

  /** Each progress value shown during the transfer is in 0..99, and none is 100. */
  lemma {:induction false} ProgressCapped(total: int, chunks: seq<nat>, n: nat)
    requires n <= |chunks|
    ensures forall e :: e in ProgressUpTo(total, chunks, n) ==> e.Progress? && 0 <= e.percent <= 99
  {
    if n > 0 {
      ProgressCapped(total, chunks, n - 1);
    }
  }

  /** Progress never goes backwards: every value shown is at most the one for all bytes
      received so far, which only grows. */
  lemma {:induction false} ProgressBelowCurrent(total: int, chunks: seq<nat>, n: nat)
    requires n <= |chunks| && total > 0
    ensures forall e :: e in ProgressUpTo(total, chunks, n) ==> e.Progress? && e.percent <= Percent(Sum(chunks[..n]), total)
  {
    if n > 0 {
      ProgressBelowCurrent(total, chunks, n - 1);
      SumPrefixGrows(chunks, n - 1);
      PercentMono(Sum(chunks[..n - 1]), Sum(chunks[..n]), total);
    }
  }

  /** The progress values in `p` never decrease. */
  predicate Ascending(p: seq<Event>)
  {
    forall i, j :: 0 <= i < j < |p| ==> p[i].Progress? && p[j].Progress? && p[i].percent <= p[j].percent
  }

  lemma {:induction false} ProgressSorted(total: int, chunks: seq<nat>, n: nat)
    requires n <= |chunks| && total > 0
    ensures Ascending(ProgressUpTo(total, chunks, n))
  {
    if n > 0 {
      var before := ProgressUpTo(total, chunks, n - 1);
      ProgressSorted(total, chunks, n - 1);
      ProgressBelowCurrent(total, chunks, n - 1);
      SumPrefixGrows(chunks, n - 1);
      PercentMono(Sum(chunks[..n - 1]), Sum(chunks[..n]), total);
      if chunks[n - 1] > 0 {
        AscendingSnoc(before, Percent(Sum(chunks[..n]), total));
      }
    }
  }

  /** A value at least every earlier one keeps the values ascending. */
  lemma AscendingSnoc(p: seq<Event>, x: int)
    requires Ascending(p)
    requires forall e :: e in p ==> e.Progress? && e.percent <= x
    ensures Ascending(p + [Progress(x)])
  {
    var q := p + [Progress(x)];
    forall i, j | 0 <= i < j < |q|
      ensures q[i].Progress? && q[j].Progress? && q[i].percent <= q[j].percent
    {
      assert q[i] == p[i];
      assert p[i] in p;
    }
  }

  lemma SumPrefixGrows(chunks: seq<nat>, k: nat)
    requires k < |chunks|
    ensures Sum(chunks[..k + 1]) == Sum(chunks[..k]) + chunks[k]
  {
    PrefixSnoc(chunks, k);
    assert chunks[..k + 1][..k] == chunks[..k];
  }

  lemma PercentMono(a: nat, b: nat, total: int)
    requires a <= b && total > 0
    ensures Percent(a, total) <= Percent(b, total)
  {
    DivMono(a * 100, b * 100, total);
  }

  lemma DivMono(a: int, b: int, d: int)
    requires 0 <= a <= b && d > 0
    ensures a / d <= b / d
  {
    var qa, qb := a / d, b / d;
    assert d * qa <= a;
    assert b < d * qb + d == d * (qb + 1);
    MulStrict(d, qa, qb + 1);
  }

  lemma MulStrict(d: int, x: int, y: int)
    requires d > 0 && d * x < d * y
    ensures x < y
  {
    assert d * y - d * x == d * (y - x);
  }

  /** A completed transfer ends with 100 and the destination; a cancelled one ends with
      the cancellation text, and a broken one with its error after the progress of the
      chunks already written; neither of these shows 100. */
  lemma TransferEnds(dest: string, total: int, chunks: seq<nat>, failure: Option<string>, cancelAt: nat)
    ensures var ev := TransferEvents(dest, total, chunks, failure, cancelAt);
            cancelAt >= |chunks| && failure.None? ==> ev[|ev| - 2..] == [Progress(100), Finished(dest)]
    ensures var ev := TransferEvents(dest, total, chunks, failure, cancelAt);
            cancelAt < |chunks| ==> ev[|ev| - 1] == Finished(Canceled) && Progress(100) !in ev
    ensures var ev := TransferEvents(dest, total, chunks, failure, cancelAt);
            cancelAt >= |chunks| && failure.Some? ==>
              ev == ProgressUpTo(total, chunks, |chunks|) + [Failed(failure.value)] && Progress(100) !in ev
  {
    if cancelAt < |chunks| {
      ProgressCapped(total, chunks, cancelAt);
    } else if failure.Some? {
      ProgressCapped(total, chunks, |chunks|);
    }
  }
}
