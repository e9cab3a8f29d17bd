/** What the two flashing procedures share: the child process they may hold, the stop
    flag another thread may raise, and the loop that echoes the child's output until it
    ends or the flag is seen. */
module FlashProcess {
  import opened Text
  import opened Seqs

  /** The `_process` field: no child, a running one, one a stop has terminated, or one
      that has exited with a code. */
  datatype Proc = NoProcess | Running | Terminated | Exited(code: int)

  /** The output loop reads `n` lines and gives up at the first one it reads with the
      stop flag set: `flag` is the flag on entry (it is never cleared), and another
      thread's `stop()` arrives just before line `stopAt` is checked (`stopAt >= n`: not
      during the loop). */
  predicate Cancelled(flag: bool, n: nat, stopAt: nat)
  {
    n > 0 && (flag || stopAt < n)
  }

  /** How many output lines the loop echoes before it ends. */
  function LinesSeen(flag: bool, n: nat, stopAt: nat): (m: nat)
    ensures m <= n
    ensures !Cancelled(flag, n, stopAt) ==> m == n
    ensures Cancelled(flag, n, stopAt) ==> m < n
  {
    if !Cancelled(flag, n, stopAt) then n else if flag then 0 else stopAt
  }

  predicate NonBlank(s: string)
  {
    s != []
  }

  /** The log entries the output lines give: each line stripped, blank ones dropped. */
  function Shown(lines: seq<string>): seq<string>
  {
    Filter(Map(lines, Strip), NonBlank)
  }

  /** A run whose child was started succeeds when it is not cancelled and the child
      exits with 0. */
  predicate RunSucceeds(flag: bool, n: nat, stopAt: nat, code: int)
  {
    !Cancelled(flag, n, stopAt) && code == 0
  }

  /** Echoing one more output line. */
  lemma ShownSnoc(lines: seq<string>, x: string)
    ensures Shown(lines + [x]) == Shown(lines) + (if Strip(x) == [] then [] else [Strip(x)])
  {
    MapSnoc(lines, x, Strip);
    FilterSnoc(Map(lines, Strip), Strip(x), NonBlank);
  }

  /** Each log entry is a non-blank output line, stripped, and the entries keep the
      order of the output. */
  lemma ShownLines(lines: seq<string>)
    ensures forall e :: e in Shown(lines) ==> e != [] && Strip(e) == e
    ensures forall e :: e in Shown(lines) ==> exists i :: 0 <= i < |lines| && e == Strip(lines[i])
    ensures IsSubsequence(Shown(lines), Map(lines, Strip))
  {
    var m := Map(lines, Strip);
    forall e | e in Shown(lines)
      ensures e != [] && Strip(e) == e
      ensures exists i :: 0 <= i < |lines| && e == Strip(lines[i])
    {
      assert e in m;
      var i :| 0 <= i < |m| && m[i] == e;
      MapAt(lines, Strip, i);
      StripIdempotent(lines[i]);
    }
    FilterIsSubsequence(m, NonBlank);
  }

  /** The stop flag is never cleared: once set, a run whose child prints anything is
      cancelled, whatever its exit code, and echoes nothing. */
  lemma StopIsSticky(n: nat, stopAt: nat, code: int)
    requires n > 0
    ensures !RunSucceeds(true, n, stopAt, code) && LinesSeen(true, n, stopAt) == 0
  {
  }

  /** Without a stop, the exit code alone decides and every line is echoed; a child
      that prints nothing is never cancelled. */
  lemma UnstoppedRun(flag: bool, n: nat, stopAt: nat, code: int)
    ensures (!flag && stopAt >= n) || n == 0 ==> RunSucceeds(flag, n, stopAt, code) == (code == 0)
    ensures !flag && stopAt >= n ==> LinesSeen(flag, n, stopAt) == n
    ensures !flag && stopAt < n ==> LinesSeen(flag, n, stopAt) == stopAt && !RunSucceeds(flag, n, stopAt, code)
  {
  }
}
