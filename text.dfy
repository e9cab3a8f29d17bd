/** The Python string operations the application relies on (`strip`, `split`,
    `splitlines`, `in`, `startswith`, `find`, `lower`, `join`, ...), stated over
    `seq<char>`. Whitespace and case are those of ASCII. */
module Text {
  import opened Wrappers
  import opened Seqs

  /** Characters `str.isspace()` accepts, restricted to ASCII. */
  predicate IsSpace(c: char)
  {
    c == ' ' || c == '\t' || c == '\n' || c == '\r' || c == '\U{000B}' || c == '\U{000C}'
    || c == '\U{001C}' || c == '\U{001D}' || c == '\U{001E}' || c == '\U{001F}'
  }

  /** Line boundaries of `str.splitlines()`, restricted to ASCII ("\r\n" counts once). */
  predicate IsLineBreak(c: char)
  {
    c == '\n' || c == '\r' || c == '\U{000B}' || c == '\U{000C}'
    || c == '\U{001C}' || c == '\U{001D}' || c == '\U{001E}'
  }

  predicate NoSpace(s: string)
  {
    forall i :: 0 <= i < |s| ==> !IsSpace(s[i])
  }

  predicate AllSpace(s: string)
  {
    forall i :: 0 <= i < |s| ==> IsSpace(s[i])
  }

  predicate NoLineBreak(s: string)
  {
    forall i :: 0 <= i < |s| ==> !IsLineBreak(s[i])
  }

  lemma NoLineBreakConcat(a: string, b: string)
    requires NoLineBreak(a) && NoLineBreak(b)
    ensures NoLineBreak(a + b)
  {
    forall i | 0 <= i < |a + b|
      ensures !IsLineBreak((a + b)[i])
    {
      if i >= |a| {
        assert (a + b)[i] == b[i - |a|];
      }
    }
  }

  // ---------------------------------------------------------------- strip

  /** `s.lstrip()`: the suffix left after dropping leading whitespace. */
  function TrimLeft(s: string): (r: string)
    ensures |r| <= |s| && r == s[|s| - |r|..]
    ensures forall i :: 0 <= i < |s| - |r| ==> IsSpace(s[i])
    ensures r != [] ==> !IsSpace(r[0])
  {
    if s != [] && IsSpace(s[0]) then TrimLeft(s[1..]) else s
  }

  /** `s.rstrip()`: the prefix left after dropping trailing whitespace. */
  function TrimRight(s: string): (r: string)
    ensures |r| <= |s| && r == s[..|r|]
    ensures forall i :: |r| <= i < |s| ==> IsSpace(s[i])
    ensures r != [] ==> !IsSpace(r[|r| - 1])
  {
    if s != [] && IsSpace(s[|s| - 1]) then TrimRight(s[..|s| - 1]) else s
  }

  /** `s.strip()`. */
  function Strip(s: string): (r: string)
    ensures |r| <= |s|
    ensures r != [] ==> !IsSpace(r[0]) && !IsSpace(r[|r| - 1])
  {
    TrimLeft(TrimRight(s))
  }

  /** `s.lstrip(c)` for a single character `c`. */
  function LStripChar(s: string, c: char): (r: string)
    ensures |r| <= |s| && r == s[|s| - |r|..]
    ensures forall i :: 0 <= i < |s| - |r| ==> s[i] == c
    ensures r != [] ==> r[0] != c
  {
    if s != [] && s[0] == c then LStripChar(s[1..], c) else s
  }

  /** `s.rstrip(c)` for a single character `c`. */
  function RStripChar(s: string, c: char): (r: string)
    ensures |r| <= |s| && r == s[..|r|]
    ensures forall i :: |r| <= i < |s| ==> s[i] == c
    ensures r != [] ==> r[|r| - 1] != c
  {
    if s != [] && s[|s| - 1] == c then RStripChar(s[..|s| - 1], c) else s
  }

  lemma {:induction false} TrimLeftOfNonSpace(s: string)
    requires s == [] || !IsSpace(s[0])
    ensures TrimLeft(s) == s
  {
  }

  lemma {:induction false} TrimRightOfNonSpace(s: string)
    requires s == [] || !IsSpace(s[|s| - 1])
    ensures TrimRight(s) == s
  {
  }

  /** A string without whitespace at either end is its own `strip()`. */
  lemma StripOfTrimmed(s: string)
    requires s == [] || (!IsSpace(s[0]) && !IsSpace(s[|s| - 1]))
    ensures Strip(s) == s
  {
    TrimRightOfNonSpace(s);
    TrimLeftOfNonSpace(s);
  }

  /** `strip()` is idempotent. */
  lemma StripIdempotent(s: string)
    ensures Strip(Strip(s)) == Strip(s)
  {
    StripOfTrimmed(Strip(s));
  }

  /** `strip()` of a single line is still a single line. */
  lemma StripKeepsOneLine(s: string)
    requires NoLineBreak(s)
    ensures NoLineBreak(Strip(s))
  {
    var t := TrimRight(s);
    var r := TrimLeft(t);
    NoLineBreakSlice(s, 0, |t|);
    assert s[0..|t|] == t;
    NoLineBreakSlice(t, |t| - |r|, |t|);
    assert t[|t| - |r|..|t|] == r;
  }

  /** A part of a single line is a single line. */
  lemma NoLineBreakSlice(s: string, i: nat, j: nat)
    requires NoLineBreak(s) && i <= j <= |s|
    ensures NoLineBreak(s[i..j])
  {
    forall k | 0 <= k < j - i
      ensures !IsLineBreak(s[i..j][k])
    {
      assert s[i..j][k] == s[i + k];
    }
  }

  /** `strip()` gives the empty string exactly for all-whitespace input. */
  lemma {:induction false} StripEmptyIffAllSpace(s: string)
    ensures Strip(s) == [] <==> AllSpace(s)
  {
    var t := TrimRight(s);
    if !AllSpace(s) {
      var i :| 0 <= i < |s| && !IsSpace(s[i]);
      assert t[i] == s[i];
    }
  }

  // ---------------------------------------------------------------- split

  /** Number of leading characters of `s` that are not whitespace. */
  function WordLength(s: string): (n: nat)
    ensures n <= |s|
    ensures forall i :: 0 <= i < n ==> !IsSpace(s[i])
    ensures n < |s| ==> IsSpace(s[n])
    ensures s != [] && !IsSpace(s[0]) ==> n >= 1
  {
    if s == [] || IsSpace(s[0]) then 0 else 1 + WordLength(s[1..])
  }

  /** `s.split()` with no argument: the maximal runs of non-whitespace characters. */
  function Split(s: string): (r: seq<string>)
    ensures forall i :: 0 <= i < |r| ==> r[i] != [] && NoSpace(r[i])
    decreases |s|
  {
    var t := TrimLeft(s);
    if t == [] then [] else
      var n := WordLength(t);
      WordPrefix(t);
      var rest := Split(t[n..]);
      WordsCons(t[..n], rest);
      [t[..n]] + rest
  }

  /** The first word of a text that starts with a non-space is a non-empty run of
      non-whitespace. */
  lemma WordPrefix(t: string)
    requires t != [] && !IsSpace(t[0])
    ensures 1 <= WordLength(t) && NoSpace(t[..WordLength(t)])
  {
    var n := WordLength(t);
    forall i | 0 <= i < n
      ensures !IsSpace(t[..n][i])
    {
      assert t[..n][i] == t[i];
    }
  }

  lemma WordsCons(w: string, rest: seq<string>)
    requires w != [] && NoSpace(w)
    requires forall i :: 0 <= i < |rest| ==> rest[i] != [] && NoSpace(rest[i])
    ensures forall i :: 0 <= i < |[w] + rest| ==> ([w] + rest)[i] != [] && NoSpace(([w] + rest)[i])
  {
    forall i | 0 <= i < |[w] + rest|
      ensures ([w] + rest)[i] != [] && NoSpace(([w] + rest)[i])
    {
      if i > 0 {
        assert ([w] + rest)[i] == rest[i - 1];
      }
    }
  }

  /** `sep.join(parts)`. */
  function Join(sep: string, parts: seq<string>): string
  {
    if parts == [] then ""
    else if |parts| == 1 then parts[0]
    else parts[0] + sep + Join(sep, parts[1..])
  }

  lemma TrimLeftOfSpaceCons(c: char, rest: string)
    requires IsSpace(c)
    ensures TrimLeft([c] + rest) == TrimLeft(rest)
  {
    assert ([c] + rest)[1..] == rest;
  }

  lemma {:induction false} WordLengthOfWord(w: string, rest: string)
    requires NoSpace(w)
    requires rest == [] || IsSpace(rest[0])
    ensures WordLength(w + rest) == |w|
    decreases |w|
  {
    if w != [] {
      assert (w + rest)[1..] == w[1..] + rest;
      WordLengthOfWord(w[1..], rest);
    }
  }

  /** Splitting a word followed by text that starts with whitespace (or nothing)
      yields the word first. */
  lemma SplitWordThen(w: string, rest: string)
    requires w != [] && NoSpace(w)
    requires rest == [] || IsSpace(rest[0])
    ensures Split(w + rest) == [w] + Split(rest)
  {
    var s := w + rest;
    TrimLeftOfNonSpace(s);
    WordLengthOfWord(w, rest);
    assert s[..|w|] == w;
    assert s[|w|..] == rest;
  }

  /** Leading whitespace does not change `split()`. */
  lemma SplitOfSpaceCons(c: char, rest: string)
    requires IsSpace(c)
    ensures Split([c] + rest) == Split(rest)
  {
    TrimLeftOfSpaceCons(c, rest);
  }

  lemma JoinSpaceCons(words: seq<string>)
    requires |words| >= 2
    ensures Join(" ", words) == words[0] + ([' '] + Join(" ", words[1..]))
  {
  }

  /** One word more in front: its split is the word, then the split of the rest. */
  lemma SplitJoinSpaceStep(words: seq<string>)
    requires |words| >= 2 && words[0] != [] && NoSpace(words[0])
    requires Split(Join(" ", words[1..])) == words[1..]
    ensures Split(Join(" ", words)) == words
  {
    var rest := Join(" ", words[1..]);
    JoinSpaceCons(words);
    assert IsSpace(' ') && ([' '] + rest)[0] == ' ';
    SplitWordThen(words[0], [' '] + rest);
    SplitOfSpaceCons(' ', rest);
    ConsTail(words);
  }

  /** `" ".join(words).split()` gives back the words, when each is a non-empty run
      of non-whitespace characters. */
  lemma {:induction false} SplitJoinSpace(words: seq<string>)
    requires forall i :: 0 <= i < |words| ==> words[i] != [] && NoSpace(words[i])
    ensures Split(Join(" ", words)) == words
    decreases |words|
  {
    if words == [] {
    } else if |words| == 1 {
      SplitWordThen(words[0], "");
      assert words[0] + "" == words[0];
    } else {
      var tail := words[1..];
      forall i | 0 <= i < |tail|
        ensures tail[i] != [] && NoSpace(tail[i])
      {
        assert tail[i] == words[i + 1];
      }
      SplitJoinSpace(tail);
      SplitJoinSpaceStep(words);
    }
  }

  // ---------------------------------------------------------------- splitlines

  /** Index of the first line boundary of `s`, or `|s|`. */
  function LineEnd(s: string): (n: nat)
    ensures n <= |s|
    ensures forall i :: 0 <= i < n ==> !IsLineBreak(s[i])
    ensures n < |s| ==> IsLineBreak(s[n])
  {
    if s == [] || IsLineBreak(s[0]) then 0 else 1 + LineEnd(s[1..])
  }

  /** `s.splitlines()`: the lines without their terminators; no trailing empty line. */
  function SplitLines(s: string): (r: seq<string>)
    ensures forall i :: 0 <= i < |r| ==> NoLineBreak(r[i])
    ensures s == [] <==> r == []
    decreases |s|
  {
    if s == [] then [] else
      var n := LineEnd(s);
      if n == |s| then [s]
      else
        var skip := if s[n] == '\r' && n + 1 < |s| && s[n + 1] == '\n' then 2 else 1;
        [s[..n]] + SplitLines(s[n + skip..])
  }

  /** A text without line boundaries is one line. */
  lemma SplitLinesOfOneLine(s: string)
    requires s != [] && NoLineBreak(s)
    ensures SplitLines(s) == [s]
  {
  }

  // ---------------------------------------------------------------- search

  /** `sub` occurs in `s` at index `i`. */
  predicate IsAt(s: string, sub: string, i: nat)
  {
    i + |sub| <= |s| && s[i..i + |sub|] == sub
  }

  /** Python's `sub in s`. */
  predicate Contains(s: string, sub: string)
  {
    exists i: nat | i <= |s| :: IsAt(s, sub, i)
  }

  predicate StartsWith(s: string, prefix: string)
  {
    |prefix| <= |s| && s[..|prefix|] == prefix
  }

  predicate EndsWith(s: string, suffix: string)
  {
    |suffix| <= |s| && s[|s| - |suffix|..] == suffix
  }

  /** A suffix of a suffix is a suffix. */
  lemma EndsWithTrans(s: string, t: string, u: string)
    requires EndsWith(s, t) && EndsWith(t, u)
    ensures EndsWith(s, u)
  {
    assert s[|s| - |u|..] == s[|s| - |t|..][|t| - |u|..];
  }

  /** The first index at or after `from` where `sub` occurs. */
  function FindFrom(s: string, sub: string, from: nat): (r: Option<nat>)
    ensures r.Some? ==> from <= r.value && IsAt(s, sub, r.value)
    ensures r.Some? ==> forall j: nat :: from <= j < r.value ==> !IsAt(s, sub, j)
    ensures r.None? ==> forall j: nat :: from <= j ==> !IsAt(s, sub, j)
    decreases |s| - from
  {
    if from + |sub| > |s| then None
    else if s[from..from + |sub|] == sub then Some(from)
    else FindFrom(s, sub, from + 1)
  }

  /** `s.find(sub)`, with `None` for -1. */
  function Find(s: string, sub: string): (r: Option<nat>)
    ensures r.Some? <==> Contains(s, sub)
    ensures r.Some? ==> IsAt(s, sub, r.value) && forall j: nat :: j < r.value ==> !IsAt(s, sub, j)
  {
    FindFrom(s, sub, 0)
  }

  /** The last index at or below `k` where `sub` occurs. */
  function LastAtOrBelow(s: string, sub: string, k: nat): (r: Option<nat>)
    ensures r.Some? ==> r.value <= k && IsAt(s, sub, r.value)
    ensures r.Some? ==> forall j: nat :: r.value < j <= k ==> !IsAt(s, sub, j)
    ensures r.None? ==> forall j: nat :: j <= k ==> !IsAt(s, sub, j)
  {
    if IsAt(s, sub, k) then Some(k)
    else if k == 0 then None
    else LastAtOrBelow(s, sub, k - 1)
  }

  /** `s.rfind(sub)`, with `None` for -1. */
  function RFind(s: string, sub: string): (r: Option<nat>)
    ensures r.Some? <==> Contains(s, sub)
    ensures r.Some? ==> IsAt(s, sub, r.value) && forall j: nat :: r.value < j ==> !IsAt(s, sub, j)
  {
    if |sub| > |s| then None else LastAtOrBelow(s, sub, |s| - |sub|)
  }

  /** The first `sep` of `a + sep + b` is the one after `a`, when no earlier one begins
      inside `a`. */
  lemma FindOfConcat(a: string, sep: string, b: string)
    requires sep != [] && !Contains(a + sep[..|sep| - 1], sep)
    ensures Find(a + sep + b, sep) == Some(|a|)
  {
    var s := a + sep + b;
    var t := a + sep[..|sep| - 1];
    assert s[|a|..|a| + |sep|] == sep;
    ContainsAt(s, sep, |a|);
    assert sep == sep[..|sep| - 1] + [sep[|sep| - 1]];
    assert s == t + ([sep[|sep| - 1]] + b);
    forall j: nat | j < |a|
      ensures IsAt(s, sep, j) ==> IsAt(t, sep, j)
    {
      assert j + |sep| <= |t|;
      assert s[j..j + |sep|] == s[..|t|][j..j + |sep|];
    }
    assert forall j: nat :: IsAt(t, sep, j) ==> j <= |t|;
  }

  /** The last `sep` of `a + sep + b` is the one after `a`, when no later one ends inside
      `b`. */
  lemma RFindOfConcat(a: string, sep: string, b: string)
    requires sep != [] && !Contains(sep[1..] + b, sep)
    ensures RFind(a + sep + b, sep) == Some(|a|)
  {
    var s := a + sep + b;
    var u := sep[1..] + b;
    assert s[|a|..|a| + |sep|] == sep;
    ContainsAt(s, sep, |a|);
    forall j: nat | j > |a|
      ensures IsAt(s, sep, j) ==> IsAt(u, sep, j - |a| - 1)
    {
      if j + |sep| <= |s| {
        assert s[j..j + |sep|] == u[j - |a| - 1..j - |a| - 1 + |sep|];
      }
    }
    assert forall k: nat :: IsAt(u, sep, k) ==> k <= |u|;
  }

  /** An occurrence of `sub` cannot begin inside a prefix without its first character. */
  lemma ContainsSkipsPrefix(a: string, t: string, sub: string)
    requires sub != [] && sub[0] !in a
    ensures Contains(a + t, sub) ==> Contains(t, sub)
  {
    if Contains(a + t, sub) {
      var i: nat :| i <= |a + t| && IsAt(a + t, sub, i);
      assert (a + t)[i] == sub[0];
      assert forall k :: 0 <= k < |a| ==> (a + t)[k] == a[k];
      assert (a + t)[i..i + |sub|] == t[i - |a|..i - |a| + |sub|];
      ContainsAt(t, sub, i - |a|);
    }
  }

  /** `s.split(sep, 1)` when it has two parts: the text before and after the first `sep`. */
  function SplitOnce(s: string, sep: string): Option<(string, string)>
  {
    match Find(s, sep)
    case None => None
    case Some(i) => Some((s[..i], s[i + |sep|..]))
  }

  /** `s.split(sep)[-1]` for a separator that cannot overlap itself: the text after the
      last occurrence of `sep`, or the whole of `s`. */
  function AfterLast(s: string, sep: string): string
  {
    match RFind(s, sep)
    case None => s
    case Some(i) => s[i + |sep|..]
  }

  /** `s.split(sep)[0]`: the text before the first occurrence of `sep`, or `s`. */
  function BeforeFirst(s: string, sep: string): string
  {
    match Find(s, sep)
    case None => s
    case Some(i) => s[..i]
  }

  /** `s.split(c)[0]` for a single character `c`: the text before the first `c`. */
  function BeforeChar(s: string, c: char): (r: string)
    ensures c !in r
    ensures StartsWith(s, r)
    ensures |r| < |s| ==> s[|r|] == c
    ensures c in s ==> |r| < |s|
  {
    if s == [] || s[0] == c then [] else [s[0]] + BeforeChar(s[1..], c)
  }

  lemma {:induction false} BeforeCharOfConcat(a: string, c: char, b: string)
    requires c !in a
    ensures BeforeChar(a + [c] + b, c) == a
    decreases |a|
  {
    if a != [] {
      assert (a + [c] + b)[1..] == a[1..] + [c] + b;
      BeforeCharOfConcat(a[1..], c, b);
    }
  }

  lemma ContainsAt(s: string, sub: string, i: nat)
    requires IsAt(s, sub, i)
    ensures Contains(s, sub)
  {
  }

  /** A string contains itself, and any string that contains a part of it. */
  lemma ContainsInConcat(a: string, sub: string, b: string)
    ensures Contains(a + sub + b, sub)
  {
    assert (a + sub + b)[|a|..|a| + |sub|] == sub;
    ContainsAt(a + sub + b, sub, |a|);
  }

  lemma {:induction false} StartsWithConcat(a: string, b: string)
    ensures StartsWith(a + b, a)
  {
    assert (a + b)[..|a|] == a;
  }

  // ---------------------------------------------------------------- case

  function LowerChar(c: char): char
  {
    if 'A' <= c <= 'Z' then (c as int + 32) as char else c
  }

  function UpperChar(c: char): char
  {
    if 'a' <= c <= 'z' then (c as int - 32) as char else c
  }

  /** `s.lower()` on ASCII letters. */
  function Lower(s: string): (r: string)
    ensures |r| == |s| && forall i :: 0 <= i < |s| ==> r[i] == LowerChar(s[i])
  {
    seq(|s|, i requires 0 <= i < |s| => LowerChar(s[i]))
  }

  /** `lower()` leaves a string without capitals as it is. */
  lemma LowerOfLowercase(s: string)
    requires forall i :: 0 <= i < |s| ==> !('A' <= s[i] <= 'Z')
    ensures Lower(s) == s
  {
    assert forall i :: 0 <= i < |s| ==> Lower(s)[i] == s[i];
  }

  /** `s.upper()` on ASCII letters. */
  function Upper(s: string): (r: string)
    ensures |r| == |s| && forall i :: 0 <= i < |s| ==> r[i] == UpperChar(s[i])
  {
    seq(|s|, i requires 0 <= i < |s| => UpperChar(s[i]))
  }

  /** `s.replace(a, b)` for single characters. */
  function ReplaceChar(s: string, a: char, b: char): (r: string)
    ensures |r| == |s|
    ensures forall i :: 0 <= i < |s| ==> r[i] == (if s[i] == a then b else s[i])
  {
    seq(|s|, i requires 0 <= i < |s| => if s[i] == a then b else s[i])
  }

  // ---------------------------------------------------------------- numbers

  predicate IsDigit(c: char)
  {
    '0' <= c <= '9'
  }

  predicate AllDigits(s: string)
  {
    forall i :: 0 <= i < |s| ==> IsDigit(s[i])
  }

  function DigitValue(c: char): nat
    requires IsDigit(c)
  {
    (c as int - '0' as int) as nat
  }

  /** `int(s)` for a string of decimal digits. */
  function DigitsValue(s: string): nat
    requires AllDigits(s)
  {
    if s == [] then 0 else DigitsValue(s[..|s| - 1]) * 10 + DigitValue(s[|s| - 1])
  }

  function DigitChar(d: nat): (c: char)
    requires d < 10
    ensures IsDigit(c) && DigitValue(c) == d
  {
    "0123456789"[d]
  }

  /** `str(n)` for a natural number. */
  function NatToString(n: nat): (r: string)
    ensures r != [] && AllDigits(r)
  {
    if n < 10 then [DigitChar(n)] else NatToString(n / 10) + [DigitChar(n % 10)]
  }

  /** `int(str(n)) == n`. */
  lemma {:induction false} DigitsOfNatToString(n: nat)
    ensures DigitsValue(NatToString(n)) == n
  {
    var s := NatToString(n);
    if n < 10 {
      assert s[..|s| - 1] == [];
    } else {
      var p := NatToString(n / 10);
      assert s[..|s| - 1] == p;
      DigitsOfNatToString(n / 10);
    }
  }

  /** `str(n)` is injective. */
  lemma NatToStringInjective(m: nat, n: nat)
    requires NatToString(m) == NatToString(n)
    ensures m == n
  {
    DigitsOfNatToString(m);
    DigitsOfNatToString(n);
  }
}
