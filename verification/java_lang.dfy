/**
 * The slice of Java and Apache Commons Lang string semantics that the site
 * builder relies on: `String.trim`, `startsWith`, `indexOf`, `compareTo`,
 * `hashCode`, `StringUtils.split` and `StringUtils.join`.
 */
module JavaLang {
  import opened Wrappers

  /** The exceptions the modelled code throws or lets propagate. */
  datatype Exception =
    | CorruptYml                    // a front-matter line that begins with ':'
    | StringIndexOutOfBounds        // String.substring with an index out of range
    | IndexOutOfBounds              // List.subList or List.get with an index out of range
    | NullPointer                   // a null reference dereferenced
    | IOFailure                     // an IOException from reading a file
    | IllegalArgument(message: string)
    | IllegalState(message: string)
    | Runtime(message: string)
    | StackOverflow                 // recursion that never reaches a base case

  /**
   * An exception a method may throw without declaring it: anything but an
   * `IOException`, which Java makes a method declare before it can throw it.
   */
  type Unchecked = e: Exception | !e.IOFailure? witness NullPointer

  /** A file as a line reader delivers it, or a read that fails with an IOException. */
  datatype FileText = Readable(lines: seq<string>) | Unreadable

  /** `File.separator`; the model assumes a POSIX host. */
  const FileSeparator: string := "/"

  /** `Integer.toString`: the decimal digits of `n`, after a '-' when it is negative. */
  function DecimalString(n: int): (s: string)
    ensures |s| > 0
    ensures n < 0 <==> s[0] == '-'
    decreases if n < 0 then 1 - n else n
  {
    if n < 0 then "-" + DecimalString(-n)
    else if n < 10 then ["0123456789"[n]]
    else DecimalString(n / 10) + ["0123456789"[n % 10]]
  }

  /** The message `ArrayList.subList` throws with when the bounds are crossed. */
  function CrossedRange(from: int, to: int): string
  {
    "fromIndex(" + DecimalString(from) + ") > toIndex(" + DecimalString(to) + ")"
  }

  /**
   * `ArrayList.subList(from, to)`. A negative `from` or a `to` past the end
   * is an index error, checked first; otherwise `from > to` is an illegal
   * argument.
   */
  function SubList<T>(xs: seq<T>, from: int, to: int): (r: Result<seq<T>, Exception>)
    ensures r.Success? <==> 0 <= from <= to <= |xs|
    ensures r.Success? ==> |r.value| == to - from && forall i :: 0 <= i < |r.value| ==> r.value[i] == xs[from + i]
    ensures from < 0 || to > |xs| ==> r == Failure(IndexOutOfBounds)
    ensures 0 <= from && to <= |xs| && from > to ==> r == Failure(IllegalArgument(CrossedRange(from, to)))
  {
    if from < 0 || to > |xs| then Failure(IndexOutOfBounds)
    else if from > to then Failure(IllegalArgument(CrossedRange(from, to)))
    else Success(xs[from..to])
  }

  /** A line terminator as `BufferedReader.readLine` recognises one. */
  predicate IsLineBreak(c: char)
  {
    c == '\n' || c == '\r'
  }

  /** Text with no line terminator in it. */
  predicate OnOneLine(s: string)
  {
    forall i :: 0 <= i < |s| ==> !IsLineBreak(s[i])
  }

  /** The position of the first line terminator, or the length when there is none. */
  function LineEnd(s: string): (i: nat)
    ensures i <= |s| && (i < |s| ==> IsLineBreak(s[i]))
    ensures forall k :: 0 <= k < i ==> !IsLineBreak(s[k])
  {
    if |s| == 0 || IsLineBreak(s[0]) then 0 else 1 + LineEnd(s[1..])
  }

  /**
   * The lines `BufferedReader.readLine` returns for a text, in order: a line
   * ends at "\n", "\r" or "\r\n", and a last line without a terminator
   * counts unless it is empty.
   */
  function ReaderLines(text: string): (lines: seq<string>)
    ensures forall k :: 0 <= k < |lines| ==> OnOneLine(lines[k])
    decreases |text|
  {
    var i := LineEnd(text);
    if i == |text| then (if text == "" then [] else [text])
    else
      var skip := if text[i] == '\r' && i + 1 < |text| && text[i + 1] == '\n' then 2 else 1;
      [text[..i]] + ReaderLines(text[i + skip..])
  }

  /** The line separators `readLine` reads back as exactly one line end. */
  predicate IsLineSeparator(newLine: string)
  {
    newLine == "\n" || newLine == "\r\n"
  }

  /** A line followed by a line separator is read as that line, and reading goes on after the separator. */
  lemma ReadOneLine(line: string, newLine: string, rest: string)
    requires OnOneLine(line) && IsLineSeparator(newLine)
    ensures ReaderLines(line + newLine + rest) == [line] + ReaderLines(rest)
  {
    var text := line + newLine + rest;
    assert text[..|line|] == line;
    assert text[|line|] == newLine[0];
    LineEndAt(text, |line|);
    assert text[|line| + |newLine|..] == rest;
  }

  lemma {:induction false} LineEndAt(s: string, i: nat)
    requires i < |s| && IsLineBreak(s[i]) && forall k :: 0 <= k < i ==> !IsLineBreak(s[k])
    ensures LineEnd(s) == i
  {
    if i > 0 {
      LineEndAt(s[1..], i - 1);
    }
  }

  /** How string concatenation prints a possibly null string. */
  function ValueOf(s: Option<string>): string
  {
    match s
    case Some(v) => v
    case None => "null"
  }

  predicate IsWhite(c: char)
  {
    c <= ' '
  }

  predicate AllWhite(s: string)
  {
    forall i :: 0 <= i < |s| ==> IsWhite(s[i])
  }

  predicate StartsWith(s: string, prefix: string)
  {
    |prefix| <= |s| && s[..|prefix|] == prefix
  }

  predicate EndsWith(s: string, suffix: string)
  {
    |suffix| <= |s| && s[|s| - |suffix|..] == suffix
  }

  /** Leading characters at or below U+0020 removed. */
  function TrimStart(s: string): string
  {
    if |s| > 0 && IsWhite(s[0]) then TrimStart(s[1..]) else s
  }

  /** Trailing characters at or below U+0020 removed. */
  function TrimEnd(s: string): string
  {
    if |s| > 0 && IsWhite(s[|s| - 1]) then TrimEnd(s[..|s| - 1]) else s
  }

  /** `String.trim`: the text between the first and last character above U+0020. */
  function Trim(s: string): string
  {
    TrimStart(TrimEnd(s))
  }

  /** `TrimStart` drops a white prefix and nothing else. */
  lemma {:induction false} TrimStartSpec(s: string)
    ensures var r := TrimStart(s);
      |r| <= |s| && r == s[|s| - |r|..] && AllWhite(s[..|s| - |r|]) && (r == [] || !IsWhite(r[0]))
  {
    if |s| > 0 && IsWhite(s[0]) {
      TrimStartSpec(s[1..]);
      var r := TrimStart(s[1..]);
      assert s[..|s| - |r|] == [s[0]] + s[1..][..|s| - 1 - |r|];
    }
  }

  /** `TrimEnd` drops a white suffix and nothing else. */
  lemma {:induction false} TrimEndSpec(s: string)
    ensures var r := TrimEnd(s);
      |r| <= |s| && r == s[..|r|] && AllWhite(s[|r|..]) && (r == [] || !IsWhite(r[|r| - 1]))
  {
    if |s| > 0 && IsWhite(s[|s| - 1]) {
      TrimEndSpec(s[..|s| - 1]);
      var r := TrimEnd(s[..|s| - 1]);
      assert s[|r|..] == s[..|s| - 1][|r|..] + [s[|s| - 1]];
    }
  }

  /** `trim` yields a string that neither starts nor ends with white space, empty exactly for white input. */
  lemma TrimSpec(s: string)
    ensures |Trim(s)| <= |s|
    ensures Trim(s) == [] || (!IsWhite(Trim(s)[0]) && !IsWhite(Trim(s)[|Trim(s)| - 1]))
    ensures Trim(s) == [] <==> AllWhite(s)
  {
    var e := TrimEnd(s);
    var r := TrimStart(e);
    TrimEndSpec(s);
    TrimStartSpec(e);
    if r == [] {
      assert e == [];
      assert s[|e|..] == s;
    } else {
      assert r[|r| - 1] == e[|e| - 1];
      assert !AllWhite(s) by { assert s[|e| - 1] == e[|e| - 1]; }
    }
  }

  lemma AllWhiteAppend(a: string, b: string)
    requires AllWhite(a) && AllWhite(b)
    ensures AllWhite(a + b)
  {
    assert forall i :: |a| <= i < |a + b| ==> (a + b)[i] == b[i - |a|];
  }

  lemma {:induction false} TrimStartWhitePrefix(w: string, s: string)
    requires AllWhite(w)
    ensures TrimStart(w + s) == TrimStart(s)
    decreases |w|
  {
    if |w| > 0 {
      assert (w + s)[1..] == w[1..] + s;
      TrimStartWhitePrefix(w[1..], s);
    } else {
      assert w + s == s;
    }
  }

  lemma {:induction false} TrimEndWhiteSuffix(s: string, w: string)
    requires AllWhite(w)
    ensures TrimEnd(s + w) == TrimEnd(s)
    decreases |w|
  {
    if |w| > 0 {
      assert (s + w)[..|s + w| - 1] == s + w[..|w| - 1];
      TrimEndWhiteSuffix(s, w[..|w| - 1]);
    } else {
      assert s + w == s;
    }
  }

  lemma {:induction false} TrimEndKeepsPrefix(a: string, b: string)
    requires !AllWhite(b)
    ensures TrimEnd(a + b) == a + TrimEnd(b)
    decreases |b|
  {
    if IsWhite(b[|b| - 1]) {
      assert (a + b)[..|a + b| - 1] == a + b[..|b| - 1];
      assert !AllWhite(b[..|b| - 1]);
      TrimEndKeepsPrefix(a, b[..|b| - 1]);
    }
  }

  lemma TrimStartClean(s: string)
    requires s == [] || !IsWhite(s[0])
    ensures TrimStart(s) == s
  {
  }

  lemma TrimEndClean(s: string)
    requires s == [] || !IsWhite(s[|s| - 1])
    ensures TrimEnd(s) == s
  {
  }

  /** A string that `trim` leaves alone. */
  predicate IsTrimmed(s: string)
  {
    s == [] || (!IsWhite(s[0]) && !IsWhite(s[|s| - 1]))
  }

  lemma TrimTrimmed(s: string)
    requires IsTrimmed(s)
    ensures Trim(s) == s
  {
    TrimEndClean(s);
    TrimStartClean(s);
  }

  /** Whitespace around a string does not change what `trim` returns. */
  lemma TrimIgnoresPadding(w: string, s: string)
    requires AllWhite(w)
    ensures Trim(w + s) == Trim(s)
  {
    if AllWhite(s) {
      AllWhiteAppend(w, s);
      TrimSpec(w + s);
      TrimSpec(s);
    } else {
      TrimEndKeepsPrefix(w, s);
      TrimStartWhitePrefix(w, TrimEnd(s));
    }
  }

  lemma TrimEndIdempotent(s: string)
    ensures TrimEnd(TrimEnd(s)) == TrimEnd(s)
  {
    TrimEndSpec(s);
    TrimEndClean(TrimEnd(s));
  }

  /** `s.indexOf(c, from)`: the first position at or after `from` holding `c`, or -1. */
  function IndexOfCharFrom(s: string, c: char, from: nat): (r: int)
    ensures r == -1 || (from <= r < |s| && s[r] == c)
    ensures r == -1 ==> forall k :: from <= k < |s| ==> s[k] != c
    ensures r != -1 ==> forall k :: from <= k < r ==> s[k] != c
    decreases |s| - from
  {
    if from >= |s| then -1
    else if s[from] == c then from
    else IndexOfCharFrom(s, c, from + 1)
  }

  function IndexOfChar(s: string, c: char): int
  {
    IndexOfCharFrom(s, c, 0)
  }

  /** `s.lastIndexOf(c)`: the last position holding `c`, or -1. */
  function LastIndexOfChar(s: string, c: char): (r: int)
    ensures -1 <= r < |s|
    ensures r >= 0 ==> s[r] == c
    ensures forall k :: r < k < |s| ==> s[k] != c
  {
    if |s| == 0 then -1
    else if s[|s| - 1] == c then |s| - 1
    else LastIndexOfChar(s[..|s| - 1], c)
  }

  /** Whether `sub` occurs in `s` starting at position `k`. */
  predicate OccursAt(s: string, sub: string, k: int)
  {
    0 <= k && k + |sub| <= |s| && s[k..k + |sub|] == sub
  }

  /** `s.indexOf(sub, from)` for `from <= |s|`: the first occurrence at or after `from`, or -1. */
  function IndexOfFrom(s: string, sub: string, from: nat): (r: int)
    requires from <= |s|
    ensures r == -1 || (from <= r && OccursAt(s, sub, r))
    ensures r == -1 ==> forall k :: from <= k <= |s| ==> !OccursAt(s, sub, k)
    ensures r != -1 ==> forall k :: from <= k < r ==> !OccursAt(s, sub, k)
    decreases |s| - from
  {
    if OccursAt(s, sub, from) then from
    else if from == |s| then -1
    else IndexOfFrom(s, sub, from + 1)
  }

  function IndexOf(s: string, sub: string): int
  {
    IndexOfFrom(s, sub, 0)
  }

  /** `StringUtils.join(lines, sep)`: the elements with `sep` between neighbours. */
  function Join(xs: seq<string>, sep: char): string
  {
    if |xs| == 0 then ""
    else if |xs| == 1 then xs[0]
    else xs[0] + [sep] + Join(xs[1..], sep)
  }

  /** The elements written one after another. */
  function Concat(xs: seq<string>): string
  {
    if |xs| == 0 then "" else xs[0] + Concat(xs[1..])
  }

  /** `s` with every character from `seps` dropped. */
  function RemoveChars(s: string, seps: set<char>): string
  {
    if |s| == 0 then ""
    else (if s[0] in seps then "" else [s[0]]) + RemoveChars(s[1..], seps)
  }

  predicate NoneIn(s: string, seps: set<char>)
  {
    forall i :: 0 <= i < |s| ==> s[i] !in seps
  }

  /** Length of the run of non-separator characters that opens `s`. */
  function RunLength(s: string, seps: set<char>): (n: nat)
    ensures n <= |s|
    ensures NoneIn(s[..n], seps)
    ensures n < |s| ==> s[n] in seps
  {
    if |s| == 0 || s[0] in seps then 0
    else
      var n := 1 + RunLength(s[1..], seps);
      assert s[..n] == [s[0]] + s[1..][..n - 1];
      n
  }

  lemma {:induction false} RemoveCharsAppend(a: string, b: string, seps: set<char>)
    ensures RemoveChars(a + b, seps) == RemoveChars(a, seps) + RemoveChars(b, seps)
    decreases |a|
  {
    if |a| > 0 {
      assert (a + b)[1..] == a[1..] + b;
      RemoveCharsAppend(a[1..], b, seps);
    } else {
      assert a + b == b;
    }
  }

  lemma {:induction false} RemoveCharsNone(s: string, seps: set<char>)
    requires NoneIn(s, seps)
    ensures RemoveChars(s, seps) == s
    decreases |s|
  {
    if |s| > 0 {
      RemoveCharsNone(s[1..], seps);
    }
  }

  /**
   * `StringUtils.split(s, separatorChars)`: the maximal runs of characters not
   * in `seps`, in order; adjacent separators never produce an empty token.
   */
  function SplitAny(s: string, seps: set<char>): (r: seq<string>)
    ensures forall i :: 0 <= i < |r| ==> r[i] != [] && NoneIn(r[i], seps)
    ensures Concat(r) == RemoveChars(s, seps)
    decreases |s|
  {
    if |s| == 0 then []
    else if s[0] in seps then SplitAny(s[1..], seps)
    else
      var n := RunLength(s, seps);
      var rest := SplitAny(s[n..], seps);
      assert s == s[..n] + s[n..];
      RemoveCharsAppend(s[..n], s[n..], seps);
      RemoveCharsNone(s[..n], seps);
      [s[..n]] + rest
  }

  /** Splitting a join on a separator character gives the parts back. */
  lemma {:induction false} SplitJoin(ts: seq<string>, c: char, seps: set<char>)
    requires c in seps
    requires forall i :: 0 <= i < |ts| ==> ts[i] != [] && NoneIn(ts[i], seps)
    ensures SplitAny(Join(ts, c), seps) == ts
    decreases |ts|
  {
    if |ts| == 1 {
      var s := ts[0];
      assert Join(ts, c) == s;
      assert RunLength(s, seps) == |s| by { RunLengthOfRun(s, "", seps); assert s + "" == s; }
      assert s[..|s|] == s;
      assert s[|s|..] == [];
      assert SplitAny(s, seps) == [s] + SplitAny(s[|s|..], seps);
    } else if |ts| > 1 {
      var s := Join(ts, c);
      var tail := [c] + Join(ts[1..], c);
      assert s == ts[0] + tail;
      RunLengthOfRun(ts[0], tail, seps);
      assert s[..|ts[0]|] == ts[0];
      assert s[|ts[0]|..] == tail;
      assert tail[1..] == Join(ts[1..], c);
      SplitJoin(ts[1..], c, seps);
      assert ts == [ts[0]] + ts[1..];
    }
  }

  lemma {:induction false} RunLengthOfRun(a: string, b: string, seps: set<char>)
    requires a != [] && NoneIn(a, seps)
    requires b == [] || b[0] in seps
    ensures RunLength(a + b, seps) == |a|
    decreases |a|
  {
    if |a| > 1 {
      assert (a + b)[1..] == a[1..] + b;
      RunLengthOfRun(a[1..], b, seps);
    } else {
      assert (a + b)[1..] == b;
    }
  }

  /** `String.compareTo`: first differing character, else the length difference. */
  function CompareTo(a: string, b: string): (r: int)
    ensures r == 0 <==> a == b
  {
    if |a| == 0 || |b| == 0 then |a| - |b|
    else if a[0] != b[0] then a[0] as int - b[0] as int
    else
      var r := CompareTo(a[1..], b[1..]);
      assert a == [a[0]] + a[1..] && b == [b[0]] + b[1..];
      r
  }

  lemma {:induction false} CompareToAntisymmetric(a: string, b: string)
    ensures CompareTo(a, b) == -CompareTo(b, a)
  {
    if |a| > 0 && |b| > 0 && a[0] == b[0] {
      CompareToAntisymmetric(a[1..], b[1..]);
    }
  }

  function ToLowerAscii(c: char): char
  {
    if 'A' <= c <= 'Z' then (c as int + 32) as char else c
  }

  /** Case folding as `compareToIgnoreCase` applies it, restricted to ASCII letters. */
  function LowerCase(s: string): (r: string)
    ensures |r| == |s|
  {
    seq(|s|, i requires 0 <= i < |s| => ToLowerAscii(s[i]))
  }

  /** `String.compareToIgnoreCase`. */
  function CompareToIgnoreCase(a: string, b: string): (r: int)
    ensures r == 0 <==> LowerCase(a) == LowerCase(b)
  {
    CompareTo(LowerCase(a), LowerCase(b))
  }

  /** `a.equalsIgnoreCase(b)`: false against null. */
  predicate EqualsIgnoreCase(a: string, b: Option<string>)
  {
    b.Some? && LowerCase(a) == LowerCase(b.value)
  }

  const TwoTo32: int := 0x1_0000_0000
  const TwoTo31: int := 0x8000_0000

  /** `String.hashCode` before reinterpretation as a signed 32-bit value. */
  function HashBits(s: string): (h: int)
    ensures 0 <= h < TwoTo32
  {
    if |s| == 0 then 0 else (31 * HashBits(s[..|s| - 1]) + s[|s| - 1] as int) % TwoTo32
  }

  /** `String.hashCode`: `31*h + c` over the characters, wrapped to a Java int. */
  function StringHash(s: string): (h: int)
    ensures -TwoTo31 <= h < TwoTo31
  {
    var u := HashBits(s);
    if u >= TwoTo31 then u - TwoTo32 else u
  }

  function DigitChar(d: nat): (c: char)
    requires d < 10
    ensures '0' <= c <= '9'
  {
    ('0' as int + d) as char
  }

  predicate IsDigits(s: string)
  {
    forall i :: 0 <= i < |s| ==> '0' <= s[i] <= '9'
  }

  /** `Integer.toString` of a non-negative value. */
  function NatToString(n: nat): (r: string)
    ensures |r| >= 1 && IsDigits(r)
    ensures |r| > 1 ==> r[0] != '0'
  {
    if n < 10 then [DigitChar(n)] else NatToString(n / 10) + [DigitChar(n % 10)]
  }

  /** The value a string of decimal digits denotes. */
  function ParseDigits(s: string): nat
    requires IsDigits(s)
  {
    if |s| == 0 then 0 else 10 * ParseDigits(s[..|s| - 1]) + (s[|s| - 1] as int - '0' as int)
  }

  lemma {:induction false} ParseNatToString(n: nat)
    ensures ParseDigits(NatToString(n)) == n
  {
    if n >= 10 {
      var r := NatToString(n);
      assert r[..|r| - 1] == NatToString(n / 10);
      ParseNatToString(n / 10);
    }
  }

  /** Removes `prefix` from the front of `s` when it is there. */
  function RemovePrefix(s: string, prefix: string): (r: string)
    ensures StartsWith(s, prefix) ==> s == prefix + r
    ensures !StartsWith(s, prefix) ==> r == s
    ensures EndsWith(s, r)
  {
    if StartsWith(s, prefix) then
      assert s == prefix + s[|prefix|..];
      s[|prefix|..]
    else s
  }
}
