/**
 * FrontMatterUtils.checkFileHasFrontMatter: how many lines of a file belong to
 * its front matter, and which properties that front matter sets.
 */
module FrontMatter {
  import opened Wrappers
  import opened JavaLang
  import opened YmlConfig

  /** The line prefix that opens and closes a front-matter block. */
  const Marker := "---"

  /** The result of a scan: the line count (-1 for no front matter) and the properties read. */
  datatype Scan = Scan(count: int, properties: Properties)

  /** A line that `trim` turns into the empty string. */
  predicate IsBlank(line: string)
  {
    AllWhite(line)
  }

  /** The first line at or after `from` that is not blank, or `|lines|`. */
  function FirstNonBlank(lines: seq<string>, from: nat): (k: nat)
    requires from <= |lines|
    ensures from <= k <= |lines|
    ensures forall j :: from <= j < k ==> IsBlank(lines[j])
    ensures k < |lines| ==> !IsBlank(lines[k])
    decreases |lines| - from
  {
    if from == |lines| || !IsBlank(lines[from]) then from else FirstNonBlank(lines, from + 1)
  }

  /** The first line at or after `from` that starts with the marker, or `|lines|`. */
  function NextMarker(lines: seq<string>, from: nat): (k: nat)
    requires from <= |lines|
    ensures from <= k <= |lines|
    ensures forall j :: from <= j < k ==> !StartsWith(lines[j], Marker)
    ensures k < |lines| ==> StartsWith(lines[k], Marker)
    decreases |lines| - from
  {
    if from == |lines| || StartsWith(lines[from], Marker) then from else NextMarker(lines, from + 1)
  }

  /** The line that opens the front matter: the first non-blank line, when it starts with the marker. */
  predicate Opens(lines: seq<string>, f: nat)
  {
    f == FirstNonBlank(lines, 0) && f < |lines| && StartsWith(lines[f], Marker)
  }

  /**
   * The count the scan returns: -1 when the first non-blank line does not start
   * with the marker, otherwise the number of lines up to and including the next
   * line starting with the marker (every line when there is none, or when no
   * line is non-blank).
   */
  function ScanCount(lines: seq<string>): int
  {
    var f := FirstNonBlank(lines, 0);
    if f == |lines| then |lines|
    else if !StartsWith(lines[f], Marker) then -1
    else
      var c := NextMarker(lines, f + 1);
      if c < |lines| then c + 1 else |lines|
  }

  /** The properties the scan reads: those on the lines strictly between the two markers. */
  function ScanProperties(lines: seq<string>): Result<Properties, Exception>
  {
    var f := FirstNonBlank(lines, 0);
    if f == |lines| || !StartsWith(lines[f], Marker) then Success(map[])
    else ReadLines(lines[f + 1..NextMarker(lines, f + 1)])
  }

  /** The scan described by positions. */
  function ScanFrontMatter(lines: seq<string>): Result<Scan, Exception>
  {
    var props :- ScanProperties(lines);
    Success(Scan(ScanCount(lines), props))
  }

  /** A blank line before the opening marker moves the first non-blank line past it. */
  lemma BlankStep(lines: seq<string>, k: nat)
    requires k < |lines| && FirstNonBlank(lines, 0) >= k && Trim(lines[k]) == ""
    ensures FirstNonBlank(lines, 0) > k
  {
    TrimSpec(lines[k]);
  }

  /** The first line that is not blank is the first non-blank line. */
  lemma NonBlankStep(lines: seq<string>, k: nat)
    requires k < |lines| && FirstNonBlank(lines, 0) >= k && Trim(lines[k]) != ""
    ensures FirstNonBlank(lines, 0) == k
  {
    TrimSpec(lines[k]);
  }

  /** A line without the marker after the opening one moves the closing marker past it. */
  lemma BodyStep(lines: seq<string>, f: nat, k: nat)
    requires f < k < |lines| && NextMarker(lines, f + 1) >= k && !StartsWith(lines[k], Marker)
    ensures NextMarker(lines, f + 1) > k
  {
  }

  /** A slice is its two halves, joined. */
  lemma SliceSplit<T>(s: seq<T>, a: nat, b: nat, c: nat)
    requires a <= b <= c <= |s|
    ensures s[a..c] == s[a..b] + s[b..c]
  {
  }

  /** A line with the marker after the opening one is the closing marker. */
  lemma CloseStep(lines: seq<string>, f: nat, k: nat)
    requires f < k < |lines| && NextMarker(lines, f + 1) >= k && StartsWith(lines[k], Marker)
    ensures NextMarker(lines, f + 1) == k
  {
  }

  /** A property line read after the opening marker extends the properties read so far. */
  lemma PropertyStep(lines: seq<string>, f: nat, k: nat, props: Properties)
    requires f < k < |lines|
    requires ReadLines(lines[f + 1..k]) == Success(props)
    ensures ReadLines(lines[f + 1..k + 1]) ==
      (var e :- ReadLine(lines[k]); Success(Put(props, e)))
  {
    assert lines[f + 1..k + 1] == lines[f + 1..k] + [lines[k]];
    ReadLinesSnoc(lines[f + 1..k], lines[k]);
  }

  /** A property line that readLine rejects ends the scan with its error. */
  lemma PropertyFailure(lines: seq<string>, f: nat, k: nat)
    requires Opens(lines, f) && f < k < NextMarker(lines, f + 1)
    requires ReadLines(lines[f + 1..k + 1]).Failure?
    ensures ScanFrontMatter(lines) == Failure(ReadLines(lines[f + 1..k + 1]).error)
  {
    var c := NextMarker(lines, f + 1);
    SliceSplit(lines, f + 1, k + 1, c);
    ReadLinesPrefixFailure(lines[f + 1..k + 1], lines[k + 1..c]);
  }

  /** The scan once the closing marker is line `k`, or the file ends with `k == |lines|`. */
  lemma ScanEnd(lines: seq<string>, f: nat, k: nat, props: Properties)
    requires Opens(lines, f) && f < k <= |lines| && NextMarker(lines, f + 1) == k
    requires ReadLines(lines[f + 1..k]) == Success(props)
    ensures ScanFrontMatter(lines) == Success(Scan(if k < |lines| then k + 1 else |lines|, props))
  {
  }

  lemma ScanWithoutMarker(lines: seq<string>, k: nat)
    requires k == FirstNonBlank(lines, 0) < |lines| && !StartsWith(lines[k], Marker)
    ensures ScanFrontMatter(lines) == Success(Scan(-1, map[]))
  {
  }

  lemma ScanAllBlank(lines: seq<string>)
    requires FirstNonBlank(lines, 0) == |lines|
    ensures ScanFrontMatter(lines) == Success(Scan(|lines|, map[]))
  {
  }

  lemma ScanBlock(lines: seq<string>, f: nat)
    requires Opens(lines, f)
    ensures var c := NextMarker(lines, f + 1);
      ScanFrontMatter(lines) ==
        (var props :- ReadLines(lines[f + 1..c]);
         Success(Scan(if c < |lines| then c + 1 else |lines|, props)))
  {
  }

  /** The first loop phase of checkFileHasFrontMatter: blank lines are skipped. */
  method SkipBlankLines(lines: seq<string>) returns (k: nat)
    ensures k == FirstNonBlank(lines, 0)
  {
    k := 0;
    while k < |lines| && Trim(lines[k]) == ""
      invariant k <= FirstNonBlank(lines, 0)
    {
      BlankStep(lines, k);
      k := k + 1;
    }
    if k < |lines| {
      NonBlankStep(lines, k);
    }
  }

  /**
   * The second loop phase of checkFileHasFrontMatter: after the opening marker
   * at `f`, lines are read as properties until one starts with the marker; the
   * result is the number of lines consumed.
   */
  method ReadBlock(lines: seq<string>, f: nat) returns (r: Result<Scan, Exception>)
    requires Opens(lines, f)
    ensures r == ScanFrontMatter(lines)
  {
    var linesRead := f + 1;
    var props: Properties := map[];
    assert lines[f + 1..linesRead] == [];
    assert ReadLines([]) == Success(map[]) by { assert ReadAll([]) == Success([]); }
    while linesRead < |lines| && !StartsWith(lines[linesRead], Marker)
      invariant f < linesRead <= NextMarker(lines, f + 1)
      invariant ReadLines(lines[f + 1..linesRead]) == Success(props)
    {
      BodyStep(lines, f, linesRead);
      PropertyStep(lines, f, linesRead, props);
      var tokens := ReadLine(lines[linesRead]);
      if tokens.Failure? {
        PropertyFailure(lines, f, linesRead);
        return Failure(tokens.error);
      }
      props := Put(props, tokens.value);
      linesRead := linesRead + 1;
    }
    if linesRead < |lines| {
      CloseStep(lines, f, linesRead);
      ScanEnd(lines, f, linesRead, props);
      return Success(Scan(linesRead + 1, props));
    }
    ScanEnd(lines, f, linesRead, props);
    return Success(Scan(linesRead, props));
  }

  /**
   * checkFileHasFrontMatter: blank lines before the opening marker are skipped,
   * a first non-blank line without the marker gives -1, and lines after the
   * opening marker are read as properties up to the closing marker. The source
   * runs both phases in one loop guarded by a `found` flag.
   */
  method CheckFileHasFrontMatter(lines: seq<string>) returns (r: Result<Scan, Exception>)
    ensures r == ScanFrontMatter(lines)
  {
    var first := SkipBlankLines(lines);
    if first == |lines| {
      ScanAllBlank(lines);
      return Success(Scan(|lines|, map[]));
    }
    if !StartsWith(lines[first], Marker) {
      ScanWithoutMarker(lines, first);
      return Success(Scan(-1, map[]));
    }
    r := ReadBlock(lines, first);
  }

  /**
   * The count is -1 only for a first non-blank line without the marker, 0 only
   * for an empty file, and otherwise, short of the end of the file, the 1-based
   * number of the closing marker line: the first line after the opening one
   * that starts with the marker.
   */
  lemma ScanCountIsClosingLine(lines: seq<string>)
    ensures -1 <= ScanCount(lines) <= |lines|
    ensures ScanCount(lines) == 0 <==> lines == []
    ensures ScanCount(lines) == -1 <==>
      FirstNonBlank(lines, 0) < |lines| && !StartsWith(lines[FirstNonBlank(lines, 0)], Marker)
    ensures 0 < ScanCount(lines) < |lines| ==>
      Opens(lines, FirstNonBlank(lines, 0)) && FirstNonBlank(lines, 0) < ScanCount(lines) - 1
    ensures 0 < ScanCount(lines) < |lines| ==> StartsWith(lines[ScanCount(lines) - 1], Marker)
    ensures 0 < ScanCount(lines) < |lines| ==>
      forall j :: FirstNonBlank(lines, 0) < j < ScanCount(lines) - 1 ==> !StartsWith(lines[j], Marker)
  {
    var f := FirstNonBlank(lines, 0);
    if f < |lines| && StartsWith(lines[f], Marker) {
      var c := NextMarker(lines, f + 1);
      assert ScanCount(lines) == if c < |lines| then c + 1 else |lines|;
    }
  }

  /** A block opened and closed by marker lines yields exactly the properties between them. */
  lemma {:induction false} ScanOfBlock(blanks: seq<string>, open: string, body: seq<string>, close: string, rest: seq<string>)
    requires forall i :: 0 <= i < |blanks| ==> IsBlank(blanks[i])
    requires StartsWith(open, Marker) && StartsWith(close, Marker)
    requires forall i :: 0 <= i < |body| ==> !StartsWith(body[i], Marker)
    requires ReadLines(body).Success?
    ensures ScanFrontMatter(blanks + [open] + body + [close] + rest) ==
      Success(Scan(|blanks| + |body| + 2, ReadLines(body).value))
  {
    var lines := blanks + [open] + body + [close] + rest;
    var f := |blanks|;
    var c := |blanks| + 1 + |body|;
    assert !IsBlank(open) by { assert open[..1] == "-"; assert !IsWhite(open[0]); }
    assert forall j :: 0 <= j < f ==> lines[j] == blanks[j];
    assert lines[f] == open;
    assert FirstNonBlank(lines, 0) == f by { FirstNonBlankSkips(lines, 0, f); }
    assert forall j :: f + 1 <= j < c ==> lines[j] == body[j - f - 1];
    assert lines[c] == close;
    assert NextMarker(lines, f + 1) == c by { NextMarkerSkips(lines, f + 1, c); }
    assert lines[f + 1..c] == body;
  }

  lemma {:induction false} FirstNonBlankSkips(lines: seq<string>, from: nat, k: nat)
    requires from <= k < |lines|
    requires forall j :: from <= j < k ==> IsBlank(lines[j])
    requires !IsBlank(lines[k])
    ensures FirstNonBlank(lines, from) == k
    decreases k - from
  {
    if from < k {
      FirstNonBlankSkips(lines, from + 1, k);
    }
  }

  lemma {:induction false} NextMarkerSkips(lines: seq<string>, from: nat, k: nat)
    requires from <= k < |lines|
    requires forall j :: from <= j < k ==> !StartsWith(lines[j], Marker)
    requires StartsWith(lines[k], Marker)
    ensures NextMarker(lines, from) == k
    decreases k - from
  {
    if from < k {
      NextMarkerSkips(lines, from + 1, k);
    }
  }
}
