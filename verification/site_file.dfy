/**
 * ProcessableSiteFile: a site file read into lines, its YML front matter
 * located between two lines equal to "---", and its content after it.
 */
module SiteFiles {
  import opened Wrappers
  import opened JavaLang
  import opened YmlConfig
  import FrontMatter

  /** The exact line that opens and closes the front matter here. */
  const Separator := "---"

  /**
   * The mutable state of a ProcessableSiteFile: its lines (null once the
   * content has been taken, or when reading failed), the indices recorded for
   * the two separators (-1 until seen) and the properties read between them.
   */
  datatype SiteFile = SiteFile(
    lines: Option<seq<string>>,
    separatorStart: int,
    separatorEnd: int,
    properties: Option<Properties>)

  /** The constructor: the file's lines, or null when reading them failed. */
  function Open(text: FileText): (f: SiteFile)
    ensures f.separatorStart == -1 && f.separatorEnd == -1 && f.properties == None
    ensures f.lines.Some? <==> text.Readable?
    ensures text.Readable? ==> f.lines == Some(text.lines)
  {
    SiteFile(if text.Readable? then Some(text.lines) else None, -1, -1, None)
  }

  /**
   * The loop of hasFrontMatter from line `i`, with `lineIndex` the index the
   * source records for that line. In the source blank lines do not advance
   * `lineIndex` (`absolute == false`); with `absolute == true` every line does,
   * so that `lineIndex` is the line's position in the file.
   */
  function Walk(lines: seq<string>, i: nat, lineIndex: int, first: bool, f: SiteFile, absolute: bool)
    : Result<(bool, SiteFile), Exception>
    requires i <= |lines|
    decreases |lines| - i
  {
    if i == |lines| then Success((false, f))
    else
      var line := lines[i];
      if Trim(line) == "" then
        Walk(lines, i + 1, if absolute then lineIndex + 1 else lineIndex, first, f, absolute)
      else if line == Separator && first then
        var g := f.(separatorEnd := lineIndex);
        if g.separatorStart >= 0 then
          var block :- SubList(lines, g.separatorStart + 1, lineIndex);
          var props :- ReadLines(block);
          Success((true, g.(properties := Some(props))))
        else Success((true, g))
      else if line == Separator then
        Walk(lines, i + 1, lineIndex + 1, true, f.(separatorStart := lineIndex), absolute)
      else if !first then Success((false, f))
      else Walk(lines, i + 1, lineIndex + 1, first, f, absolute)
  }

  /** hasFrontMatter as the source computes it, with the updated file state. */
  function HasFrontMatter(f: SiteFile): Result<(bool, SiteFile), Exception>
  {
    if f.lines.None? then Success((false, f)) else Walk(f.lines.value, 0, 0, false, f, false)
  }

  /** hasFrontMatter recording positions in the file, as the later subList calls expect. */
  function HasFrontMatterCorrected(f: SiteFile): Result<(bool, SiteFile), Exception>
  {
    if f.lines.None? then Success((false, f)) else Walk(f.lines.value, 0, 0, false, f, true)
  }

  /** The first line at or after `from` equal to the separator, or `|lines|`. */
  function NextSeparator(lines: seq<string>, from: nat): (k: nat)
    requires from <= |lines|
    ensures from <= k <= |lines|
    ensures forall j :: from <= j < k ==> lines[j] != Separator
    ensures k < |lines| ==> lines[k] == Separator
    decreases |lines| - from
  {
    if from == |lines| || lines[from] == Separator then from else NextSeparator(lines, from + 1)
  }

  /**
   * Front matter described by positions: the first non-blank line must equal
   * the separator, the next line equal to the separator closes the block, and
   * the lines strictly between them are its properties.
   */
  function FrontMatterBlock(lines: seq<string>): Result<(bool, SiteFile), Exception>
  {
    var s := Open(Readable(lines));
    var k := FrontMatter.FirstNonBlank(lines, 0);
    if k == |lines| || lines[k] != Separator then Success((false, s))
    else
      var c := NextSeparator(lines, k + 1);
      if c == |lines| then Success((false, s.(separatorStart := k)))
      else
        var props :- ReadLines(lines[k + 1..c]);
        Success((true, s.(separatorStart := k, separatorEnd := c, properties := Some(props))))
  }

  /** The separator line is not blank. */
  lemma SeparatorNotBlank(line: string)
    requires line == Separator
    ensures Trim(line) != "" && !FrontMatter.IsBlank(line)
  {
    TrimSpec(line);
    assert !IsWhite(line[0]);
  }

  /** The corrected walk after the opening separator at `k`, from line `i` on. */
  lemma {:induction false} CorrectedBlockWalk(lines: seq<string>, k: nat, i: nat, g: SiteFile)
    requires k < i <= |lines| && g.separatorStart == k
    ensures Walk(lines, i, i, true, g, true) ==
      (var c := NextSeparator(lines, i);
       if c == |lines| then Success((false, g))
       else
         var props :- ReadLines(lines[k + 1..c]);
         Success((true, g.(separatorEnd := c, properties := Some(props)))))
    decreases |lines| - i
  {
    if i < |lines| {
      var line := lines[i];
      if Trim(line) == "" {
        if line == Separator { SeparatorNotBlank(line); }
        CorrectedBlockWalk(lines, k, i + 1, g);
      } else if line != Separator {
        CorrectedBlockWalk(lines, k, i + 1, g);
      }
    }
  }

  /** The corrected walk before the first non-blank line, from line `i` on. */
  lemma {:induction false} CorrectedPrefixWalk(lines: seq<string>, i: nat)
    requires i <= FrontMatter.FirstNonBlank(lines, 0)
    ensures Walk(lines, i, i, false, Open(Readable(lines)), true) == FrontMatterBlock(lines)
    decreases |lines| - i
  {
    var k := FrontMatter.FirstNonBlank(lines, 0);
    var s := Open(Readable(lines));
    if i < k {
      TrimSpec(lines[i]);
      CorrectedPrefixWalk(lines, i + 1);
    } else if i < |lines| {
      TrimSpec(lines[i]);
      if lines[i] == Separator {
        CorrectedBlockWalk(lines, k, i + 1, s.(separatorStart := k));
      }
    }
  }

  /**
   * With positions recorded in the file, hasFrontMatter finds exactly the block
   * between the first non-blank line, when it equals the separator, and the
   * next line equal to the separator.
   */
  lemma HasFrontMatterCorrectedBlock(lines: seq<string>)
    ensures HasFrontMatterCorrected(Open(Readable(lines))) == FrontMatterBlock(lines)
  {
    CorrectedPrefixWalk(lines, 0);
  }

  /** Without blank lines the two ways of counting agree. */
  lemma {:induction false} WalkWithoutBlankLines(lines: seq<string>, i: nat, lineIndex: int, first: bool, f: SiteFile)
    requires i <= |lines|
    requires forall j :: i <= j < |lines| ==> Trim(lines[j]) != ""
    ensures Walk(lines, i, lineIndex, first, f, false) == Walk(lines, i, lineIndex, first, f, true)
    decreases |lines| - i
  {
    if i < |lines| {
      WalkWithoutBlankLines(lines, i + 1, lineIndex + 1, true, f.(separatorStart := lineIndex));
      WalkWithoutBlankLines(lines, i + 1, lineIndex + 1, first, f);
    }
  }

  /** For a file without blank lines the source's hasFrontMatter is the corrected one. */
  lemma HasFrontMatterWithoutBlankLines(f: SiteFile)
    requires f.lines.Some? && forall j :: 0 <= j < |f.lines.value| ==> Trim(f.lines.value[j]) != ""
    ensures HasFrontMatter(f) == HasFrontMatterCorrected(f)
  {
    WalkWithoutBlankLines(f.lines.value, 0, 0, false, f);
  }

  /**
   * In the source the opening separator is always recorded at index 0, since
   * only non-blank lines are counted and it is the first of them.
   */
  lemma {:induction false} WalkOpensAtZero(lines: seq<string>, i: nat, lineIndex: int, first: bool, f: SiteFile)
    requires i <= |lines|
    requires !first ==> lineIndex == 0
    requires first ==> f.separatorStart == 0
    ensures var r := Walk(lines, i, lineIndex, first, f, false);
      r.Success? && r.value.0 ==> r.value.1.separatorStart == 0
    decreases |lines| - i
  {
    if i < |lines| {
      var line := lines[i];
      if Trim(line) == "" {
        WalkOpensAtZero(lines, i + 1, lineIndex, first, f);
      } else if line == Separator && !first {
        WalkOpensAtZero(lines, i + 1, lineIndex + 1, true, f.(separatorStart := lineIndex));
      } else if line != Separator && first {
        WalkOpensAtZero(lines, i + 1, lineIndex + 1, first, f);
      }
    }
  }

  /** The source's hasFrontMatter records the opening separator at 0 whatever blank lines precede it. */
  lemma HasFrontMatterOpensAtZero(f: SiteFile)
    ensures var r := HasFrontMatter(f); r.Success? && r.value.0 ==> r.value.1.separatorStart == 0
  {
    if f.lines.Some? {
      WalkOpensAtZero(f.lines.value, 0, 0, false, f);
    }
  }

  /**
   * getContent: the lines after the closing separator (all lines when there is
   * none) joined with '\n'; the lines are then dropped, so null comes back when
   * they were never read and a later call fails once a separator was recorded.
   */
  function GetContent(f: SiteFile): (r: Result<(Option<string>, SiteFile), Exception>)
    ensures r.Success? ==> r.value.1 == f.(lines := None)
    ensures f.lines.None? ==> (r.Success? <==> f.separatorEnd < 0)
    ensures r.Success? && f.separatorEnd < 0 ==> r.value.0 == if f.lines.Some? then Some(Join(f.lines.value, '\n')) else None
    ensures f.lines.Some? && 0 <= f.separatorEnd < |f.lines.value| ==>
              r == Success((Some(Join(f.lines.value[f.separatorEnd + 1..], '\n')), f.(lines := None)))
    ensures f.lines.Some? && f.separatorEnd >= |f.lines.value| ==>
              r == Failure(IllegalArgument(CrossedRange(f.separatorEnd + 1, |f.lines.value|)))
  {
    if f.separatorEnd >= 0 then
      if f.lines.None? then Failure(NullPointer)
      else
        var rest :- SubList(f.lines.value, f.separatorEnd + 1, |f.lines.value|);
        assert rest == f.lines.value[f.separatorEnd + 1..];
        Success((Some(Join(rest, '\n')), f.(lines := None)))
    else Success((if f.lines.Some? then Some(Join(f.lines.value, '\n')) else None, f.(lines := None)))
  }

  /** Content can be taken once: the second call finds no lines. */
  lemma GetContentTwice(f: SiteFile)
    requires GetContent(f).Success?
    ensures var g := GetContent(f).value.1;
      GetContent(g) == if f.separatorEnd >= 0 then Failure(NullPointer) else Success((None, g))
  {
  }

  /**
   * With positions recorded in the file, the content is exactly the text after
   * the closing separator, and the properties are those of the lines between
   * the separators.
   */
  lemma CorrectedContent(lines: seq<string>)
    requires HasFrontMatterCorrected(Open(Readable(lines))).Success?
    requires HasFrontMatterCorrected(Open(Readable(lines))).value.0
    ensures var g := HasFrontMatterCorrected(Open(Readable(lines))).value.1;
      var k := g.separatorStart;
      var c := g.separatorEnd;
      0 <= k < c < |lines| && lines[k] == Separator && lines[c] == Separator &&
      g.properties.Some? && ReadLines(lines[k + 1..c]) == Success(g.properties.value) &&
      GetContent(g) == Success((Some(Join(lines[c + 1..], '\n')), g.(lines := None)))
  {
    HasFrontMatterCorrectedBlock(lines);
    var g := HasFrontMatterCorrected(Open(Readable(lines))).value.1;
    var k := FrontMatter.FirstNonBlank(lines, 0);
    var c := NextSeparator(lines, k + 1);
    assert g.separatorStart == k && g.separatorEnd == c && g.lines == Some(lines);
    assert c < |lines|;
    var rest := SubList(lines, c + 1, |lines|);
    assert rest.Success? && rest.value == lines[c + 1..];
  }

  /**
   * getExportPath: a non-empty `permalink` property of the front matter wins
   * over the default export path, which AbstractSiteFile computes;
   * AbstractSiteFile is not part of this model.
   */
  function GetExportPath(f: SiteFile, defaultPath: string): (r: string)
    ensures f.properties.Some? && "permalink" in f.properties.value && f.properties.value["permalink"] != "" ==>
      r == f.properties.value["permalink"]
    ensures !(f.properties.Some? && "permalink" in f.properties.value && f.properties.value["permalink"] != "") ==>
      r == defaultPath
  {
    if f.properties.Some? && "permalink" in f.properties.value && f.properties.value["permalink"] != "" then
      f.properties.value["permalink"]
    else defaultPath
  }

  /** A blank line before the front matter: the lines the source reads as properties. */
  const BlankFirst: seq<string> := ["", "---", "title: x", "---", "body"]

  lemma ReadTitleLine()
    ensures ReadLines(["title: x"]) == Success(map["title" := "x"])
  {
    KeyValueRoundTrip("title", "x");
    assert "title" + ": " + "x" == "title: x";
    TrimTrimmed("x");
    ReadLinesSnoc([], "title: x");
    assert [] + ["title: x"] == ["title: x"];
    assert ReadAll([]) == Success([]);
  }

  lemma ReadSeparatorLine()
    ensures ReadLines(["---"]) == Failure(StringIndexOutOfBounds)
  {
    TrimTrimmed("---");
    assert IndexOfChar("---", ':') == -1;
    assert ReadLine("---") == Failure(StringIndexOutOfBounds) by {
      assert !StartsWith("---", "#") && !StartsWith("---", ":");
    }
    ReadLinesSnoc([], "---");
    assert [] + ["---"] == ["---"];
  }

  /**
   * The source records the separators of BlankFirst at 0 and 2 while they sit at
   * lines 1 and 3, so it reads the opening "---" as a property line and fails.
   */
  lemma BlankLineBreaksFrontMatter()
    ensures HasFrontMatter(Open(Readable(BlankFirst))) == Failure(StringIndexOutOfBounds)
  {
    var lines := BlankFirst;
    var s := Open(Readable(lines));
    var s1 := s.(separatorStart := 0);
    assert Walk(lines, 0, 0, false, s, false) == Walk(lines, 1, 0, false, s, false) by { TrimSpec(""); }
    assert Walk(lines, 1, 0, false, s, false) == Walk(lines, 2, 1, true, s1, false) by { TrimTrimmed("---"); }
    assert Walk(lines, 2, 1, true, s1, false) == Walk(lines, 3, 2, true, s1, false) by { TrimTrimmed("title: x"); }
    assert lines[1..2] == ["---"];
    ReadSeparatorLine();
    assert Walk(lines, 3, 2, true, s1, false) == Failure(StringIndexOutOfBounds) by { TrimTrimmed("---"); }
  }

  /** Recording positions in the file, the same lines give the block at lines 1 to 3. */
  lemma BlankLineCorrectedFrontMatter()
    ensures HasFrontMatterCorrected(Open(Readable(BlankFirst))) ==
      Success((true, SiteFile(Some(BlankFirst), 1, 3, Some(map["title" := "x"]))))
  {
    var lines := BlankFirst;
    HasFrontMatterCorrectedBlock(lines);
    TrimSpec("");
    assert FrontMatter.FirstNonBlank(lines, 0) == 1 by {
      assert FrontMatter.IsBlank(lines[0]);
      SeparatorNotBlank(lines[1]);
    }
    assert NextSeparator(lines, 2) == 3;
    assert lines[2..3] == ["title: x"];
    ReadTitleLine();
  }

  /** With no blank line the same file is read correctly by the source. */
  lemma NoBlankLineFrontMatter()
    ensures HasFrontMatter(Open(Readable(BlankFirst[1..]))) ==
      Success((true, SiteFile(Some(BlankFirst[1..]), 0, 2, Some(map["title" := "x"]))))
  {
    var lines := BlankFirst[1..];
    assert lines == ["---", "title: x", "---", "body"];
    TrimTrimmed("---");
    TrimTrimmed("title: x");
    TrimTrimmed("body");
    assert forall j :: 0 <= j < |lines| ==> Trim(lines[j]) != "";
    HasFrontMatterWithoutBlankLines(Open(Readable(lines)));
    HasFrontMatterCorrectedBlock(lines);
    assert FrontMatter.FirstNonBlank(lines, 0) == 0 by { SeparatorNotBlank(lines[0]); }
    assert NextSeparator(lines, 1) == 2;
    assert lines[1..2] == ["title: x"];
    ReadTitleLine();
  }
}
