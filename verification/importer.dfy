/**
 * The blog importer's output: each imported post or page becomes a file
 * whose front matter carries its layout, title, permalink, date and, for
 * posts, its tags and categories, followed by its content.
 */
module Importer {
  import opened Wrappers
  import opened JavaLang
  import opened YmlConfig
  import opened FrontMatter

  /**
   * A post as the blog parser returns it; `publishedOn` is the date as
   * Java prints it, which is not part of this model.
   */
  datatype BlogPost = BlogPost(url: Option<string>, title: Option<string>, publishedOn: string,
                               tags: Option<seq<string>>, categories: Option<seq<string>>, content: Option<string>)

  datatype BlogPage = BlogPage(url: Option<string>, title: Option<string>, publishedOn: string, content: Option<string>)

  /** A file the importer writes: its name in the export folder and its text. */
  datatype ImportedFile = ImportedFile(name: string, text: string)

  /**
   * `removeSchemeAndDomain`: the text after the first "/" that follows
   * "://" (searched from position 2 when there is no "://"); the whole URL
   * when there is no such "/".
   */
  function RemoveSchemeAndDomain(url: string): (r: string)
    ensures EndsWith(url, r)
  {
    var index := IndexOf(url, "://");
    var slash := IndexOfCharFrom(url, '/', index + 3);
    assert url[|url| - |url[slash + 1..]|..] == url[slash + 1..];
    url[slash + 1..]
  }

  /** A URL of the usual shape loses its scheme and host, and keeps the path. */
  lemma RemoveSchemeAndDomainSpec(scheme: string, host: string, path: string)
    requires ':' !in scheme && '/' !in host
    ensures RemoveSchemeAndDomain(scheme + "://" + host + "/" + path) == path
  {
    var url := scheme + "://" + host + "/" + path;
    var s := |scheme|;
    assert OccursAt(url, "://", s) by { assert url[s..s + 3] == "://"; }
    forall k | 0 <= k < s
      ensures !OccursAt(url, "://", k)
    {
      assert url[k] == scheme[k];
    }
    assert IndexOf(url, "://") == s;
    var slash := s + 3 + |host|;
    assert url[slash] == '/';
    forall k | s + 3 <= k < slash
      ensures url[k] != '/'
    {
      assert url[k] == host[k - s - 3];
    }
    assert IndexOfCharFrom(url, '/', s + 3) == slash;
    assert url[slash + 1..] == path;
  }

  /** With no "/" after the host the whole URL is kept. */
  lemma NoPathKeepsUrl(scheme: string, host: string)
    requires ':' !in scheme && '/' !in host
    ensures RemoveSchemeAndDomain(scheme + "://" + host) == scheme + "://" + host
  {
    var url := scheme + "://" + host;
    var s := |scheme|;
    assert OccursAt(url, "://", s) by { assert url[s..s + 3] == "://"; }
    forall k | 0 <= k < s
      ensures !OccursAt(url, "://", k)
    {
      assert url[k] == scheme[k];
    }
    assert IndexOf(url, "://") == s;
    forall k | s + 3 <= k < |url|
      ensures url[k] != '/'
    {
      assert url[k] == host[k - s - 3];
    }
    assert IndexOfCharFrom(url, '/', s + 3) == -1;
  }

  /** The file name: the text after the last "/" of the URL. */
  function FileName(url: string): (name: string)
    ensures EndsWith(url, name) && '/' !in name
    ensures |name| < |url| ==> url[|url| - |name| - 1] == '/'
  {
    var index := LastIndexOfChar(url, '/');
    var name := url[index + 1..];
    assert url[|url| - |name|..] == name;
    assert forall k :: 0 <= k < |name| ==> name[k] == url[index + 1 + k];
    name
  }

  // ---------------------------------------------------------------------------
  // appendLine

  /** The separator form of `appendLine` writes the values as its loop does: a separator before every value but the first. */
  function WriteValues(values: seq<string>, sep: char): string
  {
    if |values| == 0 then ""
    else
      var init := values[..|values| - 1];
      WriteValues(init, sep) + (if |init| > 0 then [sep] else []) + values[|values| - 1]
  }

  lemma {:induction false} JoinSnoc(values: seq<string>, v: string, sep: char)
    requires |values| > 0
    ensures Join(values + [v], sep) == Join(values, sep) + [sep] + v
  {
    if |values| == 1 {
      assert (values + [v])[1..] == [v];
    } else {
      assert (values + [v])[1..] == values[1..] + [v];
      JoinSnoc(values[1..], v, sep);
    }
  }

  /** The loop writes exactly the values joined by the separator. */
  lemma {:induction false} WriteValuesIsJoin(values: seq<string>, sep: char)
    ensures WriteValues(values, sep) == Join(values, sep)
  {
    if |values| > 0 {
      var init := values[..|values| - 1];
      WriteValuesIsJoin(init, sep);
      assert values == init + [values[|values| - 1]];
      if |init| > 0 {
        JoinSnoc(init, values[|values| - 1], sep);
      }
    }
  }

  /** A metadata line: the key, a colon and a blank, then the value. */
  function MetaLine(key: string, value: string): string
  {
    key + ": " + value
  }

  /** `appendLine(writer, prefix, values, separator)`, without the line break. */
  function ListLine(key: string, values: seq<string>, sep: char): string
  {
    MetaLine(key, WriteValues(values, sep))
  }

  /** The separator tags and categories are written with. */
  const ListSeparator := ';'

  // ---------------------------------------------------------------------------
  // Posts and pages

  /** The front-matter pairs of a post, in the order they are written. */
  function PostMeta(post: BlogPost, url: string, layoutName: Option<string>, asWritten: bool): Result<seq<(string, string)>, Exception>
  {
    var head := [("layout", ValueOf(layoutName)), ("title", ValueOf(post.title)), ("permalink", url), ("date", post.publishedOn)];
    var tags := if post.tags.Some? then [("tags", WriteValues(post.tags.value, ListSeparator))] else [];
    if post.categories.None? then Success(head + tags)
    else if asWritten then
      if post.tags.None? then Failure(NullPointer)
      else Success(head + tags + [("categories", WriteValues(post.tags.value, ListSeparator))])
    else Success(head + tags + [("categories", WriteValues(post.categories.value, ListSeparator))])
  }

  function MetaLines(meta: seq<(string, string)>): (lines: seq<string>)
    ensures |lines| == |meta|
    ensures forall i :: 0 <= i < |meta| ==> lines[i] == MetaLine(meta[i].0, meta[i].1)
  {
    seq(|meta|, i requires 0 <= i < |meta| => MetaLine(meta[i].0, meta[i].1))
  }

  /** The lines of an imported file: the front matter between marker lines, then the content. */
  function FileLines(meta: seq<(string, string)>, content: Option<string>): seq<string>
  {
    [Marker] + MetaLines(meta) + [Marker] + [ValueOf(content)]
  }

  /** The text written: every line followed by the platform's line separator. */
  function Text(lines: seq<string>, newLine: string): string
  {
    if |lines| == 0 then "" else Text(lines[..|lines| - 1], newLine) + lines[|lines| - 1] + newLine
  }

  /**
   * Reading the written text back line by line gives the written lines
   * again, when none of them holds a line terminator of its own; whatever
   * follows is read on from there.
   */
  lemma TextReadsBack(lines: seq<string>, newLine: string, rest: string)
    requires IsLineSeparator(newLine) && forall k :: 0 <= k < |lines| ==> OnOneLine(lines[k])
    ensures ReaderLines(Text(lines, newLine) + rest) == lines + ReaderLines(rest)
  {
    forall line, more | OnOneLine(line)
      ensures ReaderLines(line + newLine + more) == [line] + ReaderLines(more)
    {
      ReadOneLine(line, newLine, more);
    }
    ReadsBackWith(ReaderLines, lines, newLine, rest);
  }

  /**
   * The same for any reader that reads a one-line string and a separator
   * as that line, then reads on after the separator.
   */
  lemma {:induction false} ReadsBackWith(read: string -> seq<string>, lines: seq<string>, newLine: string, rest: string)
    requires forall k :: 0 <= k < |lines| ==> OnOneLine(lines[k])
    requires forall line, more :: OnOneLine(line) ==> read(line + newLine + more) == [line] + read(more)
    ensures read(Text(lines, newLine) + rest) == lines + read(rest)
    decreases |lines|
  {
    if |lines| == 0 {
      assert Text(lines, newLine) + rest == rest;
    } else {
      var init, last := lines[..|lines| - 1], lines[|lines| - 1];
      var rest' := last + newLine + rest;
      TextLastLine(lines, newLine, rest);
      ReadsBackWith(read, init, newLine, rest');
      assert read(rest') == [last] + read(rest);
      assert lines == init + [last];
    }
  }

  /** The written text of several lines is the text of all but the last, then the last line and its separator. */
  lemma TextLastLine(lines: seq<string>, newLine: string, rest: string)
    requires |lines| > 0
    ensures Text(lines, newLine) + rest == Text(lines[..|lines| - 1], newLine) + (lines[|lines| - 1] + newLine + rest)
  {
    var prefix := Text(lines[..|lines| - 1], newLine);
    var last := lines[|lines| - 1];
    assert Text(lines, newLine) == prefix + last + newLine;
    assert prefix + last + newLine + rest == prefix + (last + newLine + rest);
  }

  /**
   * `writeEachPost`: nothing for a post without a URL; otherwise its file,
   * named after the last segment of its path. As written, the categories
   * line repeats the tags, and a post with categories but no tags fails.
   */
  function WriteEachPost(post: BlogPost, layoutName: Option<string>, newLine: string, asWritten: bool): (r: Result<Option<ImportedFile>, Exception>)
    ensures post.url.None? ==> r == Success(None)
    ensures !asWritten ==> r.Success?
    ensures r.Success? && post.url.Some? ==>
              r.value.Some? && r.value.value.name == FileName(RemoveSchemeAndDomain(post.url.value))
  {
    if post.url.None? then Success(None)
    else
      var url := RemoveSchemeAndDomain(post.url.value);
      var meta :- PostMeta(post, url, layoutName, asWritten);
      Success(Some(ImportedFile(FileName(url), Text(FileLines(meta, post.content), newLine))))
  }

  /** `writeEachPage`: the same without tags and categories. */
  function WriteEachPage(page: BlogPage, layoutName: Option<string>, newLine: string): (r: Option<ImportedFile>)
    ensures page.url.None? ==> r.None?
    ensures page.url.Some? ==> r.Some? && r.value.name == FileName(RemoveSchemeAndDomain(page.url.value))
  {
    if page.url.None? then None
    else
      var url := RemoveSchemeAndDomain(page.url.value);
      var meta := [("layout", ValueOf(layoutName)), ("title", ValueOf(page.title)), ("permalink", url), ("date", page.publishedOn)];
      Some(ImportedFile(FileName(url), Text(FileLines(meta, page.content), newLine)))
  }

  // ---------------------------------------------------------------------------
  // The front matter reads back

  /** A key `readLine` can give back: not blank-edged, no colon, not a comment. */
  predicate PlainKey(key: string)
  {
    key != [] && IsTrimmed(key) && ':' !in key && key[0] != '#' && key[0] != '-'
  }

  /** The properties the pairs should give: each key with its trimmed value, the last one winning. */
  function Expected(meta: seq<(string, string)>): Properties
  {
    if |meta| == 0 then map[]
    else Expected(meta[..|meta| - 1])[meta[|meta| - 1].0 := Trim(meta[|meta| - 1].1)]
  }

  /** Metadata lines read back as the pairs they were written from. */
  lemma {:induction false} MetaLinesReadBack(meta: seq<(string, string)>)
    requires forall i :: 0 <= i < |meta| ==> PlainKey(meta[i].0)
    ensures ReadLines(MetaLines(meta)) == Success(Expected(meta))
  {
    if |meta| == 0 {
      assert MetaLines(meta) == [];
    } else {
      var init := meta[..|meta| - 1];
      var (key, value) := meta[|meta| - 1];
      MetaLinesReadBack(init);
      assert MetaLines(meta) == MetaLines(init) + [MetaLine(key, value)];
      ReadLinesSnoc(MetaLines(init), MetaLine(key, value));
      KeyValueRoundTrip(key, value);
    }
  }

  /** Every pair is its key with its trimmed value, unless a later pair uses the same key. */
  lemma {:induction false} ExpectedAt(meta: seq<(string, string)>, i: nat)
    requires i < |meta|
    requires forall j :: i < j < |meta| ==> meta[j].0 != meta[i].0
    ensures meta[i].0 in Expected(meta) && Expected(meta)[meta[i].0] == Trim(meta[i].1)
  {
    if i < |meta| - 1 {
      ExpectedAt(meta[..|meta| - 1], i);
    }
  }

  /** Pairs that can be written as front-matter lines and read back: plain keys, nothing spanning lines. */
  predicate OneLinePairs(meta: seq<(string, string)>)
  {
    forall i :: 0 <= i < |meta| ==> PlainKey(meta[i].0) && OnOneLine(meta[i].0) && OnOneLine(meta[i].1)
  }

  /** Read back line by line, a written file gives its front-matter lines, then the lines of its content. */
  lemma WrittenLines(meta: seq<(string, string)>, content: Option<string>, newLine: string)
    requires OneLinePairs(meta) && IsLineSeparator(newLine)
    ensures ReaderLines(Text(FileLines(meta, content), newLine)) ==
              [Marker] + MetaLines(meta) + [Marker] + ReaderLines(ValueOf(content) + newLine)
  {
    var head := [Marker] + MetaLines(meta) + [Marker];
    var last := ValueOf(content);
    assert FileLines(meta, content) == head + [last];
    assert (head + [last])[..|head|] == head;
    assert Text(FileLines(meta, content), newLine) == Text(head, newLine) + (last + newLine);
    forall k | 0 <= k < |head|
      ensures OnOneLine(head[k])
    {
      if 0 < k < |head| - 1 {
        assert head[k] == MetaLine(meta[k - 1].0, meta[k - 1].1);
      }
    }
    TextReadsBack(head, newLine, last + newLine);
  }

  /**
   * A written file, read back line by line, opens with front matter that the
   * front-matter scan recognises: it spans the metadata lines and the two
   * markers, and its properties are the written pairs with trimmed values.
   */
  lemma FrontMatterReadsBack(meta: seq<(string, string)>, content: Option<string>, newLine: string)
    requires OneLinePairs(meta) && IsLineSeparator(newLine)
    ensures ScanFrontMatter(ReaderLines(Text(FileLines(meta, content), newLine))) ==
              Success(Scan(|meta| + 2, Expected(meta)))
  {
    var body := MetaLines(meta);
    var rest := ReaderLines(ValueOf(content) + newLine);
    var blanks: seq<string> := [];
    WrittenLines(meta, content, newLine);
    assert blanks + [Marker] == [Marker];
    MetaLinesReadBack(meta);
    MetaLinesNoMarker(meta);
    assert StartsWith(Marker, Marker);
    ScanOfBlock(blanks, Marker, body, Marker, rest);
  }

  lemma MetaLinesNoMarker(meta: seq<(string, string)>)
    requires forall i :: 0 <= i < |meta| ==> PlainKey(meta[i].0)
    ensures forall i :: 0 <= i < |MetaLines(meta)| ==> !StartsWith(MetaLines(meta)[i], Marker)
  {
    forall i | 0 <= i < |meta|
      ensures !StartsWith(MetaLines(meta)[i], Marker)
    {
      MetaLineNotMarker(meta[i].0, meta[i].1);
    }
  }

  lemma MetaLineNotMarker(key: string, value: string)
    requires PlainKey(key)
    ensures !StartsWith(MetaLine(key, value), Marker)
  {
    assert MetaLine(key, value)[0] == key[0];
  }

  /** The keys a post is written with, in order. */
  const PostKeys: seq<string> := ["layout", "title", "permalink", "date", "tags", "categories"]

  /** A post's pairs use the post keys, each at most once and in that order. */
  lemma PostMetaKeys(post: BlogPost, url: string, layoutName: Option<string>, asWritten: bool)
    requires PostMeta(post, url, layoutName, asWritten).Success?
    ensures var meta := PostMeta(post, url, layoutName, asWritten).value;
            4 <= |meta| <= 6 &&
            (forall i :: 0 <= i < 4 ==> meta[i].0 == PostKeys[i]) &&
            (|meta| == 5 ==> meta[4].0 == PostKeys[4] || meta[4].0 == PostKeys[5]) &&
            (|meta| == 6 ==> meta[4].0 == PostKeys[4] && meta[5].0 == PostKeys[5])
  {
  }

  lemma PostKeysPlain()
    ensures forall k :: 0 <= k < |PostKeys| ==> PlainKey(PostKeys[k])
  {
    assert PlainKey("layout") && PlainKey("title") && PlainKey("permalink");
    assert PlainKey("date") && PlainKey("tags") && PlainKey("categories");
  }

  /** A post whose URL, layout, title, date, tags and categories each fit on one line. */
  predicate PostOnOneLine(post: BlogPost, layoutName: Option<string>)
  {
    post.url.Some? && OnOneLine(post.url.value) && OnOneLine(ValueOf(layoutName)) &&
    OnOneLine(ValueOf(post.title)) && OnOneLine(post.publishedOn) &&
    (post.tags.Some? ==> forall k :: 0 <= k < |post.tags.value| ==> OnOneLine(post.tags.value[k])) &&
    (post.categories.Some? ==> forall k :: 0 <= k < |post.categories.value| ==> OnOneLine(post.categories.value[k]))
  }

  /** Values on one line, written with the list separator, stay on one line. */
  lemma {:induction false} WriteValuesOnOneLine(values: seq<string>)
    requires forall k :: 0 <= k < |values| ==> OnOneLine(values[k])
    ensures OnOneLine(WriteValues(values, ListSeparator))
  {
    if |values| > 0 {
      var init := values[..|values| - 1];
      WriteValuesOnOneLine(init);
      var before := WriteValues(init, ListSeparator) + (if |init| > 0 then [ListSeparator] else []);
      assert OnOneLine(before);
      assert WriteValues(values, ListSeparator) == before + values[|values| - 1];
    }
  }

  /** Pairs that fit on one line, joined, still fit. */
  lemma OneLinePairsAppend(a: seq<(string, string)>, b: seq<(string, string)>)
    requires OneLinePairs(a) && OneLinePairs(b)
    ensures OneLinePairs(a + b)
  {
    assert forall i :: 0 <= i < |a + b| ==> (a + b)[i] == if i < |a| then a[i] else b[i - |a|];
  }

  /** The pairs of a post that fits on one line can be written and read back. */
  lemma PostMetaOneLine(post: BlogPost, layoutName: Option<string>)
    requires PostOnOneLine(post, layoutName)
    ensures OneLinePairs(PostMeta(post, RemoveSchemeAndDomain(post.url.value), layoutName, false).value)
  {
    var url := RemoveSchemeAndDomain(post.url.value);
    assert OnOneLine(url) by {
      assert forall k :: 0 <= k < |url| ==> url[k] == post.url.value[|post.url.value| - |url| + k];
    }
    PostKeysPlain();
    forall k | 0 <= k < |PostKeys|
      ensures OnOneLine(PostKeys[k])
    {
    }
    var head := [("layout", ValueOf(layoutName)), ("title", ValueOf(post.title)), ("permalink", url), ("date", post.publishedOn)];
    assert OneLinePairs(head) by {
      assert forall k :: 0 <= k < 4 ==> head[k].0 == PostKeys[k];
    }
    var tags := if post.tags.Some? then [("tags", WriteValues(post.tags.value, ListSeparator))] else [];
    assert OneLinePairs(tags) by {
      if post.tags.Some? {
        WriteValuesOnOneLine(post.tags.value);
        assert tags[0].0 == PostKeys[4];
      }
    }
    var categories := if post.categories.Some? then [("categories", WriteValues(post.categories.value, ListSeparator))] else [];
    assert OneLinePairs(categories) by {
      if post.categories.Some? {
        WriteValuesOnOneLine(post.categories.value);
        assert categories[0].0 == PostKeys[5];
      }
    }
    OneLinePairsAppend(head, tags);
    OneLinePairsAppend(head + tags, categories);
    assert PostMeta(post, url, layoutName, false) == Success(head + tags + categories) by {
      if post.categories.None? {
        assert head + tags + categories == head + tags;
      }
    }
  }

  /** A corrected post's file holds the text of its front-matter pairs and its content. */
  lemma PostFileText(post: BlogPost, layoutName: Option<string>, newLine: string)
    requires post.url.Some?
    ensures var meta := PostMeta(post, RemoveSchemeAndDomain(post.url.value), layoutName, false);
            meta.Success? &&
            WriteEachPost(post, layoutName, newLine, false) ==
              Success(Some(ImportedFile(FileName(RemoveSchemeAndDomain(post.url.value)),
                                        Text(FileLines(meta.value, post.content), newLine))))
  {
  }

  /** A written post's file, read back line by line, scans to the pairs it was written from. */
  lemma PostFrontMatterReadsBack(post: BlogPost, layoutName: Option<string>, newLine: string)
    requires PostOnOneLine(post, layoutName) && IsLineSeparator(newLine)
    ensures var file := WriteEachPost(post, layoutName, newLine, false).value.value;
            var meta := PostMeta(post, RemoveSchemeAndDomain(post.url.value), layoutName, false).value;
            ScanFrontMatter(ReaderLines(file.text)) == Success(Scan(|meta| + 2, Expected(meta)))
  {
    PostMetaReadsBack(post, layoutName, newLine);
    PostFileText(post, layoutName, newLine);
  }

  /** The pairs of a post that fits on one line, written out with its content, read back as themselves. */
  lemma PostMetaReadsBack(post: BlogPost, layoutName: Option<string>, newLine: string)
    requires PostOnOneLine(post, layoutName) && IsLineSeparator(newLine)
    ensures var meta := PostMeta(post, RemoveSchemeAndDomain(post.url.value), layoutName, false).value;
            ScanFrontMatter(ReaderLines(Text(FileLines(meta, post.content), newLine)))
              == Success(Scan(|meta| + 2, Expected(meta)))
  {
    PostMetaOneLine(post, layoutName);
    FrontMatterReadsBack(PostMeta(post, RemoveSchemeAndDomain(post.url.value), layoutName, false).value,
                         post.content, newLine);
  }

  /** The pairs of a corrected post with tags and categories hold its title, permalink, tags and categories. */
  lemma PostExpected(post: BlogPost, layoutName: Option<string>)
    requires post.url.Some? && post.tags.Some? && post.categories.Some?
    ensures var url := RemoveSchemeAndDomain(post.url.value);
            var props := Expected(PostMeta(post, url, layoutName, false).value);
            "title" in props && props["title"] == Trim(ValueOf(post.title)) &&
            "permalink" in props && props["permalink"] == Trim(url) &&
            "tags" in props && props["tags"] == Trim(Join(post.tags.value, ListSeparator)) &&
            "categories" in props && props["categories"] == Trim(Join(post.categories.value, ListSeparator))
  {
    var url := RemoveSchemeAndDomain(post.url.value);
    var meta := PostMeta(post, url, layoutName, false).value;
    assert |meta| == 6;
    WriteValuesIsJoin(post.tags.value, ListSeparator);
    WriteValuesIsJoin(post.categories.value, ListSeparator);
    ExpectedAt(meta, 1);
    ExpectedAt(meta, 2);
    ExpectedAt(meta, 4);
    ExpectedAt(meta, 5);
  }

  /**
   * The front matter of a corrected post's file, read back line by line,
   * holds its title, permalink, tags and categories, each as written.
   */
  lemma PostProperties(post: BlogPost, layoutName: Option<string>, newLine: string)
    requires PostOnOneLine(post, layoutName) && IsLineSeparator(newLine)
    requires post.tags.Some? && post.categories.Some?
    ensures var file := WriteEachPost(post, layoutName, newLine, false).value.value;
            var scan := ScanFrontMatter(ReaderLines(file.text));
            var url := RemoveSchemeAndDomain(post.url.value);
            scan.Success? &&
            var props := scan.value.properties;
            "title" in props && props["title"] == Trim(ValueOf(post.title)) &&
            "permalink" in props && props["permalink"] == Trim(url) &&
            "tags" in props && props["tags"] == Trim(Join(post.tags.value, ListSeparator)) &&
            "categories" in props && props["categories"] == Trim(Join(post.categories.value, ListSeparator))
  {
    PostFrontMatterReadsBack(post, layoutName, newLine);
    PostExpected(post, layoutName);
  }

  /** As written, a post tagged "a" in category "b" gets "a" as its categories, and one with categories but no tags fails. */
  lemma CategoriesFromTags(url: string, layoutName: Option<string>)
    ensures var post := BlogPost(Some(url), None, "", Some(["a"]), Some(["b"]), None);
            var u := RemoveSchemeAndDomain(url);
            Expected(PostMeta(post, u, layoutName, true).value)["categories"] == "a"
    ensures var post := BlogPost(Some(url), None, "", None, Some(["b"]), None);
            WriteEachPost(post, layoutName, "\n", true) == Failure(NullPointer)
  {
    assert WriteValues(["a"], ListSeparator) == "a" by {
      assert ["a"][..0] == [];
    }
    assert IsTrimmed("a");
    TrimTrimmed("a");
  }
}
