/**
 * Resources of a site: the export path every resource derives from its
 * file, and the renderable resource that memoises its content and rewrites
 * its extension once it has been converted.
 */
module Resources {
  import opened Wrappers
  import opened JavaLang
  import opened YmlConfig
  import opened Converters

  /**
   * `getBasePath`: the file's absolute path with the root path removed from
   * its front when it is there. A null file or null root is dereferenced.
   */
  function BasePath(file: Option<string>, root: Option<string>): (r: Result<string, Exception>)
    ensures r.Success? <==> file.Some? && root.Some?
    ensures r.Failure? ==> r.error == NullPointer
  {
    if file.None? || root.None? then Failure(NullPointer)
    else Success(RemovePrefix(file.value, root.value))
  }

  /** The export path is the absolute path less its root, or the whole path outside the root. */
  lemma BasePathSpec(file: string, root: string)
    ensures var r := BasePath(Some(file), Some(root));
            r.Success? && EndsWith(file, r.value) &&
            (StartsWith(file, root) ==> file == root + r.value) &&
            (!StartsWith(file, root) ==> r.value == file)
  {
  }

  /** A path built under the root comes back as the relative part. */
  lemma BasePathRoundTrip(root: string, relative: string)
    ensures BasePath(Some(root + relative), Some(root)) == Success(relative)
  {
    assert StartsWith(root + relative, root) by {
      assert (root + relative)[..|root|] == root;
    }
  }

  /**
   * A resource with front matter, rendered through a converter. `path` is
   * the export path; the two contents are null until first computed.
   */
  datatype Renderable = Renderable(
    file: string,
    path: string,
    frontMatter: Option<Properties>,
    matterEndingLine: int,
    originalContent: Option<string>,
    convertedContent: Option<string>)

  /** The constructor: the export path is fixed from the file and the root. */
  function NewRenderable(file: Option<string>, root: Option<string>, frontMatter: Option<Properties>,
                         matterEndingLine: int): (r: Result<Renderable, Exception>)
    ensures r.Success? <==> file.Some? && root.Some?
    ensures r.Success? ==>
              r.value.path == BasePath(file, root).value && r.value.frontMatter == frontMatter &&
              r.value.originalContent.None? && r.value.convertedContent.None?
  {
    var path :- BasePath(file, root);
    Success(Renderable(file.value, path, frontMatter, matterEndingLine, None, None))
  }

  /**
   * `getOriginalContent`: the lines after the front matter joined by
   * newlines, read from `text` on the first call and remembered after it.
   */
  function OriginalContent(r: Renderable, text: FileText): Result<(string, Renderable), Exception>
  {
    if r.originalContent.Some? then Success((r.originalContent.value, r))
    else if text.Unreadable? then Failure(IOFailure)
    else
      var body :- SubList(text.lines, r.matterEndingLine, |text.lines|);
      var content := Join(body, '\n');
      Success((content, r.(originalContent := Some(content))))
  }

  /**
   * On a fresh resource the content is the body after line `matterEndingLine`;
   * an ending line outside the file fails as `subList` does.
   */
  lemma OriginalContentSpec(r: Renderable, lines: seq<string>)
    requires r.originalContent.None?
    ensures var o := OriginalContent(r, Readable(lines));
            o.Success? <==> 0 <= r.matterEndingLine <= |lines|
    ensures var o := OriginalContent(r, Readable(lines));
            o.Success? ==>
              o.value.0 == Join(lines[r.matterEndingLine..], '\n') &&
              o.value.1 == r.(originalContent := Some(o.value.0))
    ensures OriginalContent(r, Unreadable) == Failure(IOFailure)
  {
    var o := OriginalContent(r, Readable(lines));
    if o.Success? {
      var body := SubList(lines, r.matterEndingLine, |lines|);
      assert body.value == lines[r.matterEndingLine..];
    }
  }

  /** Once read, the original content is returned again without reading the file. */
  lemma OriginalContentMemo(r: Renderable, first: FileText, later: FileText)
    requires OriginalContent(r, first).Success?
    ensures var (c, r') := OriginalContent(r, first).value;
            r'.originalContent == Some(c) && OriginalContent(r', later) == Success((c, r'))
  {
  }

  /**
   * `getConvertedContent(templateData)`: on the first call, converts the
   * original content with the converter chosen for the file and rewrites the
   * export path with that converter's extension mapping; later calls return
   * the stored text. `page` is the template data's page as `ConvertFor`
   * takes it: `None` when no page is set.
   */
  function ConvertedContent(r: Renderable, text: FileText, converter: Converter,
                            page: Option<Option<string>>, markdown: Markdown): Result<(string, Renderable), Exception>
  {
    if r.convertedContent.Some? then Success((r.convertedContent.value, r))
    else
      var original :- OriginalContent(r, text);
      var converted :- ConvertFor(converter, original.0, page, markdown);
      var r' := original.1;
      Success((converted, r'.(convertedContent := Some(converted),
                              path := UpdatePath(r'.path, ExtensionMappings(converter)))))
  }

  /**
   * The first conversion converts the original content and rewrites the
   * extension once; the read fails before the converter is reached.
   */
  lemma ConvertedContentSpec(r: Renderable, text: FileText, converter: Converter,
                             hardwrap: Option<string>, markdown: Markdown)
    requires r.convertedContent.None?
    ensures var c := ConvertedContent(r, text, converter, Some(hardwrap), markdown);
            c.Success? <==> OriginalContent(r, text).Success?
    ensures var c := ConvertedContent(r, text, converter, Some(hardwrap), markdown);
            c.Success? ==>
              var (original, _) := OriginalContent(r, text).value;
              c.value.0 == Convert(converter, original, hardwrap, markdown) &&
              c.value.1.path == UpdatePath(r.path, ExtensionMappings(converter)) &&
              c.value.1.convertedContent == Some(c.value.0) &&
              c.value.1.originalContent == Some(original)
  {
  }

  /**
   * With no page in the template data, as while a listing page is built, a
   * markdown resource not yet converted cannot be converted: the read fails
   * first, or the converter dereferences the missing page. A converted
   * resource still returns its stored text.
   */
  lemma ConvertedContentWithoutPage(r: Renderable, text: FileText, markdown: Markdown)
    ensures r.convertedContent.Some? ==>
              ConvertedContent(r, text, MarkdownConverter, None, markdown) == Success((r.convertedContent.value, r))
    ensures r.convertedContent.None? ==>
              var o := OriginalContent(r, text);
              ConvertedContent(r, text, MarkdownConverter, None, markdown) ==
                Failure(if o.Failure? then o.error else NullPointer)
  {
  }

  /**
   * Later calls return the first result and leave the resource as it is, so
   * the extension is rewritten at most once whatever converter they name.
   */
  lemma ConvertedContentMemo(r: Renderable, text: FileText, converter: Converter, page: Option<Option<string>>,
                             markdown: Markdown, text': FileText, converter': Converter,
                             page': Option<Option<string>>, markdown': Markdown)
    requires ConvertedContent(r, text, converter, page, markdown).Success?
    ensures var (c, r') := ConvertedContent(r, text, converter, page, markdown).value;
            ConvertedContent(r', text', converter', page', markdown') == Success((c, r'))
  {
  }

  /** A resource rendered by the identity converter keeps its content and its export path, page or none. */
  lemma DoNothingKeepsPath(r: Renderable, lines: seq<string>, page: Option<Option<string>>, markdown: Markdown)
    requires r.originalContent.None? && r.convertedContent.None?
    requires 0 <= r.matterEndingLine <= |lines|
    ensures var c := ConvertedContent(r, Readable(lines), DoNothingConverter, page, markdown);
            c.Success? && c.value.1.path == r.path &&
            c.value.0 == Join(lines[r.matterEndingLine..], '\n')
  {
    OriginalContentSpec(r, lines);
  }

  /** A markdown page ends up exported under `.html`. */
  lemma MarkdownExportsHtml(r: Renderable, text: FileText, hardwrap: Option<string>, markdown: Markdown, stem: string)
    requires r.convertedContent.None? && r.path == stem + ".md"
    requires OriginalContent(r, text).Success?
    ensures ConvertedContent(r, text, MarkdownConverter, Some(hardwrap), markdown).value.1.path == stem + ".html"
  {
    MarkdownMappingsOrderFree(r.path);
    MarkdownBecomesHtml(stem);
  }

  /** `getFrontMatterProperty`: null without front matter, else the property's value or null. */
  function FrontMatterProperty(r: Renderable, name: string): (v: Option<string>)
    ensures v.Some? <==> r.frontMatter.Some? && name in r.frontMatter.value
    ensures v.Some? ==> v.value == r.frontMatter.value[name]
  {
    if r.frontMatter.None? then None
    else if name in r.frontMatter.value then Some(r.frontMatter.value[name])
    else None
  }

  /** A resource whose content is produced by the builder rather than read from a file. */
  datatype Generated = Generated(path: string, content: string)

  /**
   * The `GeneratedResource` constructor as written: it passes a null file and
   * root to the base constructor, which dereferences the null file.
   */
  function NewGenerated(path: string, content: string): Result<Generated, Exception>
  {
    match BasePath(None, None)
    case Failure(e) => Failure(e)
    case Success(_) => Success(Generated(path, content))
  }

  /** As written, no generated resource can be created. */
  lemma GeneratedAlwaysFails(path: string, content: string)
    ensures NewGenerated(path, content) == Failure(NullPointer)
  {
  }

  /** The constructor as intended: the given path and content, with no file behind them. */
  function NewGeneratedCorrected(path: string, content: string): (r: Result<Generated, Exception>)
    ensures r.Success? && r.value.path == path && r.value.content == content
  {
    Success(Generated(path, content))
  }
}
