/**
 * The two content converters: markdown through pegdown, and the identity
 * converter used for files of no recognised type. The markdown-to-HTML
 * conversion itself is a parameter of the model.
 */
module Converters {
  import opened Wrappers
  import opened JavaLang

  /** The pegdown extension sets the site builder instantiates processors with. */
  datatype Flavour =
    | AllExtensions        // `Extensions.ALL`, hard line wraps included
    | AllButHardwraps      // `Extensions.ALL ^ Extensions.HARDWRAPS`

  /** pegdown's `markdownToHtml` for a processor of the given flavour. */
  type Markdown = (Flavour, string) -> string

  datatype Converter = MarkdownConverter | DoNothingConverter

  /** Extension rewrites in the order the mapping is iterated: (suffix, replacement). */
  type Mappings = seq<(string, string)>

  const MarkdownMappings: Mappings := [(".md", ".html"), (".markdown", ".html")]

  /** `getExtensionMappings`: null for the identity converter. */
  function ExtensionMappings(c: Converter): Option<Mappings>
  {
    match c
    case MarkdownConverter => Some(MarkdownMappings)
    case DoNothingConverter => None
  }

  /**
   * The processor a page's `hardwrap` property selects: the one with hard
   * wraps exactly when the property is "true" in any letter case.
   */
  function SelectFlavour(hardwrap: Option<string>): (f: Flavour)
    ensures f == AllExtensions <==> hardwrap.Some? && LowerCase(hardwrap.value) == "true"
  {
    if EqualsIgnoreCase("true", hardwrap) then AllExtensions else AllButHardwraps
  }

  /** `convert(content, templateData)`, given the page's `hardwrap` property. */
  function Convert(c: Converter, content: string, hardwrap: Option<string>, markdown: Markdown): (r: string)
    ensures c.DoNothingConverter? ==> r == content
    ensures c.MarkdownConverter? && hardwrap.None? ==> r == markdown(AllButHardwraps, content)
  {
    match c
    case MarkdownConverter => markdown(SelectFlavour(hardwrap), content)
    case DoNothingConverter => content
  }

  /**
   * `convert(content, templateData)` where the template data may hold no
   * page (`None`); otherwise `Some` of the page's `hardwrap` property. The
   * markdown converter reads that property and so dereferences a missing
   * page; the identity converter never looks at the template data.
   */
  function ConvertFor(c: Converter, content: string, page: Option<Option<string>>, markdown: Markdown): (r: Result<string, Exception>)
    ensures r.Failure? <==> page.None? && c.MarkdownConverter?
    ensures r.Failure? ==> r.error == NullPointer
    ensures page.Some? ==> r == Success(Convert(c, content, page.value, markdown))
    ensures c.DoNothingConverter? ==> r == Success(content)
  {
    match c
    case MarkdownConverter =>
      if page.None? then Failure(NullPointer) else Success(markdown(SelectFlavour(page.value), content))
    case DoNothingConverter => Success(content)
  }

  /** The one-argument markdown `convert`, which never honours hard wraps. */
  function ConvertPlain(content: string, markdown: Markdown): (r: string)
    ensures forall h :: h != Some("true") && LowerCase(ValueOf(h)) != "true" ==>
              r == Convert(MarkdownConverter, content, h, markdown)
  {
    markdown(AllButHardwraps, content)
  }

  /** The lazily created pair of processors: the plain one and the hard-wrapping one. */
  datatype Processors = Processors(plain: Option<Flavour>, hardwrapping: Option<Flavour>)

  /** `initialize`: creates whichever processor is still missing and keeps the other. */
  function Initialize(p: Processors): (q: Processors)
    ensures q.plain.Some? && q.hardwrapping.Some?
    ensures p.plain.Some? ==> q.plain == p.plain
    ensures p.hardwrapping.Some? ==> q.hardwrapping == p.hardwrapping
  {
    Processors(
      if p.plain.None? then Some(AllButHardwraps) else p.plain,
      if p.hardwrapping.None? then Some(AllExtensions) else p.hardwrapping)
  }

  /** Processors are created once: initializing again changes nothing. */
  lemma InitializeOnce(p: Processors)
    ensures Initialize(Initialize(p)) == Initialize(p)
    ensures Initialize(Processors(None, None)) == Processors(Some(AllButHardwraps), Some(AllExtensions))
  {
  }

  /** `updateExtension`: the first suffix that ends `path` is replaced; otherwise `path` stays. */
  function UpdateExtension(path: string, mappings: Mappings): string
  {
    if |mappings| == 0 then path
    else if EndsWith(path, mappings[0].0) then path[..|path| - |mappings[0].0|] + mappings[0].1
    else UpdateExtension(path, mappings[1..])
  }

  /** `updateExtension` on a possibly null mapping, which leaves the path as it is. */
  function UpdatePath(path: string, mappings: Option<Mappings>): (r: string)
    ensures mappings.None? ==> r == path
  {
    if mappings.None? then path else UpdateExtension(path, mappings.value)
  }

  /** Entry `i` is the first whose suffix ends `path`. */
  predicate FirstMatch(path: string, mappings: Mappings, i: int)
  {
    0 <= i < |mappings| && EndsWith(path, mappings[i].0) &&
    forall j :: 0 <= j < i ==> !EndsWith(path, mappings[j].0)
  }

  /** `path` with the suffix `suffix` (which ends it) replaced by `replacement`. */
  function Rewrite(path: string, suffix: string, replacement: string): string
    requires EndsWith(path, suffix)
  {
    path[..|path| - |suffix|] + replacement
  }

  /**
   * At most one rewrite applies: the first matching entry's, with its suffix
   * replaced; when no suffix matches the path is unchanged.
   */
  lemma {:induction false} UpdateExtensionSpec(path: string, mappings: Mappings)
    ensures (forall j :: 0 <= j < |mappings| ==> !EndsWith(path, mappings[j].0)) ==>
              UpdateExtension(path, mappings) == path
    ensures forall i :: FirstMatch(path, mappings, i) ==>
              UpdateExtension(path, mappings) == Rewrite(path, mappings[i].0, mappings[i].1)
  {
    if |mappings| > 0 {
      UpdateExtensionSpec(path, mappings[1..]);
      forall i | FirstMatch(path, mappings, i)
        ensures UpdateExtension(path, mappings) == Rewrite(path, mappings[i].0, mappings[i].1)
      {
        if i > 0 {
          assert FirstMatch(path, mappings[1..], i - 1);
        }
      }
    }
  }

  /** The rewritten path ends with the replacement and keeps everything before the suffix. */
  lemma RewriteReplacesSuffix(path: string, suffix: string, replacement: string)
    requires EndsWith(path, suffix)
    ensures EndsWith(Rewrite(path, suffix, replacement), replacement)
    ensures Rewrite(path, suffix, replacement) + suffix == path[..|path| - |suffix|] + replacement + suffix
    ensures path == path[..|path| - |suffix|] + suffix
  {
  }

  /** Neither markdown suffix ends the other, so no path matches both. */
  lemma MarkdownSuffixesDisjoint(path: string)
    ensures !(EndsWith(path, ".md") && EndsWith(path, ".markdown"))
  {
    if EndsWith(path, ".markdown") {
      assert path[|path| - 9..] == ".markdown";
      assert path[|path| - 3] == path[|path| - 9..][6] == 'o';
    }
  }

  /** The markdown rewrite as it must come out whatever order the map is iterated in. */
  function MarkdownPath(path: string): string
  {
    if EndsWith(path, ".md") then Rewrite(path, ".md", ".html")
    else if EndsWith(path, ".markdown") then Rewrite(path, ".markdown", ".html")
    else path
  }

  /**
   * The markdown mapping is a hash map with no defined iteration order; both
   * orders of its two entries give the same rewrite.
   */
  lemma MarkdownMappingsOrderFree(path: string)
    ensures UpdateExtension(path, MarkdownMappings) == MarkdownPath(path)
    ensures UpdateExtension(path, [MarkdownMappings[1], MarkdownMappings[0]]) == MarkdownPath(path)
  {
    MarkdownSuffixesDisjoint(path);
    UpdateExtensionSpec(path, MarkdownMappings);
    UpdateExtensionSpec(path, [MarkdownMappings[1], MarkdownMappings[0]]);
    if EndsWith(path, ".md") {
      assert FirstMatch(path, MarkdownMappings, 0);
      assert FirstMatch(path, [MarkdownMappings[1], MarkdownMappings[0]], 1);
    } else if EndsWith(path, ".markdown") {
      assert FirstMatch(path, MarkdownMappings, 1);
      assert FirstMatch(path, [MarkdownMappings[1], MarkdownMappings[0]], 0);
    }
  }

  /** A markdown source ends up as an `.html` page; any other path is left alone. */
  lemma MarkdownBecomesHtml(stem: string)
    ensures MarkdownPath(stem + ".md") == stem + ".html"
    ensures MarkdownPath(stem + ".markdown") == stem + ".html"
  {
    assert (stem + ".md")[..|stem|] == stem;
    MarkdownSuffixesDisjoint(stem + ".markdown");
    assert (stem + ".markdown")[..|stem|] == stem;
  }

  /** The identity converter returns its input whatever the page says, and maps no extension. */
  lemma DoNothingIsIdentity(content: string, hardwrap: Option<string>, markdown: Markdown, path: string)
    ensures Convert(DoNothingConverter, content, hardwrap, markdown) == content
    ensures UpdatePath(path, ExtensionMappings(DoNothingConverter)) == path
  {
  }
}
