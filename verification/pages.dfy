/**
 * A page of the site as the templates see it, and how a blog post's front
 * matter fills in its title, date, tags, categories and publication flag.
 */
module Pages {
  import opened Wrappers
  import opened JavaLang
  import opened YmlConfig
  import opened Taxonomy
  import SiteWriters

  /**
   * The names the front-matter constants class supplies, which is not part
   * of this model: the title property, the tag separators, and the tags and
   * categories folder names.
   */
  datatype Constants = Constants(pageTitle: string, tagSeparators: set<char>, tags: string, categories: string)

  /** The separators categories are split on. */
  const CategorySeparators: set<char> := {' ', ';', ','}

  /** A page; dates are instants as integers and `next`/`previous` refer to other pages. */
  datatype Page = Page(
    id: Option<string>,
    title: Option<string>,
    url: Option<string>,
    date: Option<int>,
    content: Option<string>,
    frontMatter: Option<Properties>,
    published: bool,
    tags: seq<TagOrCategory>,
    categories: seq<TagOrCategory>,
    blogPost: bool,
    next: Option<PostRef>,
    previous: Option<PostRef>)

  /** A page built from no resource: nothing set, published, no tags or categories. */
  function EmptyPage(): (p: Page)
    ensures p.published && p.tags == [] && p.categories == [] && p.frontMatter.None?
  {
    Page(None, None, None, None, None, None, true, [], [], false, None, None)
  }

  /** The property `name` of a possibly null property map. */
  function Lookup(props: Option<Properties>, name: string): (v: Option<string>)
    ensures v.Some? <==> props.Some? && name in props.value
    ensures v.Some? ==> v.value == props.value[name]
  {
    if props.Some? && name in props.value then Some(props.value[name]) else None
  }

  /** `getPageProperty`: null when the page has no front matter. */
  function PageProperty(p: Page, key: string): (v: Option<string>)
    ensures p.frontMatter.None? ==> v.None?
    ensures p.frontMatter.Some? ==> v == Lookup(p.frontMatter, key)
  {
    Lookup(p.frontMatter, key)
  }

  /**
   * One tag or category per token that is not blank after trimming, in
   * token order, filed under `blogPath/folder/token` relative to the source.
   */
  function Labels(tokens: seq<string>, blogPath: string, folder: string, writer: SiteWriters.SiteWriter): (r: seq<TagOrCategory>)
    ensures |r| <= |tokens|
    ensures forall i :: 0 <= i < |r| ==>
              r[i] == NewTagOrCategory(r[i].name, SiteWriters.CreateBasePath(writer, blogPath + "/" + folder + "/" + r[i].name)) &&
              r[i].name in tokens && !AllWhite(r[i].name)
  {
    if |tokens| == 0 then []
    else
      TrimSpec(tokens[0]);
      var rest := Labels(tokens[1..], blogPath, folder, writer);
      if Trim(tokens[0]) == "" then rest
      else [NewTagOrCategory(tokens[0], SiteWriters.CreateBasePath(writer, blogPath + "/" + folder + "/" + tokens[0]))] + rest
  }

  /** The labels a property yields: none when it is absent or blank. */
  function LabelsOf(value: Option<string>, seps: set<char>, blogPath: string, folder: string,
                    writer: SiteWriters.SiteWriter): seq<TagOrCategory>
  {
    if value.Some? && Trim(value.value) != "" then Labels(SplitAny(value.value, seps), blogPath, folder, writer)
    else []
  }

  /**
   * `mergeFrontMatter`: title from the front matter, the date only when one
   * is given (parsed by `parseDate`), tags and categories appended, and the
   * page unpublished by a "false" flag. A page without front matter is
   * dereferenced.
   */
  function MergeFrontMatter(p: Page, blogPath: string, consts: Constants, writer: SiteWriters.SiteWriter,
                            parseDate: string -> int): (r: Result<Page, Exception>)
    ensures r.Success? <==> p.frontMatter.Some?
    ensures r.Failure? ==> r.error == NullPointer
  {
    if p.frontMatter.None? then Failure(NullPointer)
    else
      var date := Lookup(p.frontMatter, "date");
      var published := Lookup(p.frontMatter, "published");
      Success(p.(
        title := Lookup(p.frontMatter, consts.pageTitle),
        date := if date.Some? then Some(parseDate(date.value)) else p.date,
        tags := p.tags + LabelsOf(Lookup(p.frontMatter, "tags"), consts.tagSeparators, blogPath, consts.tags, writer),
        categories := p.categories +
                      LabelsOf(Lookup(p.frontMatter, "categories"), CategorySeparators, blogPath, consts.categories, writer),
        published := if EqualsIgnoreCase("false", published) then false else p.published))
  }

  /**
   * The title always comes from the front matter, the date only when it has
   * one, and a page once unpublished stays unpublished.
   */
  lemma MergeFrontMatterFields(p: Page, blogPath: string, consts: Constants, writer: SiteWriters.SiteWriter,
                               parseDate: string -> int)
    requires p.frontMatter.Some?
    ensures var q := MergeFrontMatter(p, blogPath, consts, writer, parseDate).value;
            q.title == PageProperty(p, consts.pageTitle) &&
            ("date" in p.frontMatter.value ==> q.date == Some(parseDate(p.frontMatter.value["date"]))) &&
            ("date" !in p.frontMatter.value ==> q.date == p.date)
    ensures var q := MergeFrontMatter(p, blogPath, consts, writer, parseDate).value;
            !q.published <==>
              !p.published ||
              ("published" in p.frontMatter.value && LowerCase(p.frontMatter.value["published"]) == "false")
    ensures var q := MergeFrontMatter(p, blogPath, consts, writer, parseDate).value;
            q.id == p.id && q.url == p.url && q.content == p.content && q.frontMatter == p.frontMatter &&
            q.next == p.next && q.previous == p.previous
  {
    assert LowerCase("false") == "false";
  }

  /** Tags and categories are appended after the page's earlier ones, so merging twice duplicates them. */
  lemma MergeFrontMatterAppends(p: Page, blogPath: string, consts: Constants, writer: SiteWriters.SiteWriter,
                                parseDate: string -> int)
    requires p.frontMatter.Some?
    ensures var q := MergeFrontMatter(p, blogPath, consts, writer, parseDate).value;
            var q2 := MergeFrontMatter(q, blogPath, consts, writer, parseDate).value;
            var added := q.tags[|p.tags|..];
            q.tags[..|p.tags|] == p.tags && q2.tags == p.tags + added + added
    ensures var q := MergeFrontMatter(p, blogPath, consts, writer, parseDate).value;
            q.categories[..|p.categories|] == p.categories
  {
  }

  /**
   * Tags written as a list joined by a separator come back as exactly those
   * tags, in that order, each filed under the blog's tags folder.
   */
  lemma {:induction false} TagsRoundTrip(names: seq<string>, sep: char, consts: Constants, blogPath: string,
                                         writer: SiteWriters.SiteWriter)
    requires sep in consts.tagSeparators
    requires forall i :: 0 <= i < |names| ==>
               names[i] != [] && NoneIn(names[i], consts.tagSeparators) && !IsWhite(names[i][0])
    ensures var r := Labels(SplitAny(Join(names, sep), consts.tagSeparators), blogPath, consts.tags, writer);
            |r| == |names| &&
            forall i :: 0 <= i < |r| ==> r[i].name == names[i]
  {
    SplitJoin(names, sep, consts.tagSeparators);
    LabelsOfClean(names, blogPath, consts.tags, writer);
  }

  /** Tokens that do not start with white space all become labels, in order. */
  lemma {:induction false} LabelsOfClean(tokens: seq<string>, blogPath: string, folder: string, writer: SiteWriters.SiteWriter)
    requires forall i :: 0 <= i < |tokens| ==> tokens[i] != [] && !IsWhite(tokens[i][0])
    ensures var r := Labels(tokens, blogPath, folder, writer);
            |r| == |tokens| && forall i :: 0 <= i < |r| ==> r[i].name == tokens[i]
  {
    if |tokens| > 0 {
      LabelsOfClean(tokens[1..], blogPath, folder, writer);
      TrimSpec(tokens[0]);
      assert !AllWhite(tokens[0]);
    }
  }

  /** `getTags`: null, not an empty list, when the page has no tags. */
  function GetTags(p: Page): (r: Option<seq<TagOrCategory>>)
    ensures r.None? <==> p.tags == []
    ensures r.Some? ==> r.value == p.tags
  {
    if p.tags == [] then None else Some(p.tags)
  }

  /** `getCategories`: null, not an empty list, when the page has no categories. */
  function GetCategories(p: Page): (r: Option<seq<TagOrCategory>>)
    ensures r.None? <==> p.categories == []
    ensures r.Some? ==> r.value == p.categories
  {
    if p.categories == [] then None else Some(p.categories)
  }

  /**
   * `compareTo`: -1 against null, otherwise the ids compared ignoring case;
   * a null id on either side is dereferenced.
   */
  function CompareTo(p: Page, other: Option<Page>): (r: Result<int, Exception>)
    ensures other.None? ==> r == Success(-1)
    ensures other.Some? ==> (r.Success? <==> p.id.Some? && other.value.id.Some?)
    ensures r.Success? && other.Some? ==> (r.value == 0 <==> LowerCase(p.id.value) == LowerCase(other.value.id.value))
    ensures r.Failure? ==> r.error == NullPointer
  {
    if other.None? then Success(-1)
    else if p.id.None? || other.value.id.None? then Failure(NullPointer)
    else Success(CompareToIgnoreCase(p.id.value, other.value.id.value))
  }

  /** Between two pages with ids, `compareTo` is antisymmetric. */
  lemma CompareToFlips(p: Page, q: Page)
    requires p.id.Some? && q.id.Some?
    ensures CompareTo(p, Some(q)).value == -CompareTo(q, Some(p)).value
  {
    CompareToAntisymmetric(LowerCase(p.id.value), LowerCase(q.id.value));
  }
}
