# Shire content pipeline in Dafny

Shire is a static-site generator. It reads a folder of pages, posts, layouts and
static assets and writes the finished site to an export folder. This project
models the part of the Java implementation that is plain string and
collection logic:

- reading `key: value` front matter between `---` markers, as three readers do it
  (`YmlConfigReader`, `FrontMatterUtils`, `ProcessableSiteFile`);
- export paths, the `.md`/`.markdown` to `.html` extension rewrite and the
  memoised content of a renderable resource;
- the split of the site tree into processable and static files;
- layout resolution: simple layouts, extended layouts with a parent, the
  classification cache and the data model handed to the template engine;
- the blog taxonomy: blogs (`.blog` folders), tags and categories, the two post
  comparators, next/previous links and the recent-posts list;
- the generated blog listing pages (batches of five) and the sitemap;
- small helpers: the heading-stripping tag, the hexadecimal digest text of the
  response cache, the blog importer's front-matter writer, and the Go
  `RemoveFromSliceAtIndex` swap-remove.

Every Java `null` that the code can meet is an `Option`. Every exception the code
can throw is a `Failure` of a `Result`, named after the exception:
`NullPointer`, `IndexOutOfBounds`, `StringIndexOutOfBounds`, `IllegalArgument`,
`IllegalState`, `CorruptYml`, `StackOverflow`. The model does not do anything it cannot see, so
these are parameters:

- the template engine (`layout`, `layoutWithTemplateCode`);
- laying out the blog listing template around a paginator, which gives the text
  or the unchecked exception `layoutContent` throws (a missing or
  self-extending `post-listing.html`); it cannot throw an `IOException`, which
  `layoutContent` does not declare;
- the markdown processor;
- date parsing and formatting;
- the answers the filesystem gives (file text, "already a directory", `mkdirs`);
- the natural order used to sort a blog's resources.

Object references between pages (next/previous entry, the posts of a tag) are
indices into the site's page list.

Modules, one per source class or group:

- `Wrappers`, `JavaLang`: `Option`/`Result`, plus the Java `String` and `List` operations the code relies on.
- `YmlConfig`, `FrontMatter`, `SiteFiles`: the three front-matter readers.
- `Resources`, `SiteWriters`, `Converters`: paths, the extension rewrite and the converters.
- `SiteDirectories`: the site tree walk.
- `Layouts`: layout resolution.
- `Taxonomy`, `Pages`, `Comparators`, `Blogs`, `PreProcessors`: the blog taxonomy.
- `BlogPages`, `SiteMaps`: the generators.
- `RemoveHeading`, `Hex`, `Importer`, `Slices`: the helpers.

The recent-posts count follows the code. The configured value replaces the
default of 10 rather than being capped by it, and the result is that value or
the number of posts, whichever is smaller. A negative configured value makes
`subList(0, top)` throw an `IllegalArgumentException`, because its bounds
cross.

## Model

| member | source | states |
|---|---|---|
| YmlConfig.ReadLineSpec | src/main/java/com/sangupta/shire/config/YmlConfigReader.java:66-98 | An empty line or a (trimmed) `#` comment gives no entry; a trimmed line starting with `:` is a corrupt-YML error; a non-empty line without `:` fails at `substring(0, -1)`; otherwise the entry is the trimmed text before the first `:` and the trimmed text after it |
| YmlConfig.ReadAllSpec | src/main/java/com/sangupta/shire/config/YmlConfigReader.java:51-64 | Reading lines succeeds with one result per line, each the line's own `readLine` result, or fails with the error of the first failing line, all earlier lines having parsed |
| YmlConfig.ReadLinesFails | src/main/java/com/sangupta/shire/config/YmlConfigReader.java:51-64 | `readLines` fails exactly when some line fails, with the error of the first such line |
| YmlConfig.ReadLinesSnoc | src/main/java/com/sangupta/shire/config/YmlConfigReader.java:55-61 | Reading one more line stores that line's entry on top of the properties read so far |
| YmlConfig.ReadLinesPrefixFailure | src/main/java/com/sangupta/shire/config/YmlConfigReader.java:55-61 | Once a prefix fails, the lines after it do not change the error |
| YmlConfig.StoreLastWins | src/main/java/com/sangupta/shire/config/YmlConfigReader.java:55-61 | A key is stored iff some entry names it, and its value comes from the last entry naming it |
| YmlConfig.ReadLinesLastWins | src/main/java/com/sangupta/shire/config/YmlConfigReader.java:51-64 | A key is present iff some line defines it; for a repeated key the value comes from the last defining line |
| YmlConfig.KeyValueRoundTrip | src/main/java/com/sangupta/shire/config/YmlConfigReader.java:86-93 | A line written as `key + ": " + value` reads back as that key with the trimmed value, whatever the value contains (colons included, blank value giving `""`) |
| FrontMatter.FirstNonBlank | src/main/java/com/sangupta/shire/util/FrontMatterUtils.java:59-65 | The index of the first line whose trimmed text is non-empty: every line before it is blank |
| FrontMatter.NextMarker | src/main/java/com/sangupta/shire/util/FrontMatterUtils.java:79-82 | The first later line that starts with `---`: no line between starts with it |
| FrontMatter.CheckFileHasFrontMatter | src/main/java/com/sangupta/shire/util/FrontMatterUtils.java:47-101 | The line-by-line scan agrees with the positional description of the front matter (count and properties), including the error of a property line that `readLine` rejects |
| FrontMatter.SkipBlankLines | src/main/java/com/sangupta/shire/util/FrontMatterUtils.java:59-65 | The skipping loop stops at the first non-blank line |
| FrontMatter.ReadBlock | src/main/java/com/sangupta/shire/util/FrontMatterUtils.java:68-100 | Reading from the opening marker gives the scan's result |
| FrontMatter.ScanCountIsClosingLine | src/main/java/com/sangupta/shire/util/FrontMatterUtils.java:58-100 | The count is -1 iff the first non-blank line does not start with `---`; it is 0 only for an empty file; a count inside the file is the 1-based number of the closing marker, which follows the opening one with no marker between |
| FrontMatter.ScanOfBlock | src/main/java/com/sangupta/shire/util/FrontMatterUtils.java:58-100 | Blank lines, a marker, property lines, a marker and any rest scan to `blanks + body + 2` lines and the properties of the body: leading blank lines are counted and markers match by prefix |
| FrontMatter.ScanAllBlank | src/main/java/com/sangupta/shire/util/FrontMatterUtils.java:58-65 | A file of blank lines only gives its line count, not -1 |
| FrontMatter.ScanEnd | src/main/java/com/sangupta/shire/util/FrontMatterUtils.java:79-100 | Without a closing marker the whole file is consumed and the line count returned |
| FrontMatter.PropertyFailure | src/main/java/com/sangupta/shire/util/FrontMatterUtils.java:85-88 | A property line that `readLine` rejects ends the scan with its error |
| SiteFiles.Open | src/main/java/com/sangupta/shire/site/ProcessableSiteFile.java:72-88 | A new site file has no separators and no properties; it holds the file's lines when the file can be read |
| SiteFiles.NextSeparator | src/main/java/com/sangupta/shire/site/ProcessableSiteFile.java:109-117 | The next line equal to `---`: none before it is |
| SiteFiles.HasFrontMatterOpensAtZero | src/main/java/com/sangupta/shire/site/ProcessableSiteFile.java:101-133 | A detected block always opens at index 0, because the index counts only non-blank lines |
| SiteFiles.HasFrontMatterWithoutBlankLines | src/main/java/com/sangupta/shire/site/ProcessableSiteFile.java:95-138 | On a file without blank lines the code as written and the corrected walk agree |
| SiteFiles.BlankLineBreaksFrontMatter | src/main/java/com/sangupta/shire/site/ProcessableSiteFile.java:101-133 | A blank line before `---`, `title: x`, `---` shifts the separator indices by one, so the code reads the opening `---` as a property line and fails |
| SiteFiles.NoBlankLineFrontMatter | src/main/java/com/sangupta/shire/site/ProcessableSiteFile.java:95-138 | The same file without the blank line has front matter `title: x` between lines 0 and 2 |
| SiteFiles.HasFrontMatterCorrectedBlock | src/main/java/com/sangupta/shire/site/ProcessableSiteFile.java:95-138 | The corrected walk finds front matter iff the first non-blank line is exactly `---` and a later line is exactly `---`, with the properties of the lines between |
| SiteFiles.BlankLineCorrectedFrontMatter | src/main/java/com/sangupta/shire/site/ProcessableSiteFile.java:101-133 | The corrected walk reads the blank-line file's block at absolute lines 1 and 3 |
| SiteFiles.CorrectedContent | src/main/java/com/sangupta/shire/site/ProcessableSiteFile.java:145-157 | After a detected block, the content is the lines after the closing separator joined with newlines, and the properties are those of the lines between the separators |
| SiteFiles.GetContent | src/main/java/com/sangupta/shire/site/ProcessableSiteFile.java:145-157 | With a closing separator inside the file the content is the lines after it joined with newlines; a separator index past the end makes `subList` throw on crossed bounds, and unread lines a null dereference; without a block the content is all lines joined (none for an unread file); the stored lines are dropped |
| SiteFiles.GetContentTwice | src/main/java/com/sangupta/shire/site/ProcessableSiteFile.java:145-157 | A second call has nothing to read: no content without a block, a null dereference with one |
| SiteFiles.GetExportPath | src/main/java/com/sangupta/shire/site/ProcessableSiteFile.java:160-171 | A non-empty `permalink` property overrides the default export path; otherwise the default is kept |
| Resources.BasePath | src/main/java/com/sangupta/shire/domain/AbstractResource.java:56-65 | Computing the path dereferences the file and the root: either missing is a null dereference |
| Resources.BasePathSpec | src/main/java/com/sangupta/shire/domain/AbstractResource.java:56-65 | The export path is a suffix of the absolute path: the remainder after the root when the path starts with it, the whole path otherwise |
| Resources.BasePathRoundTrip | src/main/java/com/sangupta/shire/domain/AbstractResource.java:56-65 | A file under the root gets back exactly its path relative to the root |
| Resources.NewRenderable | src/main/java/com/sangupta/shire/domain/RenderableResource.java:76-80 | A renderable resource fixes its export path at construction and starts with no cached content |
| Resources.OriginalContentSpec | src/main/java/com/sangupta/shire/domain/RenderableResource.java:105-112 | The original content is the lines from the front-matter end on, joined with newlines; it fails for an unreadable file or an ending line outside the file |
| Resources.OriginalContentMemo | src/main/java/com/sangupta/shire/domain/RenderableResource.java:105-112 | After the first call, later calls return the cached text whatever the file now says |
| Resources.ConvertedContentSpec | src/main/java/com/sangupta/shire/domain/RenderableResource.java:118-134 | The first conversion converts the original content and rewrites the path by the converter's extension map, caching both |
| Resources.ConvertedContentWithoutPage | src/main/java/com/sangupta/shire/domain/RenderableResource.java:118-134 | With no page in the template data, a markdown resource not yet converted fails: the read's exception, or else a null dereference; a converted one returns its stored text |
| Resources.ConvertedContentMemo | src/main/java/com/sangupta/shire/domain/RenderableResource.java:118-134 | Later conversions, with any converter, return the cached result: the extension is rewritten at most once |
| Resources.DoNothingKeepsPath | src/main/java/com/sangupta/shire/converters/DoNothingConverter.java:47-57 | A resource converted without markup keeps its export path and its original text |
| Resources.MarkdownExportsHtml | src/main/java/com/sangupta/shire/converters/MarkdownConverter.java:88-95 | A `.md` resource converted with the markdown converter is exported as `.html` |
| Resources.FrontMatterProperty | src/main/java/com/sangupta/shire/domain/RenderableResource.java:143-149 | No value without front matter; the mapped value otherwise |
| Resources.GeneratedAlwaysFails | src/main/java/com/sangupta/shire/domain/GeneratedResource.java:37-41 | The generated-resource constructor as written always fails with a null dereference |
| Resources.NewGeneratedCorrected | src/main/java/com/sangupta/shire/domain/GeneratedResource.java:37-41 | The corrected constructor keeps the given path and content |
| SiteWriters.NewSiteWriter | src/main/java/com/sangupta/shire/site/SiteWriter.java:68-72 | The source root is the parent folder, fixed at construction, and no export folder exists yet |
| SiteWriters.CreateSiteExportFolder | src/main/java/com/sangupta/shire/site/SiteWriter.java:78-90 | Fails with an illegal-state error when the folder already exists as a directory and with a runtime error when it cannot be created; otherwise the export folder is parent + separator + name |
| SiteWriters.ExportTarget | src/main/java/com/sangupta/shire/site/SiteWriter.java:98-139 | Exporting needs the export folder: without it the write dereferences null |
| SiteWriters.ExportAfterCreate | src/main/java/com/sangupta/shire/site/SiteWriter.java:78-139 | After the folder is created, the export target is the site folder + `/` + the resource's export path |
| SiteWriters.CreateBasePathSpec | src/main/java/com/sangupta/shire/site/SiteWriter.java:148-154 | The source-root prefix is removed when present, the path is kept otherwise, and the result is always a suffix of the input |
| SiteWriters.CreateBasePathAgreesWithResources | src/main/java/com/sangupta/shire/site/SiteWriter.java:148-154 | The writer's base path and a resource's export path are the same computation |
| Converters.SelectFlavour | src/main/java/com/sangupta/shire/converters/MarkdownConverter.java:71-82 | The all-extensions processor is chosen iff the `hardwrap` property is "true" in any case |
| Converters.ConvertFor | src/main/java/com/sangupta/shire/converters/MarkdownConverter.java:71-82 | With a page in the template data, `convert` is `Converters.Convert` of its `hardwrap` property; without one it fails exactly for the markdown converter, with a null dereference; the identity converter always returns its input |
| Converters.Convert | src/main/java/com/sangupta/shire/converters/MarkdownConverter.java:71-82 | The no-markup converter returns its input; the markdown converter without a `hardwrap` property uses the processor without hard wraps |
| Converters.ConvertPlain | src/main/java/com/sangupta/shire/converters/MarkdownConverter.java:62-68 | The one-argument conversion is the two-argument one for any `hardwrap` value other than "true" |
| Converters.Initialize | src/main/java/com/sangupta/shire/converters/MarkdownConverter.java:100-108 | Initialisation creates the processors that are missing and keeps those that exist |
| Converters.InitializeOnce | src/main/java/com/sangupta/shire/converters/MarkdownConverter.java:100-108 | Initialising twice is initialising once: the processors are created once and reused |
| Converters.UpdatePath | src/main/java/com/sangupta/shire/domain/RenderableResource.java:88-99 | A null extension map leaves the path unchanged |
| Converters.UpdateExtensionSpec | src/main/java/com/sangupta/shire/domain/RenderableResource.java:88-99 | With no key a suffix of the path, the path is unchanged; otherwise the first matching entry's suffix is replaced by its value |
| Converters.RewriteReplacesSuffix | src/main/java/com/sangupta/shire/domain/RenderableResource.java:93-98 | A rewrite keeps everything before the suffix and ends with the replacement |
| Converters.MarkdownSuffixesDisjoint | src/main/java/com/sangupta/shire/converters/MarkdownConverter.java:88-95 | No path ends in both `.md` and `.markdown` |
| Converters.MarkdownMappingsOrderFree | src/main/java/com/sangupta/shire/converters/MarkdownConverter.java:88-95 | Either iteration order of the two mappings rewrites a path the same way |
| Converters.MarkdownBecomesHtml | src/main/java/com/sangupta/shire/converters/MarkdownConverter.java:88-95 | `.md` and `.markdown` both become `.html` |
| Converters.DoNothingIsIdentity | src/main/java/com/sangupta/shire/converters/DoNothingConverter.java:47-57 | The no-markup converter returns its input whatever the template data, and its null map keeps every path |
| SiteDirectories.FileAllowedSpec | src/main/java/com/sangupta/shire/site/SiteDirectory.java:158-174 | A file is static iff its name ends in `.` followed by exactly one of png, jpg, css, js, otf, zip (case-sensitive); a name without `.` is processable |
| SiteDirectories.CrawlPartitions | src/main/java/com/sangupta/shire/site/SiteDirectory.java:83-136 | The crawl appends every admitted file, in crawl order, to exactly one of the two lists and nothing else |
| SiteDirectories.ScanRootFolderSpec | src/main/java/com/sangupta/shire/site/SiteDirectory.java:74-76 | The processable and static lists are the admitted files of the tree, split by extension, in crawl order |
| SiteDirectories.SkipRulesByLevel | src/main/java/com/sangupta/shire/site/SiteDirectory.java:84-112 | A root named like the site folder yields nothing, version-control folders are skipped at every depth, and the layouts folder is crawled below level 1 |
| SiteDirectories.ConfigFileOnlyAtTop | src/main/java/com/sangupta/shire/site/SiteDirectory.java:122-150 | The configuration file is excluded at level 1 and kept deeper down |
| Layouts.NewManager | src/main/java/com/sangupta/shire/layouts/LayoutManager.java:65-81 | A new manager has an empty classification cache |
| Layouts.DataModelOf | src/main/java/com/sangupta/shire/layouts/LayoutManager.java:270-278 | The model holds exactly `site`, `page` and `paginator`, each the template data's own field |
| Layouts.FindLayout | src/main/java/com/sangupta/shire/layouts/LayoutManager.java:226-237 | The layouts folder is tried first, then the includes folder; neither holding the name is an illegal-argument error; the empty name is `new File(layouts, "")`, the layouts folder itself, which always exists |
| Layouts.Decipher | src/main/java/com/sangupta/shire/layouts/LayoutManager.java:218-255 | A cached name is answered from the cache unchanged; a new answer is cached and only extends the cache |
| Layouts.DecipherClassifies | src/main/java/com/sangupta/shire/layouts/LayoutManager.java:218-255 | A layout is extended iff its front-matter count is positive; an unreadable file is simple, and so is the empty name, whose file is the layouts directory; a missing one is an error; an extended layout keeps its front matter and ending line |
| Layouts.DecipherOnce | src/main/java/com/sangupta/shire/layouts/LayoutManager.java:118-121 | A name is classified at most once: later calls reuse the cached answer whatever the folders say |
| Layouts.TemplateFileName | src/main/java/com/sangupta/shire/layouts/LayoutManager.java:188-190 | The template name always ends in `.html`, appended only when missing |
| Layouts.ContentModel | src/main/java/com/sangupta/shire/layouts/LayoutManager.java:193-207 | Each level's model is a fresh map with the data model's entries plus `content`, which is null exactly when the content is, and otherwise the content rendered against the model's other entries |
| Layouts.PutContentInTemplate | src/main/java/com/sangupta/shire/layouts/LayoutManager.java:179-209 | An empty or "nil" name returns the content unchanged; any other name always produces a rendered page |
| Layouts.ParentOf | src/main/java/com/sangupta/shire/layouts/LayoutManager.java:133-139 | There is a parent exactly when the layout names one or the site has a default, and the layout's own `layout` property wins |
| Layouts.ChildTemplate | src/main/java/com/sangupta/shire/layouts/LayoutManager.java:151-156 | Reading the child's template body caches it, keeps the cache of classifications and fails only on a bad ending line |
| Layouts.LayoutContent | src/main/java/com/sangupta/shire/layouts/LayoutManager.java:117-170 | A successful resolution leaves a valid manager whose cache extends the old one and classifies the name |
| Layouts.MissingLayoutFails | src/main/java/com/sangupta/shire/layouts/LayoutManager.java:118-121 | A non-empty name with no file, "nil" included, throws before the "nil" check is reached |
| Layouts.EmptyNameKeepsContent | src/main/java/com/sangupta/shire/layouts/LayoutManager.java:118-126 | The empty layout name is classified simple, because its file is the layouts directory, and lays out as the content unchanged |
| Layouts.SimpleLayout | src/main/java/com/sangupta/shire/layouts/LayoutManager.java:117-126 | A simple layout renders the content into its template |
| Layouts.ExtendedWithoutParent | src/main/java/com/sangupta/shire/layouts/LayoutManager.java:133-144 | An extended layout with no parent and no site default renders as simple |
| Layouts.ExtendedResolvesParentFirst | src/main/java/com/sangupta/shire/layouts/LayoutManager.java:146-169 | An extended layout resolves its parent with its own template body as content; only non-empty incoming content is rendered and bound as `content` into the result |
| Layouts.SelfParentOverflows | src/main/java/com/sangupta/shire/layouts/LayoutManager.java:159 | A layout naming itself as parent recurses without bound and ends in stack overflow |
| Taxonomy.NewTagOrCategory | src/main/java/com/sangupta/shire/model/TagOrCategory.java:69-73 | The url is the base URL + `/index.html` and there are no posts |
| Taxonomy.AddPost | src/main/java/com/sangupta/shire/model/TagOrCategory.java:80-86 | The post is appended at the end; name and URLs are kept |
| Taxonomy.AddPostCounts | src/main/java/com/sangupta/shire/model/TagOrCategory.java:80-94 | The count is the number of posts (0 before any), rises by exactly one and earlier posts keep their order |
| Taxonomy.AddPostsAppends | src/main/java/com/sangupta/shire/model/TagOrCategory.java:80-94 | Adding posts one by one appends them all, in order |
| Taxonomy.CompareTo | src/main/java/com/sangupta/shire/model/TagOrCategory.java:133-139 | Names compare case-insensitively; null compares as -1 |
| Taxonomy.EqualsOnName | src/main/java/com/sangupta/shire/model/TagOrCategory.java:100-119 | Equality is case-sensitive equality of names, symmetric, never with null, and equal entities hash alike |
| Taxonomy.CompareToFlips | src/main/java/com/sangupta/shire/model/TagOrCategory.java:133-139 | Swapping the arguments negates the comparison |
| Taxonomy.CaseOnlyDifference | src/main/java/com/sangupta/shire/model/TagOrCategory.java:100-139 | "Java" and "java" compare as 0 yet are not equal |
| Pages.EmptyPage | src/main/java/com/sangupta/shire/model/Page.java:73 | A new page is published, with no tags, categories or front matter |
| Pages.PageProperty | src/main/java/com/sangupta/shire/model/Page.java:149-155 | No value without front matter; the mapped value otherwise |
| Pages.Labels | src/main/java/com/sangupta/shire/model/Page.java:172-193 | Each kept token becomes a label of that name, non-blank, at `createBasePath(blogPath + "/" + folder + "/" + name)` |
| Pages.MergeFrontMatter | src/main/java/com/sangupta/shire/model/Page.java:161-200 | Merging needs front matter: without it the page dereferences null |
| Pages.MergeFrontMatterFields | src/main/java/com/sangupta/shire/model/Page.java:163-169 | The title is set from the front matter, the date replaced only when a `date` property exists, and the page becomes unpublished iff it already was or `published` is "false" in any case; other fields are kept |
| Pages.MergeFrontMatterAppends | src/main/java/com/sangupta/shire/model/Page.java:172-193 | Tags and categories are appended after the existing ones; merging twice appends the same tags again |
| Pages.TagsRoundTrip | src/main/java/com/sangupta/shire/model/Page.java:172-181 | Names joined by a separator split back into one tag per name, in order |
| Pages.LabelsOfClean | src/main/java/com/sangupta/shire/model/Page.java:172-193 | Tokens that are not blank each give a label, in order |
| Pages.GetTags | src/main/java/com/sangupta/shire/model/Page.java:317-323 | Null when there are no tags, the list otherwise |
| Pages.GetCategories | src/main/java/com/sangupta/shire/model/Page.java:306-312 | Null when there are no categories, the list otherwise |
| Pages.CompareTo | src/main/java/com/sangupta/shire/model/Page.java:223-229 | Ids compare case-insensitively; null compares as -1; a missing id is a null dereference |
| Pages.CompareToFlips | src/main/java/com/sangupta/shire/model/Page.java:223-229 | Swapping the arguments negates the comparison |
| Comparators.CompareOnDate | src/main/java/com/sangupta/shire/model/PostComparatorOnDate.java:36-38 | Both dates must be present, otherwise a null dereference |
| Comparators.CompareOnDateOrder | src/main/java/com/sangupta/shire/model/PostComparatorOnDate.java:36-38 | Later dates sort first, equal dates compare as 0, and swapping the arguments negates the result |
| Comparators.CompareOnNamesTitles | src/main/java/com/sangupta/shire/model/PostComparatorOnNames.java:36-50 | A null title sorts after a non-null one, two titles compare case-sensitively, and two null titles compare the URLs |
| Comparators.CompareOnNamesFlips | src/main/java/com/sangupta/shire/model/PostComparatorOnNames.java:36-50 | Swapping the arguments negates the result and keeps success or failure |
| Comparators.SortByDate | src/main/java/com/sangupta/shire/model/PostComparatorOnDate.java:36-38 | Sorting with the date comparator fails on a missing date once there are two posts; otherwise it is a permutation, newest first, and stable: the posts of each date keep their order |
| Comparators.InsertionSort | src/main/java/com/sangupta/shire/model/PostComparatorOnDate.java:36-38 | Dated posts sort to a newest-first permutation of themselves |
| Comparators.InsertWithDate | src/main/java/com/sangupta/shire/model/PostComparatorOnDate.java:36-38 | Inserting a post puts it first among the posts of its date and leaves the order of every date's posts otherwise unchanged |
| Comparators.InsertionSortStable | src/main/java/com/sangupta/shire/model/PostComparatorOnDate.java:36-38 | The insertion sort keeps the order of the posts of each date, as the stable `Collections.sort` does |
| Blogs.NewBlog | src/main/java/com/sangupta/shire/domain/BlogResource.java:84-102 | A null file or a name other than `.blog` is an illegal argument; otherwise the name is the file's text, the base path its folder and the lists empty |
| Blogs.AddResource | src/main/java/com/sangupta/shire/domain/BlogResource.java:109-111 | The resource is appended; nothing else changes |
| Blogs.EqualsOnBasePath | src/main/java/com/sangupta/shire/domain/BlogResource.java:176-192 | Blogs are equal iff their base paths are, symmetrically, and equal blogs hash alike |
| Blogs.TokensSpec | src/main/java/com/sangupta/shire/domain/BlogResource.java:145-148 | Tokens are trimmed and empty ones skipped; already clean tokens are all kept |
| Blogs.OccurrencesValid | src/main/java/com/sangupta/shire/domain/BlogResource.java:131-169 | Every token occurrence refers to one of the blog's posts |
| Blogs.FirstSightSpec | src/main/java/com/sangupta/shire/domain/BlogResource.java:149-153 | There is one entity per distinct token, no two alike, created in first-sight order |
| Blogs.HarvestAllSpec | src/main/java/com/sangupta/shire/domain/BlogResource.java:131-169 | With the back-reference corrected, each distinct token gets one entity holding every post that names it, once per occurrence, and each post gets one entity per occurrence |
| Blogs.HarvestEntitiesOnly | src/main/java/com/sangupta/shire/domain/BlogResource.java:131-169 | The entities collected do not depend on the pages' current tag lists |
| Blogs.HarvestAllFails | src/main/java/com/sangupta/shire/domain/BlogResource.java:159-163 | As written, the first back-reference on a post without tags dereferences null |
| Blogs.BuildBlogFailsOnTaggedPost | src/main/java/com/sangupta/shire/domain/BlogResource.java:113-169 | As written, a blog with one post tagged "java" fails to build with a null dereference |
| Blogs.BuildBlog | src/main/java/com/sangupta/shire/domain/BlogResource.java:113-125 | Building keeps the number of pages |
| Blogs.BuildBlogTwice | src/main/java/com/sangupta/shire/domain/BlogResource.java:113-125 | Tags then categories are appended; building a second time appends the same ones again |
| PreProcessors.SiblingFolderNotInBlog | src/main/java/com/sangupta/shire/site/SitePreProcessor.java:149-157 | A file under "blog2" is not in the blog "blog"; a file under "blog" is |
| PreProcessors.NestedBlogs | src/main/java/com/sangupta/shire/site/SitePreProcessor.java:106-113 | A file in a nested blog is in both blogs |
| PreProcessors.PostsInSpec | src/main/java/com/sangupta/shire/site/SitePreProcessor.java:106-113 | A blog collects exactly the files under its base path + separator, in file order |
| PreProcessors.CollectAllSpec | src/main/java/com/sangupta/shire/site/SitePreProcessor.java:99-114 | Every blog's resources get its own files appended, so a file lands in every blog that contains it |
| PreProcessors.SetLinks | src/main/java/com/sangupta/shire/site/SitePreProcessor.java:130-138 | Element `i > 0` gets the previous element, `i + 1 < size` the next; other links and fields are kept |
| PreProcessors.LinkEntries | src/main/java/com/sangupta/shire/site/SitePreProcessor.java:128-138 | Only links change and only on the blog's posts; previous and next agree with the sorted order both ways, and the first post's previous and last post's next are left as they were |
| PreProcessors.LinkAll | src/main/java/com/sangupta/shire/site/SitePreProcessor.java:122-139 | Linking every blog's posts in turn changes only links, leaves a post of no blog as it was, and, when no post is in two blogs and none is listed twice, leaves every blog's posts linked in order: a later blog's linking does not undo an earlier one's |
| PreProcessors.RecentPostsSpec | src/main/java/com/sangupta/shire/site/SitePreProcessor.java:82-93 | The recent posts are the first `min(configured-or-10, total)` posts sorted newest first; a negative count fails as `subList` does when its bounds cross, with an illegal argument |
| PreProcessors.RecentPostsDefault | src/main/java/com/sangupta/shire/site/SitePreProcessor.java:87-91 | With no configured value and at least ten posts, ten are kept |
| PreProcessors.RecentPostsFromAll | src/main/java/com/sangupta/shire/site/SitePreProcessor.java:82-93 | Every recent post is one of the blogs' posts |
| PreProcessors.BuildAll | src/main/java/com/sangupta/shire/site/SitePreProcessor.java:69-71 | Building the blogs in turn, each on the pages the earlier ones left, keeps each blog's base path and resources and the number of pages, and leaves the blogs already built as they are |
| PreProcessors.MergeAll | src/main/java/com/sangupta/shire/site/SitePreProcessor.java:73-76 | Each page is replaced by its merged front matter, in place |
| PreProcessors.SortAndLink | src/main/java/com/sangupta/shire/site/SitePreProcessor.java:119-140 | Each blog's resources are sorted; base paths are kept and all references stay valid; only next and previous links change, and not for a post of no blog; when no post is in two blogs and none is listed twice, every blog's posts are linked in its sorted order |
| PreProcessors.PreProcess | src/main/java/com/sangupta/shire/site/SitePreProcessor.java:64-94 | Collect, build, merge, sort and link, then recent posts: a blog's resources are its old ones plus its files, sorted; a build failure is the result; every page is its built page with front matter merged, differing at most in its links, and not at all for a post of no blog; separate blogs are each linked in order; the recent posts are exactly the recent posts of all blogs' posts; the site stays well formed |
| BlogPages.BlogFolders | src/main/java/com/sangupta/shire/generators/BlogPagesGenerator.java:73-83 | The blog folders are the folders of the files named exactly `.blog` |
| BlogPages.BlogFoldersAppend | src/main/java/com/sangupta/shire/generators/BlogPagesGenerator.java:76-80 | The folders keep the dot files' order: the folders of two lists of files are those of the first followed by those of the second |
| BlogPages.BlogFoldersOne | src/main/java/com/sangupta/shire/generators/BlogPagesGenerator.java:77-79 | One file contributes its folder exactly when it is named `.blog` |
| BlogPages.BlogPosts | src/main/java/com/sangupta/shire/generators/BlogPagesGenerator.java:202-218 | A file is listed iff its path starts with the blog folder, without a separator |
| BlogPages.SiblingBlogPostListed | src/main/java/com/sangupta/shire/generators/BlogPagesGenerator.java:209-213 | A post under "blog2" is listed for "blog", unlike in the pre-processor |
| BlogPages.BlogPostsCorrected | src/main/java/com/sangupta/shire/generators/BlogPagesGenerator.java:202-218 | With the separator, a file is listed iff it is in the blog in the pre-processor's sense |
| BlogPages.NumBatches | src/main/java/com/sangupta/shire/generators/BlogPagesGenerator.java:48-117 | The batch count `size / 5 + 1` is the least `n` with `size < 5n` |
| BlogPages.NumBatchesCorrected | src/main/java/com/sangupta/shire/generators/BlogPagesGenerator.java:117 | The corrected count is the least `n` with `size <= 5n` |
| BlogPages.BatchSlice | src/main/java/com/sangupta/shire/generators/BlogPagesGenerator.java:118-124 | Batch `k` holds five posts, or the rest of the list for the last one |
| BlogPages.BatchesCoverList | src/main/java/com/sangupta/shire/generators/BlogPagesGenerator.java:117-124 | The batches concatenate, in order, to the sorted list |
| BlogPages.TrailingEmptyBatch | src/main/java/com/sangupta/shire/generators/BlogPagesGenerator.java:117 | For a multiple of five posts the last batch is empty, one more than the corrected count |
| BlogPages.CorrectedBatchesNonEmpty | src/main/java/com/sangupta/shire/generators/BlogPagesGenerator.java:117-124 | With the corrected count no batch is empty |
| BlogPages.PageName | src/main/java/com/sangupta/shire/generators/BlogPagesGenerator.java:127-132 | Every page name lies under the blog folder and ends in `.html`, and only batch 0 is `index.html` |
| BlogPages.PageNamesDistinct | src/main/java/com/sangupta/shire/generators/BlogPagesGenerator.java:127-132 | Different batches get different page names |
| BlogPages.ListedPost | src/main/java/com/sangupta/shire/generators/BlogPagesGenerator.java:175-183 | A listed post carries the date and the converted content and nothing else: with those two cleared it is the empty page |
| BlogPages.PaginatorOf | src/main/java/com/sangupta/shire/generators/BlogPagesGenerator.java:154-193 | The paginator of batch `k` lists the batch's posts and counts them; the previous page is one before its own and the next one after, except -1 exactly on the last batch |
| BlogPages.Listing | src/main/java/com/sangupta/shire/generators/BlogPagesGenerator.java:118-144 | With a generated resource that can be constructed and a listing layout that never throws: one listing page per batch, named by its index, with the batch's paginator, laid out and placed at its base path |
| BlogPages.UntilThrown | src/main/java/com/sangupta/shire/generators/BlogPagesGenerator.java:118-144 | The loop whose body may throw something other than an I/O error: it succeeds exactly when every iteration does, then with every iteration's value in order; otherwise it ends with the exception of the first iteration that throws, all earlier ones having succeeded |
| BlogPages.PushBatches | src/main/java/com/sangupta/shire/generators/BlogPagesGenerator.java:117-190 | The batch loop with a given resource constructor: every emitted page has its index's name, its batch's paginator, its layout and the constructor's resource; with every batch laid out and a constructor that never throws every batch gets through; otherwise the first batch already ends the loop with its layout exception, or else its constructor exception, because the handler catches only I/O errors |
| BlogPages.FixedLoopIsListing | src/main/java/com/sangupta/shire/generators/BlogPagesGenerator.java:117-190 | With the corrected constructor the batch loop succeeds exactly when every batch can be laid out, and then emits exactly the listing pages |
| BlogPages.ProcessBlog | src/main/java/com/sangupta/shire/generators/BlogPagesGenerator.java:108-190 | A null or empty list emits nothing; any other list, its posts taken as already converted (see "Left out"), throws: a null dereference from the sort on a post without a date, else the exception of laying out the first page (a missing or self-extending `post-listing.html`), else a null dereference from the first page's generated-resource constructor |
| BlogPages.ProcessBlogFixedConstructor | src/main/java/com/sangupta/shire/generators/BlogPagesGenerator.java:108-190 | With only the constructor corrected: the list is date-sorted, failing on a missing date, and succeeds exactly when each of the `size / 5 + 1` pages can be laid out, emitting the listing pages |
| BlogPages.FivePostsTwoPages | src/main/java/com/sangupta/shire/generators/BlogPagesGenerator.java:117-137 | With only the constructor corrected and a layout that never throws, five posts give two pages, the second `page/1.html` with no posts; the corrected count gives one |
| BlogPages.ProcessBlogCorrected | src/main/java/com/sangupta/shire/generators/BlogPagesGenerator.java:108-190 | With the corrected count: success exactly when the posts are dated and every page can be laid out, and then the listing pages, every one of them listing at least one post |
| BlogPages.ListingShowsAllPosts | src/main/java/com/sangupta/shire/generators/BlogPagesGenerator.java:108-190 | The corrected pages succeed exactly when every page can be laid out, and then list the newest-first permutation of the posts, batch by batch, linked by next-page numbers ending in -1 |
| BlogPages.EachBlog | src/main/java/com/sangupta/shire/generators/BlogPagesGenerator.java:93-102 | The loop over the blogs succeeds exactly when every blog does; otherwise it ends with the exception of the first blog that throws, all earlier ones having succeeded; every page it emits comes from one of the blogs |
| BlogPages.EachBlogAppend | src/main/java/com/sangupta/shire/generators/BlogPagesGenerator.java:93-102 | The blogs `a + b` emit the pages of `a` followed by those of `b`, or the first exception in that order |
| BlogPages.EachBlogOne | src/main/java/com/sangupta/shire/generators/BlogPagesGenerator.java:93-102 | One blog emits exactly its own listing |
| BlogPages.EachBlogNothing | src/main/java/com/sangupta/shire/generators/BlogPagesGenerator.java:93-102 | When no blog emits a page, the loop emits none |
| BlogPages.BlogListing | src/main/java/com/sangupta/shire/generators/BlogPagesGenerator.java:96-101 | One blog with the corrected membership and count emits no empty listing page |
| BlogPages.ExecuteBlogs | src/main/java/com/sangupta/shire/generators/BlogPagesGenerator.java:93-102 | With the corrected rules, the blogs succeed exactly when each blog's listing does, and no page is empty |
| BlogPages.ExecuteBlogsAppend | src/main/java/com/sangupta/shire/generators/BlogPagesGenerator.java:93-102 | With the corrected rules, the folders `a + b` give `a`'s listing pages followed by `b`'s, or the first exception, and one folder gives its own `BlogListing` |
| BlogPages.Execute | src/main/java/com/sangupta/shire/generators/BlogPagesGenerator.java:73-83 | With the corrected rules, `execute` succeeds exactly when the listing of every `.blog` file's folder does, emits no empty page, and emits nothing when no dot file is named `.blog` |
| BlogPages.ExecuteAppend | src/main/java/com/sangupta/shire/generators/BlogPagesGenerator.java:73-83 | The dot files `a + b` give the listing pages of `a`'s blogs followed by `b`'s, or the first exception; one dot file gives its folder's listing when it is named `.blog`, and nothing otherwise |
| BlogPages.BlogListingAsWritten | src/main/java/com/sangupta/shire/generators/BlogPagesGenerator.java:96-101 | One blog as written, with `startsWith` membership and the as-written `processBlog`, succeeds exactly when no file path starts with the folder, and then emits nothing |
| BlogPages.ExecuteBlogsAsWritten | src/main/java/com/sangupta/shire/generators/BlogPagesGenerator.java:93-102 | As written, the blogs succeed exactly when none of their folders lists a post, and then emit no page |
| BlogPages.ExecuteAsWritten | src/main/java/com/sangupta/shire/generators/BlogPagesGenerator.java:73-83 | As written, `execute` completes only when no `.blog` folder lists a post, and then writes no listing page |
| SiteMaps.Loc | src/main/java/com/sangupta/shire/generators/SiteMapGenerator.java:74-80 | A `/` is inserted between the site URL and the resource URL only when the latter lacks one |
| SiteMaps.LocJoint | src/main/java/com/sangupta/shire/generators/SiteMapGenerator.java:74-80 | The location starts with the site URL, ends with the resource URL and has exactly one `/` at the joint |
| SiteMaps.UrlBlock | src/main/java/com/sangupta/shire/generators/SiteMapGenerator.java:68-94 | A resource's block opens with its `<loc>`, the site URL printed as "null" when unset; a null resource URL or publish date throws a null dereference |
| SiteMaps.NullSiteUrl | src/main/java/com/sangupta/shire/generators/SiteMapGenerator.java:68-75 | A null site URL prints exactly as the text "null" |
| SiteMaps.UrlBlocks | src/main/java/com/sangupta/shire/generators/SiteMapGenerator.java:70-96 | The blocks of a list succeed iff every resource has a URL and a publish date; otherwise a null dereference |
| SiteMaps.SiteMap | src/main/java/com/sangupta/shire/generators/SiteMapGenerator.java:63-98 | The text starts with the XML declaration and the 0.9 `urlset` and ends with `</urlset>`; it has no blocks for a null or empty list; it throws a null dereference iff some resource lacks a URL or a publish date |
| SiteMaps.UrlBlocksAppend | src/main/java/com/sangupta/shire/generators/SiteMapGenerator.java:70-96 | The blocks of two lists succeed iff the blocks of each do, and are then the blocks of the first followed by those of the second |
| SiteMaps.UrlBlocksSingle | src/main/java/com/sangupta/shire/generators/SiteMapGenerator.java:72-94 | One resource gives exactly its own `<url>` block, or its own null dereference |
| SiteMaps.SiteMapBlocks | src/main/java/com/sangupta/shire/generators/SiteMapGenerator.java:70-98 | Each resource adds exactly its own block, in input order, before the footer |
| SiteMaps.SiteMapResource | src/main/java/com/sangupta/shire/generators/SiteMapGenerator.java:100-104 | As written the generated resource's constructor throws a null dereference, so no sitemap is ever exported |
| SiteMaps.SiteMapResourceCorrected | src/main/java/com/sangupta/shire/generators/SiteMapGenerator.java:100-104 | With the constructor corrected, the sitemap text is exported at `/sitemap.xml` whenever it can be built |
| RemoveHeading.FirstApplicable | src/main/java/com/sangupta/shire/tags/RemoveHeadingTag.java:68-79 | The first of h1, h2, h3 that opens the text and is closed in it; none before it applies |
| RemoveHeading.Remove | src/main/java/com/sangupta/shire/tags/RemoveHeadingTag.java:68-79 | The result is always a suffix of the input |
| RemoveHeading.RemoveSpec | src/main/java/com/sangupta/shire/tags/RemoveHeadingTag.java:68-79 | With an applicable heading the result is the text after the first closing tag; otherwise the data is unchanged |
| RemoveHeading.DoTag | src/main/java/com/sangupta/shire/tags/RemoveHeadingTag.java:53-62 | A null argument writes nothing; otherwise a suffix of the argument is written |
| RemoveHeading.RemovesLeadingH1 | src/main/java/com/sangupta/shire/tags/RemoveHeadingTag.java:68-79 | A leading `<h1>` heading is removed with its closing tag |
| RemoveHeading.NoHeadingUnchanged | src/main/java/com/sangupta/shire/tags/RemoveHeadingTag.java:68-79 | Text that does not start with a tag is unchanged |
| Hex.Unsigned | src/main/java/com/sangupta/shire/util/WebResponseCacheUtil.java:153 | `0xFF & b` is the byte read as unsigned: itself when non-negative, plus 256 otherwise |
| Hex.ToHexString | src/main/java/com/sangupta/shire/util/WebResponseCacheUtil.java:153-158 | `Integer.toHexString` of a byte has one digit below 16 and two otherwise |
| Hex.PaddedIsPair | src/main/java/com/sangupta/shire/util/WebResponseCacheUtil.java:153-158 | With the zero padding every byte is exactly its two lowercase digits, high nibble first |
| Hex.AsHex | src/main/java/com/sangupta/shire/util/WebResponseCacheUtil.java:145-162 | Null gives null; otherwise the text is the base16 encoding of the bytes |
| Hex.Base16Spec | src/main/java/com/sangupta/shire/util/WebResponseCacheUtil.java:152-159 | The text is twice as long as the input and characters `2i`, `2i+1` encode byte `i` alone |
| Hex.Base16RoundTrip | src/main/java/com/sangupta/shire/util/WebResponseCacheUtil.java:145-162 | The text is lowercase hexadecimal and decodes back to the bytes |
| JavaLang.ReaderLines | src/main/java/com/sangupta/shire/util/FrontMatterUtils.java:53-58 | Every line `readLine` returns is free of line terminators |
| JavaLang.ReadOneLine | src/main/java/com/sangupta/shire/util/FrontMatterUtils.java:53-58 | A line followed by `\n` or `\r\n` is read as that line, and reading continues after the separator |
| Importer.RemoveSchemeAndDomain | src/main/java/com/sangupta/shire/tools/ShireBlogImporter.java:326-330 | The result is a suffix of the URL |
| Importer.RemoveSchemeAndDomainSpec | src/main/java/com/sangupta/shire/tools/ShireBlogImporter.java:326-330 | For `scheme://host/path` the result is `path` |
| Importer.NoPathKeepsUrl | src/main/java/com/sangupta/shire/tools/ShireBlogImporter.java:328-329 | Without a `/` after the host the whole URL is returned |
| Importer.FileName | src/main/java/com/sangupta/shire/tools/ShireBlogImporter.java:213-214 | The file name is the URL text after its last `/` |
| Importer.WriteValuesIsJoin | src/main/java/com/sangupta/shire/tools/ShireBlogImporter.java:306-318 | The separator loop writes the values joined by the separator, with none leading |
| Importer.MetaLines | src/main/java/com/sangupta/shire/tools/ShireBlogImporter.java:238-252 | One `key: value` line per metadata entry, in order |
| Importer.WriteEachPost | src/main/java/com/sangupta/shire/tools/ShireBlogImporter.java:226-264 | A post without a URL is skipped; otherwise the file is named after the URL's last segment; with the categories line corrected writing never fails |
| Importer.WriteEachPage | src/main/java/com/sangupta/shire/tools/ShireBlogImporter.java:190-216 | A page without a URL is skipped; otherwise the file is named after the URL's last segment |
| Importer.MetaLinesReadBack | src/main/java/com/sangupta/shire/tools/ShireBlogImporter.java:240-242 | The written metadata lines read back through `readLines` as each key with its trimmed value |
| Importer.TextReadsBack | src/main/java/com/sangupta/shire/tools/ShireBlogImporter.java:273-291 | Lines written each followed by a `\n` or `\r\n` separator read back through `readLine` as the same lines, when none holds a line break itself |
| Importer.WrittenLines | src/main/java/com/sangupta/shire/tools/ShireBlogImporter.java:238-258 | Read back line by line, a written file gives the marker, the metadata lines and the marker, then the lines of its content |
| Importer.FrontMatterReadsBack | src/main/java/com/sangupta/shire/tools/ShireBlogImporter.java:238-258 | A written file's text, read back line by line, has front matter that ends after the metadata lines and their two markers and holds the written properties, when keys and values are on one line |
| Importer.PostFrontMatterReadsBack | src/main/java/com/sangupta/shire/tools/ShireBlogImporter.java:226-264 | The text of an imported post's file, read back line by line, scans to the written metadata, when its fields are on one line |
| Importer.PostMetaOneLine | src/main/java/com/sangupta/shire/tools/ShireBlogImporter.java:238-252 | When a post's URL, layout, title, date, tags and categories hold no line break, every front-matter pair it writes has a plain key and stays on one line |
| Importer.PostExpected | src/main/java/com/sangupta/shire/tools/ShireBlogImporter.java:238-252 | With the categories line corrected, the pairs of a post with tags and categories map `title`, `permalink`, `tags` and `categories` to its trimmed title, permalink, joined tags and joined categories |
| Importer.PostProperties | src/main/java/com/sangupta/shire/tools/ShireBlogImporter.java:238-258 | With the categories line corrected, the imported post's title, permalink, tags and categories read back from the front matter of its written text |
| Importer.CategoriesFromTags | src/main/java/com/sangupta/shire/tools/ShireBlogImporter.java:250-252 | As written, the categories property holds the tags, and a post with categories but no tags fails with a null dereference |
| Slices.RemoveFromSliceAtIndex | utils/slice.go:14-22 | A nil slice or an index outside the slice gives the slice back; otherwise the result is one shorter |
| Slices.RemoveSpec | utils/slice.go:14-22 | The result is the input minus one occurrence of the removed element; every other position below the new length is unchanged and the gap holds the old last element |
| Slices.RemoveLast | utils/slice.go:20-22 | Removing the last index drops the last element |

## Left out

- `AbstractSiteFile`, `FrontMatterConstants`, `ConfigurationConstants` and `ShireUtils` are not part of this model. The front-matter constants (title key, tag separators, tags and categories folders) are a `Constants` parameter.
- Choosing the converter for a file (`getConverter`) is not modelled; the converter is a parameter.
- `BlogResource.java:151,155` call a three-argument `TagOrCategory` constructor and `getResourcePost()`, which are not part of this model. The new entity's base URL is a `folderOf` parameter, and a resource is identified with its page.
- `markAsBlog`, `getAllPosts` and the one-argument `mergeFrontMatter` are not part of this model. A page's blog path is a `blogPathOf` parameter, and a blog's posts are its resources.
- The natural order of `RenderableResource` used by `Collections.sort` is not part of this model; it is a `sortResources` parameter, required only to permute.
- `ResourceComparatorOnDate` is not part of this model; the listing pages sort with the post date comparator.
- `HashMap` iteration order is not modelled. Extracted tags and categories come out in first-sight order, and the markdown extension map is proved to give the same result in either order.
- `File.listFiles` returning null is not modelled: a folder is a node with its children.
- `addRecentPosts` is modelled as storing the recent list in the site.
- Rendering (`layout`, `layoutWithTemplateCode`), markdown conversion, date parsing and formatting are function parameters, not implementations.
- Reading layouts and includes from disk (`readLayoutsAndIncludes`) is not modelled; the two folders are maps from file name to file text.
- `pushBatchPage`'s conversion of each listed post (`getConvertedContent(model)`, BlogPagesGenerator.java:174-183) is taken as already done: a listed post carries its page's content. Nothing in the code this model covers converts the posts first, since Page.java:123 calls a `getConvertedContent()` without arguments that no class declares. When a post was not converted, `pushBatchPage` has just cleared the page (BlogPagesGenerator.java:171). A markdown post then throws a `NullPointerException` at MarkdownConverter.java:76 before the layout at :186 (`Resources.ConvertedContentWithoutPage`), and an unreadable file throws an `IOException` that the batch loop catches before going on to the next batch. `BlogPages.ProcessBlog` and the other listing members do not model either.
- The as-written composition is built only as `BlogPages.ExecuteAsWritten`, which shows that no blog with a post gets through. The listing pages are stated for the corrected composition (`BlogPages.Execute`).
- `TemplateData.setPage(null)` and the shared paginator's mutation in `pushBatchPage` are not modelled: each listing page carries its own paginator.
- A null layout name is not modelled; layout names are strings.
- Null elements inside tag and category lists are not modelled.
- All file and stream I/O, `IOException` handling other than an unreadable file, `exportBlog`, `startExport`, `main` and the importer's XML parsing are left out. The importer's content is taken as given lines, and `Date.toString` is an opaque string.
- `WebResponseCacheUtil`'s MD5 digest and cache reads and writes are left out; only `asHex` is modelled.
- The lazy, synchronised creation of the markdown processors is modelled as a function over the two optional processors, without threads.
- `FrontMatter.CheckFileHasFrontMatter`: the source's single loop with a `found` flag is written as two loops (skip blank lines, then read the block); the results are the same.
- `Layouts.LayoutContent`: the recursion carries a fuel bound; when it runs out the result is a stack overflow, which is what the unbounded recursion of a self-referencing layout does.
- `Slices.RemoveFromSliceAtIndex`: the write into the caller's backing array is not modelled; only the returned slice is.
- `Taxonomy.CompareTo`: names are compared with ASCII-only case folding (`JavaLang.CompareToIgnoreCase`, `JavaLang.LowerCase`). `String.compareToIgnoreCase` also folds non-ASCII letters, so `"Été"` and `"été"` compare equal in the source but not in the model.
- `Pages.CompareTo`: page ids are lower-cased ASCII only (`JavaLang.LowerCase`), where `String.toLowerCase` folds every Unicode letter; ids differing only in the case of a non-ASCII letter are equal in the source and distinct in the model.
- `Pages.MergeFrontMatter`: the `published: false` test uses ASCII-only `JavaLang.EqualsIgnoreCase`; `String.equalsIgnoreCase` also matches non-ASCII letters that fold to the same character (such as the long s, which upper-cases to `S`).
- `Blogs.Step`: a page's tag and category lists hold a copy of the entity as it was when the page was added. In the source they hold the same `TagOrCategory` object as the blog's list, which keeps gaining posts; the model's copy agrees with it in name and base path but not in its later posts.
- `Comparators.CompareOnDate` and `Comparators.CompareOnNames`: in the source these are `Comparator<Post>`, and `Post` is unrelated to `Page`, so `SitePreProcessor.java:86` sorting a `List<Page>` with `PostComparatorOnDate` does not compile as given. The model applies them to pages, comparing the same fields: the date, and the title then the URL.
- `Layouts.FindLayout`: the layouts folder is assumed to exist, so the empty layout name resolves to the folder itself, as `new File(dir, "")` does.
- The rest of the Go rewrite (`site/`, `template/`, `config/`, `app/`, `logger/`, `vars/`, `shire.go`, `utils/fs.go`, `utils/log.go`) is I/O, stubs or name tables and is left out.

## Findings

| source | as written | input that shows it | evidently intended | confidence | as-written member | corrected member |
|---|---|---|---|---|---|---|
| src/main/java/com/sangupta/shire/site/ProcessableSiteFile.java:101-133 | `lineIndex` is not advanced on skipped blank lines, so with a blank line first the properties are read from the opening `---` on | the lines `""`, `---`, `title: x`, `---` fail with `StringIndexOutOfBoundsException` | separators at absolute line positions; the block at lines 1 and 3 | not executed | SiteFiles.BlankLineBreaksFrontMatter | SiteFiles.BlankLineCorrectedFrontMatter |
| src/main/java/com/sangupta/shire/domain/GeneratedResource.java:37-41 | the constructor calls `super(null, null)`, whose `getBasePath` dereferences the null file | any path and content | keep the given path and content | not executed | Resources.GeneratedAlwaysFails | Resources.NewGeneratedCorrected |
| src/main/java/com/sangupta/shire/domain/BlogResource.java:159-163 | the back-reference appends to `post.getTags()`/`getCategories()`, which are null while the list is empty | a blog with one post whose front matter is `tags: java` | append to the post's (empty) list | not executed | Blogs.BuildBlogFailsOnTaggedPost | Blogs.HarvestAllSpec |
| src/main/java/com/sangupta/shire/generators/BlogPagesGenerator.java:117 | `size / 5 + 1` batches | with the `GeneratedResource` constructor fixed, five posts give a second page `page/1.html` with no posts | `(size + 4) / 5` batches, none empty | not executed | BlogPages.FivePostsTwoPages | BlogPages.ListingShowsAllPosts |
| src/main/java/com/sangupta/shire/generators/BlogPagesGenerator.java:209-213 | membership is `startsWith(blogFolder)` without a separator | `/site/blog2/post.md` is listed for the blog `/site/blog` | the pre-processor's test with a separator | not executed | BlogPages.SiblingBlogPostListed | BlogPages.BlogPostsCorrected |
| src/main/java/com/sangupta/shire/tools/ShireBlogImporter.java:250-252 | the categories line is written from `post.getTags()` | tags `a` and categories `b` give `categories: a`; categories without tags throw `NullPointerException` | write the post's categories | not executed | Importer.CategoriesFromTags | Importer.PostProperties |
