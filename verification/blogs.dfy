/**
 * A blog: a folder marked by a `.blog` file, the posts inside it, and the
 * tags and categories harvested from those posts' front matter.
 */
module Blogs {
  import opened Wrappers
  import opened JavaLang
  import opened YmlConfig
  import opened Taxonomy
  import opened Pages
  import SiteWriters

  /** A file named `name` in the folder whose absolute path is `folder`. */
  datatype File = File(folder: string, name: string)

  /** `resources` are the blog's posts, as references into the list of pages. */
  datatype Blog = Blog(
    basePath: string,
    blogName: string,
    baseURL: string,
    resources: seq<PostRef>,
    tags: seq<TagOrCategory>,
    categories: seq<TagOrCategory>)

  /**
   * The constructor, given the marker file and its text (null when reading
   * it fails): the name is the whole text and the base path the file's folder.
   */
  function NewBlog(file: Option<File>, text: Option<string>, writer: SiteWriters.SiteWriter): (r: Result<Blog, Exception>)
    ensures r.Success? <==> file.Some? && file.value.name == ".blog" && text.Some?
    ensures r.Failure? ==> r.error.IllegalArgument?
    ensures r.Success? ==>
              r.value.basePath == file.value.folder && r.value.blogName == text.value &&
              r.value.baseURL == SiteWriters.CreateBasePath(writer, file.value.folder) &&
              r.value.resources == [] && r.value.tags == [] && r.value.categories == []
  {
    if file.None? then Failure(IllegalArgument("Cannot work on a null file."))
    else if file.value.name != ".blog" then Failure(IllegalArgument("A blog is represented by .blog file."))
    else if text.None? then Failure(IllegalArgument("Cannot read blog file."))
    else
      var basePath := file.value.folder;
      Success(Blog(basePath, text.value, SiteWriters.CreateBasePath(writer, basePath), [], [], []))
  }

  /** `addResource`: appends the post. */
  function AddResource(b: Blog, post: PostRef): (b': Blog)
    ensures b'.resources == b.resources + [post]
    ensures b' == b.(resources := b'.resources)
  {
    b.(resources := b.resources + [post])
  }

  /** `equals`: another blog with the same base path. */
  predicate Equals(b: Blog, other: Option<Blog>)
  {
    other.Some? && b.basePath == other.value.basePath
  }

  /** `hashCode`: the base path's string hash. */
  function HashCode(b: Blog): int
  {
    StringHash(b.basePath)
  }

  /** Blogs are equal exactly when their base paths are, and equal blogs hash alike. */
  lemma EqualsOnBasePath(b: Blog, c: Blog)
    ensures Equals(b, Some(c)) <==> b.basePath == c.basePath
    ensures Equals(b, Some(c)) ==> HashCode(b) == HashCode(c)
    ensures Equals(b, Some(c)) <==> Equals(c, Some(b))
  {
  }

  /** The raw tokens trimmed, with the ones that trim to nothing dropped, in order. */
  function Tokens(raw: seq<string>): seq<string>
  {
    if |raw| == 0 then []
    else
      var rest := Tokens(raw[..|raw| - 1]);
      var t := Trim(raw[|raw| - 1]);
      if t == "" then rest else rest + [t]
  }

  /** Tokens are never empty, and tokens that are already trimmed come back unchanged. */
  lemma {:induction false} TokensSpec(raw: seq<string>)
    ensures |Tokens(raw)| <= |raw|
    ensures forall i :: 0 <= i < |Tokens(raw)| ==> Tokens(raw)[i] != ""
    ensures (forall i :: 0 <= i < |raw| ==> raw[i] != "" && IsTrimmed(raw[i])) ==> Tokens(raw) == raw
  {
    if |raw| > 0 {
      TokensSpec(raw[..|raw| - 1]);
      var x := raw[|raw| - 1];
      if x != "" && IsTrimmed(x) {
        TrimTrimmed(x);
      }
      if forall i :: 0 <= i < |raw| ==> raw[i] != "" && IsTrimmed(raw[i]) {
        assert raw == raw[..|raw| - 1] + [x];
      }
    }
  }

  /**
   * The tokens a post contributes for a property: none when the property is
   * absent or empty, otherwise its separator-split pieces, trimmed, blanks dropped.
   */
  function PropertyTokens(page: Page, property: string, seps: set<char>): seq<string>
  {
    var line := Lookup(page.frontMatter, property);
    if line.None? || line.value == "" then [] else Tokens(SplitAny(line.value, seps))
  }

  /** One occurrence of a token in a post. */
  datatype Occurrence = Occurrence(token: string, post: PostRef)

  function Pair(tokens: seq<string>, post: PostRef): (r: seq<Occurrence>)
    ensures |r| == |tokens|
    ensures forall i :: 0 <= i < |r| ==> r[i] == Occurrence(tokens[i], post)
  {
    seq(|tokens|, i requires 0 <= i < |tokens| => Occurrence(tokens[i], post))
  }

  /** Every post reference points into the list of pages. */
  predicate ValidRefs(resources: seq<PostRef>, pages: seq<Page>)
  {
    forall i :: 0 <= i < |resources| ==> resources[i] < |pages|
  }

  /** The token occurrences in the order the nested loops over posts and tokens meet them. */
  function Occurrences(pages: seq<Page>, resources: seq<PostRef>, property: string, seps: set<char>): seq<Occurrence>
    requires ValidRefs(resources, pages)
  {
    if |resources| == 0 then []
    else
      var post := resources[|resources| - 1];
      Occurrences(pages, resources[..|resources| - 1], property, seps) + Pair(PropertyTokens(pages[post], property, seps), post)
  }

  /** Occurrences only refer to posts of the blog. */
  lemma {:induction false} OccurrencesValid(pages: seq<Page>, resources: seq<PostRef>, property: string, seps: set<char>)
    requires ValidRefs(resources, pages)
    ensures forall i :: 0 <= i < |Occurrences(pages, resources, property, seps)| ==>
              Occurrences(pages, resources, property, seps)[i].post in resources
  {
    if |resources| > 0 {
      OccurrencesValid(pages, resources[..|resources| - 1], property, seps);
    }
  }

  /** Occurrences depend on the pages' front matter alone. */
  lemma {:induction false} OccurrencesOnFrontMatter(pages: seq<Page>, pages': seq<Page>, resources: seq<PostRef>,
                                                    property: string, seps: set<char>)
    requires ValidRefs(resources, pages) && |pages'| == |pages|
    requires forall r :: 0 <= r < |pages| ==> pages'[r].frontMatter == pages[r].frontMatter
    ensures ValidRefs(resources, pages')
    ensures Occurrences(pages', resources, property, seps) == Occurrences(pages, resources, property, seps)
  {
    if |resources| > 0 {
      OccurrencesOnFrontMatter(pages, pages', resources[..|resources| - 1], property, seps);
    }
  }

  /** The entities found so far and the pages with their back-references. */
  datatype Harvest = Harvest(entities: seq<TagOrCategory>, pages: seq<Page>)

  /** The index of the entity named `name`, or -1: the lookup in the result map. */
  function Find(entities: seq<TagOrCategory>, name: string): (i: int)
    ensures -1 <= i < |entities|
    ensures i >= 0 ==> entities[i].name == name
    ensures i < 0 ==> forall k :: 0 <= k < |entities| ==> entities[k].name != name
  {
    if |entities| == 0 then -1
    else if entities[|entities| - 1].name == name then |entities| - 1
    else Find(entities[..|entities| - 1], name)
  }

  /** The tag list (for tags) or category list of a page. */
  function ListOf(p: Page, isTags: bool): seq<TagOrCategory>
  {
    if isTags then p.tags else p.categories
  }

  function WithList(p: Page, isTags: bool, list: seq<TagOrCategory>): (q: Page)
    ensures ListOf(q, isTags) == list && ListOf(q, !isTags) == ListOf(p, !isTags)
    ensures q.frontMatter == p.frontMatter
  {
    if isTags then p.(tags := list) else p.(categories := list)
  }

  /**
   * One token occurrence: find or create the entity and add the post to it,
   * then add the entity to the post's list. As written the list is fetched
   * through `getTags`/`getCategories`, which return null for an empty list.
   * `folderOf` gives a new entity's base path.
   */
  function Step(h: Harvest, o: Occurrence, isTags: bool, folderOf: string -> string, asWritten: bool): (r: Result<Harvest, Exception>)
    requires o.post < |h.pages|
    ensures r.Success? ==> |r.value.pages| == |h.pages|
  {
    var i := Find(h.entities, o.token);
    var entities :=
      if i < 0 then h.entities + [AddPost(NewTagOrCategory(o.token, folderOf(o.token)), o.post)]
      else h.entities[i := AddPost(h.entities[i], o.post)];
    var k := if i < 0 then |h.entities| else i;
    var page := h.pages[o.post];
    var list := ListOf(page, isTags);
    if asWritten && list == [] then Failure(NullPointer)
    else Success(Harvest(entities, h.pages[o.post := WithList(page, isTags, list + [entities[k]])]))
  }

  predicate Refers(occurrences: seq<Occurrence>, pages: seq<Page>)
  {
    forall i :: 0 <= i < |occurrences| ==> occurrences[i].post < |pages|
  }

  /** The loop over all occurrences. */
  function HarvestAll(h: Harvest, occurrences: seq<Occurrence>, isTags: bool, folderOf: string -> string,
                      asWritten: bool): (r: Result<Harvest, Exception>)
    requires Refers(occurrences, h.pages)
    ensures r.Success? ==> |r.value.pages| == |h.pages|
  {
    if |occurrences| == 0 then Success(h)
    else
      var last := occurrences[|occurrences| - 1];
      var h' :- HarvestAll(h, occurrences[..|occurrences| - 1], isTags, folderOf, asWritten);
      Step(h', last, isTags, folderOf, asWritten)
  }

  /**
   * `extractAllTagsOrCategories(property)`: the entities in the order they
   * were first seen, and the pages with their back-references.
   */
  function Extract(b: Blog, pages: seq<Page>, property: string, consts: Constants, folderOf: string -> string,
                   asWritten: bool): Result<Harvest, Exception>
    requires ValidRefs(b.resources, pages)
  {
    var occurrences := Occurrences(pages, b.resources, property, consts.tagSeparators);
    OccurrencesValid(pages, b.resources, property, consts.tagSeparators);
    HarvestAll(Harvest([], pages), occurrences, property == consts.tags, folderOf, asWritten)
  }

  /** `buildBlog`: the tags harvested, then the categories, appended to the blog's lists. */
  function BuildBlog(b: Blog, pages: seq<Page>, consts: Constants, folderOf: string -> string,
                     asWritten: bool): (r: Result<(Blog, seq<Page>), Exception>)
    requires ValidRefs(b.resources, pages)
    ensures r.Success? ==> |r.value.1| == |pages|
    ensures r.Success? ==> r.value.0.basePath == b.basePath && r.value.0.resources == b.resources
  {
    var tags :- Extract(b, pages, consts.tags, consts, folderOf, asWritten);
    assert ValidRefs(b.resources, tags.pages);
    var categories :- Extract(b, tags.pages, consts.categories, consts, folderOf, asWritten);
    Success((b.(tags := b.tags + tags.entities, categories := b.categories + categories.entities), categories.pages))
  }

  // ---------------------------------------------------------------------------
  // As written: the first back-reference dereferences null

  /**
   * As written, harvesting fails as soon as one occurrence falls on a post
   * whose list is still empty, which is every post before its front matter
   * is merged.
   */
  lemma {:induction false} HarvestAllFails(h: Harvest, occurrences: seq<Occurrence>, isTags: bool,
                                           folderOf: string -> string)
    requires Refers(occurrences, h.pages) && |occurrences| > 0
    requires forall r :: 0 <= r < |h.pages| ==> ListOf(h.pages[r], isTags) == []
    ensures HarvestAll(h, occurrences, isTags, folderOf, true) == Failure(NullPointer)
  {
    var init := occurrences[..|occurrences| - 1];
    if |init| > 0 {
      HarvestAllFails(h, init, isTags, folderOf);
    } else {
      assert HarvestAll(h, init, isTags, folderOf, true) == Success(h);
    }
  }

  /** A blog with one post tagged "java", on a fresh page, cannot be built. */
  lemma BuildBlogFailsOnTaggedPost(folderOf: string -> string)
    ensures var consts := Constants("title", {' ', ','}, "tags", "categories");
            var page := EmptyPage().(frontMatter := Some(map[consts.tags := "java"]));
            var blog := Blog("/site/blog", "Blog", "/blog", [0], [], []);
            BuildBlog(blog, [page], consts, folderOf, true) == Failure(NullPointer)
  {
    var consts := Constants("title", {' ', ','}, "tags", "categories");
    var page := EmptyPage().(frontMatter := Some(map[consts.tags := "java"]));
    var blog := Blog("/site/blog", "Blog", "/blog", [0], [], []);
    var occurrences := Occurrences([page], blog.resources, consts.tags, consts.tagSeparators);
    assert |occurrences| == 1 by {
      JavaTagged(page, consts);
      var none: seq<PostRef> := [];
      assert blog.resources[..0] == none;
      assert Occurrences([page], none, consts.tags, consts.tagSeparators) == [];
      assert occurrences == [] + Pair(["java"], 0);
    }
    assert Extract(blog, [page], consts.tags, consts, folderOf, true) == Failure(NullPointer) by {
      HarvestAllFails(Harvest([], [page]), occurrences, true, folderOf);
    }
  }

  /** The page's tag property yields the one token "java". */
  lemma JavaTagged(page: Page, consts: Constants)
    requires consts.tagSeparators == {' ', ','} && page.frontMatter == Some(map[consts.tags := "java"])
    ensures PropertyTokens(page, consts.tags, consts.tagSeparators) == ["java"]
  {
    assert SplitAny("java", consts.tagSeparators) == ["java"] by {
      assert Join(["java"], ' ') == "java";
      assert NoneIn("java", consts.tagSeparators);
      SplitJoin(["java"], ' ', consts.tagSeparators);
    }
    assert Tokens(["java"]) == ["java"] by {
      assert IsTrimmed("java");
      TokensSpec(["java"]);
    }
    assert Lookup(page.frontMatter, consts.tags) == Some("java");
  }

  // ---------------------------------------------------------------------------
  // Corrected: the back-reference appended to the page's own list

  /** The names of the occurrences, in order. */
  function TokenNames(occurrences: seq<Occurrence>): seq<string>
  {
    if |occurrences| == 0 then []
    else TokenNames(occurrences[..|occurrences| - 1]) + [occurrences[|occurrences| - 1].token]
  }

  /** Each name once, in the order it is first seen: the order a linked map would keep. */
  function FirstSight(names: seq<string>): seq<string>
  {
    if |names| == 0 then []
    else
      var rest := FirstSight(names[..|names| - 1]);
      if names[|names| - 1] in rest then rest else rest + [names[|names| - 1]]
  }

  lemma {:induction false} FirstSightSpec(names: seq<string>)
    ensures forall x :: x in FirstSight(names) <==> x in names
    ensures forall i, j :: 0 <= i < j < |FirstSight(names)| ==> FirstSight(names)[i] != FirstSight(names)[j]
  {
    if |names| > 0 {
      FirstSightSpec(names[..|names| - 1]);
      assert names == names[..|names| - 1] + [names[|names| - 1]];
    }
  }

  /** The posts of the occurrences of `name`, in order, one per occurrence. */
  function PostsNamed(occurrences: seq<Occurrence>, name: string): seq<PostRef>
  {
    if |occurrences| == 0 then []
    else
      var o := occurrences[|occurrences| - 1];
      PostsNamed(occurrences[..|occurrences| - 1], name) + (if o.token == name then [o.post] else [])
  }

  /** The names of the occurrences that fall on `post`, in order. */
  function NamesOn(occurrences: seq<Occurrence>, post: PostRef): seq<string>
  {
    if |occurrences| == 0 then []
    else
      var o := occurrences[|occurrences| - 1];
      NamesOn(occurrences[..|occurrences| - 1], post) + (if o.post == post then [o.token] else [])
  }

  function Names(list: seq<TagOrCategory>): (r: seq<string>)
    ensures |r| == |list|
    ensures forall i :: 0 <= i < |list| ==> r[i] == list[i].name
  {
    seq(|list|, i requires 0 <= i < |list| => list[i].name)
  }

  /** The entities found after `occurrences`: one per name, with the posts of its occurrences. */
  predicate EntitiesHarvested(h: Harvest, occurrences: seq<Occurrence>, folderOf: string -> string)
  {
    Harvested(h.entities, occurrences, folderOf)
  }

  predicate Harvested(entities: seq<TagOrCategory>, occurrences: seq<Occurrence>, folderOf: string -> string)
  {
    Names(entities) == FirstSight(TokenNames(occurrences)) &&
    forall k :: 0 <= k < |entities| ==>
      Posts(entities[k]) == PostsNamed(occurrences, entities[k].name) &&
      entities[k].baseURL == folderOf(entities[k].name) &&
      entities[k].url == folderOf(entities[k].name) + "/index.html"
  }

  /** The pages after `occurrences`: each list grown by the names that fell on its page. */
  predicate PagesHarvested(h0: Harvest, h: Harvest, occurrences: seq<Occurrence>, isTags: bool)
  {
    |h.pages| == |h0.pages| &&
    forall r :: 0 <= r < |h.pages| ==>
      h.pages[r].frontMatter == h0.pages[r].frontMatter &&
      ListOf(h.pages[r], !isTags) == ListOf(h0.pages[r], !isTags) &&
      Names(ListOf(h.pages[r], isTags)) == Names(ListOf(h0.pages[r], isTags)) + NamesOn(occurrences, r)
  }

  /** The reference definitions extended by one occurrence. */
  lemma Snoc(occurrences: seq<Occurrence>, o: Occurrence)
    ensures TokenNames(occurrences + [o]) == TokenNames(occurrences) + [o.token]
    ensures forall name :: PostsNamed(occurrences + [o], name) ==
              PostsNamed(occurrences, name) + (if o.token == name then [o.post] else [])
    ensures forall r :: NamesOn(occurrences + [o], r) ==
              NamesOn(occurrences, r) + (if o.post == r then [o.token] else [])
  {
    assert (occurrences + [o])[..|occurrences|] == occurrences;
  }

  /** A name that never occurs has no posts. */
  lemma {:induction false} PostsNamedAbsent(occurrences: seq<Occurrence>, name: string)
    requires name !in TokenNames(occurrences)
    ensures PostsNamed(occurrences, name) == []
  {
    if |occurrences| > 0 {
      var init := occurrences[..|occurrences| - 1];
      assert TokenNames(occurrences) == TokenNames(init) + [occurrences[|occurrences| - 1].token];
      PostsNamedAbsent(init, name);
    }
  }

  lemma PostsNamedSnoc(occurrences: seq<Occurrence>, o: Occurrence, name: string)
    ensures PostsNamed(occurrences + [o], name) == PostsNamed(occurrences, name) + (if o.token == name then [o.post] else [])
  {
    assert (occurrences + [o])[..|occurrences|] == occurrences;
  }

  lemma FirstSightSnocNew(names: seq<string>, x: string)
    requires x !in names
    ensures FirstSight(names + [x]) == FirstSight(names) + [x]
  {
    FirstSightSpec(names);
    assert (names + [x])[..|names|] == names;
  }

  /** A new name's entity, appended after the others, keeps the entities harvested. */
  lemma NewEntityHarvested(entities: seq<TagOrCategory>, occurrences: seq<Occurrence>, o: Occurrence,
                           folderOf: string -> string)
    requires Harvested(entities, occurrences, folderOf)
    requires forall k :: 0 <= k < |entities| ==> entities[k].name != o.token
    ensures Harvested(entities + [AddPost(NewTagOrCategory(o.token, folderOf(o.token)), o.post)], occurrences + [o], folderOf)
  {
    var t := AddPost(NewTagOrCategory(o.token, folderOf(o.token)), o.post);
    var es := entities + [t];
    var tokens := TokenNames(occurrences);
    assert TokenNames(occurrences + [o]) == tokens + [o.token] by {
      assert (occurrences + [o])[..|occurrences|] == occurrences;
    }
    FirstSightSpec(tokens);
    assert o.token !in Names(entities);
    FirstSightSnocNew(tokens, o.token);
    assert Names(es) == Names(entities) + [o.token];
    forall k | 0 <= k < |es|
      ensures Posts(es[k]) == PostsNamed(occurrences + [o], es[k].name)
    {
      PostsNamedSnoc(occurrences, o, es[k].name);
      if k < |entities| {
        assert es[k] == entities[k];
      } else {
        PostsNamedAbsent(occurrences, o.token);
      }
    }
  }

  /** One corrected step when the token is new: a fresh entity holding the one post. */
  lemma StepNewEntity(h: Harvest, occurrences: seq<Occurrence>, o: Occurrence, isTags: bool, folderOf: string -> string)
    requires o.post < |h.pages| && EntitiesHarvested(h, occurrences, folderOf)
    requires Find(h.entities, o.token) < 0
    ensures EntitiesHarvested(Step(h, o, isTags, folderOf, false).value, occurrences + [o], folderOf)
  {
    assert Step(h, o, isTags, folderOf, false).value.entities ==
           h.entities + [AddPost(NewTagOrCategory(o.token, folderOf(o.token)), o.post)];
    NewEntityHarvested(h.entities, occurrences, o, folderOf);
  }

  lemma FirstSightSnocOld(names: seq<string>, x: string)
    requires x in names
    ensures FirstSight(names + [x]) == FirstSight(names)
  {
    FirstSightSpec(names);
    assert (names + [x])[..|names|] == names;
  }

  /** A known name's entity gaining the post keeps the entities harvested. */
  lemma KnownEntityHarvested(entities: seq<TagOrCategory>, occurrences: seq<Occurrence>, o: Occurrence, i: nat,
                             folderOf: string -> string)
    requires Harvested(entities, occurrences, folderOf)
    requires i < |entities| && entities[i].name == o.token
    ensures Harvested(entities[i := AddPost(entities[i], o.post)], occurrences + [o], folderOf)
  {
    var es := entities[i := AddPost(entities[i], o.post)];
    var tokens := TokenNames(occurrences);
    assert TokenNames(occurrences + [o]) == tokens + [o.token] by {
      assert (occurrences + [o])[..|occurrences|] == occurrences;
    }
    FirstSightSpec(tokens);
    assert Names(entities)[i] == o.token;
    assert o.token in tokens;
    FirstSightSnocOld(tokens, o.token);
    assert Names(es) == Names(entities);
    forall k | 0 <= k < |es|
      ensures Posts(es[k]) == PostsNamed(occurrences + [o], es[k].name)
    {
      PostsNamedSnoc(occurrences, o, es[k].name);
      if k != i {
        assert Names(entities)[k] != Names(entities)[i];
      }
    }
  }

  /** One corrected step when the token is known: its entity gains the post. */
  lemma StepKnownEntity(h: Harvest, occurrences: seq<Occurrence>, o: Occurrence, isTags: bool, folderOf: string -> string)
    requires o.post < |h.pages| && EntitiesHarvested(h, occurrences, folderOf)
    requires Find(h.entities, o.token) >= 0
    ensures EntitiesHarvested(Step(h, o, isTags, folderOf, false).value, occurrences + [o], folderOf)
  {
    var i := Find(h.entities, o.token);
    assert Step(h, o, isTags, folderOf, false).value.entities == h.entities[i := AddPost(h.entities[i], o.post)];
    KnownEntityHarvested(h.entities, occurrences, o, i, folderOf);
  }

  /** The page part of one corrected step. */
  lemma StepPages(h0: Harvest, h: Harvest, occurrences: seq<Occurrence>, o: Occurrence, isTags: bool,
                  folderOf: string -> string)
    requires o.post < |h.pages| && PagesHarvested(h0, h, occurrences, isTags)
    ensures PagesHarvested(h0, Step(h, o, isTags, folderOf, false).value, occurrences + [o], isTags)
  {
    Snoc(occurrences, o);
    var h' := Step(h, o, isTags, folderOf, false).value;
    var i := Find(h.entities, o.token);
    var k := if i < 0 then |h.entities| else i;
    assert h'.entities[k].name == o.token;
    var list := ListOf(h.pages[o.post], isTags);
    assert Names(list + [h'.entities[k]]) == Names(list) + [o.token];
  }

  /**
   * The corrected harvest: one entity per distinct token, in first-sight
   * order, holding one post per occurrence of its token; each post's list
   * gains one entry per occurrence on it; nothing else of a page changes.
   */
  lemma {:induction false} HarvestAllSpec(h0: Harvest, occurrences: seq<Occurrence>, isTags: bool,
                                          folderOf: string -> string)
    requires Refers(occurrences, h0.pages) && h0.entities == []
    ensures HarvestAll(h0, occurrences, isTags, folderOf, false).Success?
    ensures EntitiesHarvested(HarvestAll(h0, occurrences, isTags, folderOf, false).value, occurrences, folderOf)
    ensures PagesHarvested(h0, HarvestAll(h0, occurrences, isTags, folderOf, false).value, occurrences, isTags)
  {
    if |occurrences| == 0 {
      assert Names(h0.entities) == [];
    } else {
      var init := occurrences[..|occurrences| - 1];
      var o := occurrences[|occurrences| - 1];
      assert init + [o] == occurrences;
      HarvestAllSpec(h0, init, isTags, folderOf);
      var h := HarvestAll(h0, init, isTags, folderOf, false).value;
      if Find(h.entities, o.token) < 0 {
        StepNewEntity(h, init, o, isTags, folderOf);
      } else {
        StepKnownEntity(h, init, o, isTags, folderOf);
      }
      StepPages(h0, h, init, o, isTags, folderOf);
    }
  }

  /** The corrected harvest's entities do not depend on the pages' tag and category lists. */
  lemma {:induction false} HarvestEntitiesOnly(h0: Harvest, h1: Harvest, occurrences: seq<Occurrence>, isTags: bool,
                                               folderOf: string -> string)
    requires Refers(occurrences, h0.pages) && Refers(occurrences, h1.pages) && h0.entities == h1.entities
    ensures HarvestAll(h0, occurrences, isTags, folderOf, false).Success?
    ensures HarvestAll(h1, occurrences, isTags, folderOf, false).Success?
    ensures HarvestAll(h0, occurrences, isTags, folderOf, false).value.entities ==
            HarvestAll(h1, occurrences, isTags, folderOf, false).value.entities
  {
    if |occurrences| > 0 {
      HarvestEntitiesOnly(h0, h1, occurrences[..|occurrences| - 1], isTags, folderOf);
    }
  }

  /**
   * The corrected `buildBlog` always succeeds and appends the tags and then
   * the categories; building a second time appends the same entities again.
   */
  lemma BuildBlogTwice(b: Blog, pages: seq<Page>, consts: Constants, folderOf: string -> string)
    requires ValidRefs(b.resources, pages)
    ensures BuildBlog(b, pages, consts, folderOf, false).Success?
    ensures var (b1, pages1) := BuildBlog(b, pages, consts, folderOf, false).value;
            b1.tags[..|b.tags|] == b.tags && b1.categories[..|b.categories|] == b.categories &&
            ValidRefs(b1.resources, pages1) && BuildBlog(b1, pages1, consts, folderOf, false).Success?
    ensures var (b1, pages1) := BuildBlog(b, pages, consts, folderOf, false).value;
            ValidRefs(b1.resources, pages1) &&
            var b2 := BuildBlog(b1, pages1, consts, folderOf, false).value.0;
            b2.tags == b1.tags + b1.tags[|b.tags|..] &&
            b2.categories == b1.categories + b1.categories[|b.categories|..]
  {
    var seps := consts.tagSeparators;
    var occT := Occurrences(pages, b.resources, consts.tags, seps);
    OccurrencesValid(pages, b.resources, consts.tags, seps);
    var isTags := consts.tags == consts.tags;
    HarvestAllSpec(Harvest([], pages), occT, isTags, folderOf);
    var t := HarvestAll(Harvest([], pages), occT, isTags, folderOf, false).value;
    var occC := Occurrences(t.pages, b.resources, consts.categories, seps);
    OccurrencesValid(t.pages, b.resources, consts.categories, seps);
    var isCats := consts.categories == consts.tags;
    HarvestAllSpec(Harvest([], t.pages), occC, isCats, folderOf);
    var c := HarvestAll(Harvest([], t.pages), occC, isCats, folderOf, false).value;
    // the second build meets the same occurrences, since front matter is unchanged
    OccurrencesOnFrontMatter(pages, c.pages, b.resources, consts.tags, seps);
    HarvestEntitiesOnly(Harvest([], pages), Harvest([], c.pages), occT, isTags, folderOf);
    var t2 := HarvestAll(Harvest([], c.pages), occT, isTags, folderOf, false).value;
    HarvestAllSpec(Harvest([], c.pages), occT, isTags, folderOf);
    OccurrencesOnFrontMatter(t.pages, t2.pages, b.resources, consts.categories, seps);
    HarvestEntitiesOnly(Harvest([], t.pages), Harvest([], t2.pages), occC, isCats, folderOf);
  }
}
