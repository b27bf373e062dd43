/**
 * The pass that runs before rendering: posts are assigned to the blogs whose
 * folders hold them, the blogs are built, neighbouring posts are linked, and
 * the most recent posts of all blogs are picked for the site.
 */
module PreProcessors {
  import opened Wrappers
  import opened JavaLang
  import opened Taxonomy
  import opened Pages
  import opened Comparators
  import opened Blogs

  /** `resourceIsInBlog`: the file lies under the blog's folder, separator included. */
  predicate ResourceIsInBlog(file: string, basePath: string)
  {
    StartsWith(file, basePath + FileSeparator)
  }

  /** A file in a sibling folder whose name merely extends the blog's is not in the blog. */
  lemma SiblingFolderNotInBlog()
    ensures !ResourceIsInBlog("/site/blog2/post.md", "/site/blog")
    ensures ResourceIsInBlog("/site/blog/post.md", "/site/blog")
  {
    assert "/site/blog2/post.md"[10] == '2';
    assert "/site/blog/post.md"[..11] == "/site/blog/";
  }

  /** A file in a nested blog is in the outer blog too. */
  lemma NestedBlogs(outer: string, inner: string, rest: string)
    ensures var file := outer + "/" + inner + "/" + rest;
            ResourceIsInBlog(file, outer) && ResourceIsInBlog(file, outer + "/" + inner)
  {
    var file := outer + "/" + inner + "/" + rest;
    assert file[..|outer + "/"|] == outer + "/";
    assert file[..|outer + "/" + inner + "/"|] == outer + "/" + inner + "/";
  }

  /** The posts among `files[..n]` that lie in the blog at `basePath`, in file order. */
  function PostsIn(files: seq<string>, basePath: string): seq<PostRef>
  {
    if |files| == 0 then []
    else PostsIn(files[..|files| - 1], basePath) +
         (if ResourceIsInBlog(files[|files| - 1], basePath) then [|files| - 1] else [])
  }

  /** A post is listed exactly when its file lies in the blog, each post once, in increasing order. */
  lemma {:induction false} PostsInSpec(files: seq<string>, basePath: string)
    ensures forall r: nat :: r in PostsIn(files, basePath) <==> r < |files| && ResourceIsInBlog(files[r], basePath)
    ensures forall i, j :: 0 <= i < j < |PostsIn(files, basePath)| ==> PostsIn(files, basePath)[i] < PostsIn(files, basePath)[j]
  {
    if |files| > 0 {
      var init := files[..|files| - 1];
      PostsInSpec(init, basePath);
      PostsInBelow(init, basePath);
      assert forall r :: 0 <= r < |init| ==> init[r] == files[r];
    }
  }

  /** Every listed post is one of the files. */
  lemma {:induction false} PostsInBelow(files: seq<string>, basePath: string)
    ensures forall k :: 0 <= k < |PostsIn(files, basePath)| ==> PostsIn(files, basePath)[k] < |files|
  {
    if |files| > 0 {
      var init := files[..|files| - 1];
      PostsInBelow(init, basePath);
      var ps := PostsIn(init, basePath);
      var all := PostsIn(files, basePath);
      forall k | 0 <= k < |all|
        ensures all[k] < |files|
      {
        if k < |ps| {
          assert all[k] == ps[k];
        }
      }
    }
  }

  /**
   * `collectAllBlogResources`: for each post in turn, every blog that holds
   * it gains it, so a post in nested blogs belongs to each of them.
   */
  function CollectAll(files: seq<string>, blogs: seq<Blog>): (r: seq<Blog>)
    ensures |r| == |blogs|
  {
    if |files| == 0 then blogs
    else
      var post := |files| - 1;
      var before := CollectAll(files[..post], blogs);
      seq(|before|, j requires 0 <= j < |before| =>
        if ResourceIsInBlog(files[post], before[j].basePath) then AddResource(before[j], post) else before[j])
  }

  /** Each blog gains exactly the posts in its folder, in file order, and nothing else changes. */
  lemma {:induction false} CollectAllSpec(files: seq<string>, blogs: seq<Blog>)
    ensures forall j :: 0 <= j < |blogs| ==>
              CollectAll(files, blogs)[j] ==
                blogs[j].(resources := blogs[j].resources + PostsIn(files, blogs[j].basePath))
  {
    if |files| > 0 {
      var post := |files| - 1;
      CollectAllSpec(files[..post], blogs);
    }
  }

  /** No two positions of the list hold the same post. */
  predicate Distinct(order: seq<PostRef>)
  {
    forall i, j :: 0 <= i < j < |order| ==> order[i] != order[j]
  }

  /** `linked` differs from `pages` at most in the next and previous links. */
  predicate OnlyLinksChanged(pages: seq<Page>, linked: seq<Page>)
  {
    |linked| == |pages| &&
    forall r :: 0 <= r < |pages| ==> linked[r] == pages[r].(next := linked[r].next, previous := linked[r].previous)
  }

  /** The posts not among the first `index` of `order` are as they were. */
  predicate Untouched(pages: seq<Page>, linked: seq<Page>, order: seq<PostRef>, index: nat)
    requires index <= |order| && |linked| == |pages|
  {
    forall r :: 0 <= r < |pages| && r !in order[..index] ==> linked[r] == pages[r]
  }

  /** The first `index` posts of `order` point back to their predecessors and on to their successors. */
  predicate LinkedUpTo(linked: seq<Page>, order: seq<PostRef>, index: nat)
    requires index <= |order| && ValidRefs(order, linked)
  {
    (forall i :: 0 < i < index ==> linked[order[i]].previous == Some(order[i - 1])) &&
    (forall i :: 0 <= i < index && i + 1 < |order| ==> linked[order[i]].next == Some(order[i + 1]))
  }

  /** The links one step of the loop gives the post at position `index`. */
  function SetLinks(p: Page, order: seq<PostRef>, index: nat): (q: Page)
    requires index < |order|
    ensures q == p.(next := q.next, previous := q.previous)
    ensures q.previous == if index > 0 then Some(order[index - 1]) else p.previous
    ensures q.next == if index + 1 < |order| then Some(order[index + 1]) else p.next
  {
    var p := if index > 0 then p.(previous := Some(order[index - 1])) else p;
    if index + 1 < |order| then p.(next := Some(order[index + 1])) else p
  }

  /** One step of the loop changes only the links of the post at `index`. */
  lemma LinkStepKeeps(pages: seq<Page>, linked: seq<Page>, order: seq<PostRef>, index: nat)
    requires index < |order| && ValidRefs(order, pages)
    requires OnlyLinksChanged(pages, linked) && Untouched(pages, linked, order, index)
    ensures var post := order[index];
            var linked' := linked[post := SetLinks(linked[post], order, index)];
            OnlyLinksChanged(pages, linked') && Untouched(pages, linked', order, index + 1)
  {
    assert order[..index + 1] == order[..index] + [order[index]];
  }

  /** One step of the loop keeps the links already set and sets those of the post at `index`, for distinct posts. */
  lemma LinkStep(pages: seq<Page>, linked: seq<Page>, order: seq<PostRef>, index: nat)
    requires index < |order| && ValidRefs(order, pages) && Distinct(order)
    requires OnlyLinksChanged(pages, linked) && Untouched(pages, linked, order, index)
    requires LinkedUpTo(linked, order, index)
    requires index > 0 ==> linked[order[0]].previous == pages[order[0]].previous
    ensures var post := order[index];
            var linked' := linked[post := SetLinks(linked[post], order, index)];
            LinkedUpTo(linked', order, index + 1) &&
            linked'[order[0]].previous == pages[order[0]].previous &&
            (index + 1 == |order| ==> linked'[post].next == pages[post].next)
  {
    var post := order[index];
    var linked' := linked[post := SetLinks(linked[post], order, index)];
    assert forall i :: 0 <= i < index ==> order[i] != post;
    assert post !in order[..index];
    assert linked[post] == pages[post];
    forall i | 0 < i < index + 1
      ensures linked'[order[i]].previous == Some(order[i - 1])
    {
      if i < index {
        assert order[i] != post;
      }
    }
    forall i | 0 <= i < index + 1 && i + 1 < |order|
      ensures linked'[order[i]].next == Some(order[i + 1])
    {
      if i < index {
        assert order[i] != post;
      }
    }
  }

  /**
   * The loop of `sortAndSetNextPreviousLinks` over one blog's sorted posts:
   * every post but the first points back to its predecessor, every post but
   * the last forward to its successor, consecutive posts agree on their
   * link, and the first post's previous and the last post's next link are
   * left as they were. Posts outside the blog are untouched.
   */
  method LinkEntries(pages: seq<Page>, order: seq<PostRef>) returns (linked: seq<Page>)
    requires ValidRefs(order, pages)
    ensures OnlyLinksChanged(pages, linked)
    ensures forall r :: 0 <= r < |pages| && r !in order ==> linked[r] == pages[r]
    ensures Distinct(order) ==> forall i :: 0 < i < |order| ==> linked[order[i]].previous == Some(order[i - 1])
    ensures Distinct(order) ==> forall i :: 0 <= i < |order| - 1 ==> linked[order[i]].next == Some(order[i + 1])
    ensures Distinct(order) ==> forall i :: 0 <= i < |order| - 1 ==> linked[order[i + 1]].previous == Some(order[i])
    ensures Distinct(order) && |order| > 0 ==>
              linked[order[0]].previous == pages[order[0]].previous &&
              linked[order[|order| - 1]].next == pages[order[|order| - 1]].next
  {
    linked := pages;
    var size := |order|;
    var index := 0;
    while index < size
      invariant 0 <= index <= size
      invariant OnlyLinksChanged(pages, linked)
      invariant Untouched(pages, linked, order, index)
      invariant Distinct(order) ==> LinkedUpTo(linked, order, index)
      invariant Distinct(order) && index > 0 ==> linked[order[0]].previous == pages[order[0]].previous
      invariant Distinct(order) && index == size && size > 0 ==>
                  linked[order[size - 1]].next == pages[order[size - 1]].next
    {
      var post := order[index];
      LinkStepKeeps(pages, linked, order, index);
      if Distinct(order) {
        LinkStep(pages, linked, order, index);
      }
      linked := linked[post := SetLinks(linked[post], order, index)];
      index := index + 1;
    }
    assert order[..size] == order;
    if Distinct(order) {
      forall i | 0 <= i < |order| - 1
        ensures linked[order[i + 1]].previous == Some(order[i])
      {
        var j := i + 1;
        assert linked[order[j]].previous == Some(order[j - 1]);
      }
    }
  }

  /** The pages of a blog's posts, in the blog's order. */
  function PostsOf(b: Blog, pages: seq<Page>): (r: seq<Page>)
    requires ValidRefs(b.resources, pages)
    ensures |r| == |b.resources|
  {
    seq(|b.resources|, i requires 0 <= i < |b.resources| => pages[b.resources[i]])
  }

  /** All blogs' posts, blog after blog. */
  function AllPosts(blogs: seq<Blog>, pages: seq<Page>): seq<Page>
    requires forall j :: 0 <= j < |blogs| ==> ValidRefs(blogs[j].resources, pages)
  {
    if |blogs| == 0 then [] else AllPosts(blogs[..|blogs| - 1], pages) + PostsOf(blogs[|blogs| - 1], pages)
  }

  /** The default number of recent posts. */
  const DefaultRecentPosts: int := 10

  /**
   * The recent posts: all blogs' posts sorted newest first, cut to the
   * configured count (10 when not configured), or to all posts when fewer.
   * A negative count makes `subList` throw an illegal argument.
   */
  function RecentPosts(posts: seq<Page>, configured: Option<int>): (r: Result<seq<Page>, Exception>)
    ensures r.Success? ==> |r.value| <= |posts|
  {
    var sorted :- SortByDate(posts);
    var top := configured.GetOr(DefaultRecentPosts);
    var top := if top > |sorted| then |sorted| else top;
    SubList(sorted, 0, top)
  }

  /**
   * With dated posts and a non-negative count the recent posts are the
   * newest `min(count, |posts|)` posts, newest first; a negative count fails
   * as `subList(0, count)` with crossed bounds.
   */
  lemma RecentPostsSpec(posts: seq<Page>, configured: Option<int>)
    requires AllDated(posts)
    ensures var top := configured.GetOr(DefaultRecentPosts);
            var r := RecentPosts(posts, configured);
            (r.Success? <==> top >= 0) &&
            (r.Failure? ==> r.error == IllegalArgument(CrossedRange(0, top))) &&
            (r.Success? ==>
               |r.value| == (if top < |posts| then top else |posts|) &&
               r.value == SortByDate(posts).value[..|r.value|] &&
               AllDated(r.value) && NewestFirst(r.value))
  {
    var sorted := SortByDate(posts).value;
    var top := configured.GetOr(DefaultRecentPosts);
    var top' := if top > |sorted| then |sorted| else top;
    if top' >= 0 {
      assert SubList(sorted, 0, top').value == sorted[..top'];
    }
  }

  /** Without a configured count, the ten newest posts are picked. */
  lemma RecentPostsDefault(posts: seq<Page>)
    requires AllDated(posts) && |posts| >= 10
    ensures RecentPosts(posts, None).Success? && |RecentPosts(posts, None).value| == 10
  {
    RecentPostsSpec(posts, None);
  }

  /** The site as the pass sees it: the posts' files and pages, the blogs, and the recent posts. */
  datatype Site = Site(files: seq<string>, pages: seq<Page>, blogs: seq<Blog>, recent: seq<Page>)

  /** Each page has its file, and every blog refers to pages of the site. */
  predicate WellFormed(site: Site)
  {
    |site.files| == |site.pages| &&
    forall j :: 0 <= j < |site.blogs| ==> ValidRefs(site.blogs[j].resources, site.pages)
  }

  /** A permutation of valid references refers to the same pages. */
  lemma PermutationValid(order: seq<PostRef>, sorted: seq<PostRef>, pages: seq<Page>)
    requires ValidRefs(order, pages) && multiset(sorted) == multiset(order)
    ensures ValidRefs(sorted, pages)
  {
    forall i | 0 <= i < |sorted|
      ensures sorted[i] < |pages|
    {
      assert sorted[i] in multiset(order);
    }
  }

  /** After collection every blog refers to pages of the site. */
  lemma CollectAllValid(site: Site)
    requires WellFormed(site)
    ensures forall j :: 0 <= j < |site.blogs| ==> ValidRefs(CollectAll(site.files, site.blogs)[j].resources, site.pages)
  {
    CollectAllSpec(site.files, site.blogs);
    forall j | 0 <= j < |site.blogs|
      ensures ValidRefs(CollectAll(site.files, site.blogs)[j].resources, site.pages)
    {
      var b := site.blogs[j];
      var added := PostsIn(site.files, b.basePath);
      PostsInSpec(site.files, b.basePath);
      assert forall i :: 0 <= i < |added| ==> added[i] in added;
    }
  }

  /**
   * `preProcess`, in its order: posts are collected into blogs, each blog is
   * built, every page's front matter is merged, each blog's posts are sorted
   * and linked, and the newest posts of all blogs become the site's recent
   * posts. `blogPathOf` gives the blog folder a page's tags are filed under,
   * and `sortResources` is the natural order of resources; neither is part
   * of this model.
   */
  method PreProcess(site: Site, consts: Constants, writer: SiteWriters.SiteWriter, parseDate: string -> int,
                    folderOf: string -> string, blogPathOf: PostRef -> string,
                    sortResources: seq<PostRef> -> seq<PostRef>, configured: Option<int>, asWritten: bool)
    returns (r: Result<Site, Exception>)
    requires WellFormed(site)
    requires forall order: seq<PostRef> :: multiset(sortResources(order)) == multiset(order)
    ensures r.Success? ==>
              WellFormed(r.value) && r.value.files == site.files &&
              |r.value.pages| == |site.pages| && |r.value.blogs| == |site.blogs|
    ensures r.Success? ==>
              forall j :: 0 <= j < |site.blogs| ==>
                r.value.blogs[j].basePath == site.blogs[j].basePath &&
                r.value.blogs[j].resources ==
                  sortResources(site.blogs[j].resources + PostsIn(site.files, site.blogs[j].basePath))
    ensures r.Success? ==>
              |r.value.recent| <= |AllPosts(r.value.blogs, r.value.pages)| &&
              forall p :: p in r.value.recent ==> p in AllPosts(r.value.blogs, r.value.pages)
    ensures r.Success? ==> RecentPosts(AllPosts(r.value.blogs, r.value.pages), configured) == Success(r.value.recent)
    ensures var blogs := CollectAll(site.files, site.blogs);
            (forall j :: 0 <= j < |blogs| ==> ValidRefs(blogs[j].resources, site.pages)) &&
            var built := BuildAll(blogs, site.pages, consts, folderOf, asWritten, 0);
            (built.Failure? ==> r == Failure(built.error)) &&
            (r.Success? ==>
               built.Success? && |built.value.1| == |r.value.pages| &&
               forall i :: 0 <= i < |r.value.pages| ==>
                 var merged := MergeFrontMatter(built.value.1[i], blogPathOf(i), consts, writer, parseDate);
                 var page := r.value.pages[i];
                 merged.Success? &&
                 page == merged.value.(next := page.next, previous := page.previous) &&
                 ((forall k :: 0 <= k < |r.value.blogs| ==> i !in r.value.blogs[k].resources) ==> page == merged.value))
    ensures r.Success? && Separate(OrdersOf(r.value.blogs)) &&
            (forall k :: 0 <= k < |r.value.blogs| ==> Distinct(r.value.blogs[k].resources)) ==>
              forall k :: 0 <= k < |r.value.blogs| ==> Chained(r.value.pages, r.value.blogs[k].resources)
  {
    var blogs := CollectAll(site.files, site.blogs);
    CollectAllSpec(site.files, site.blogs);
    CollectAllValid(site);
    var built := BuildAll(blogs, site.pages, consts, folderOf, asWritten, 0);
    if built.Failure? {
      return Failure(built.error);
    }
    var merged := MergeAll(built.value.1, consts, writer, parseDate, blogPathOf);
    if merged.Failure? {
      return Failure(merged.error);
    }
    var sortedBlogs, pages := SortAndLink(built.value.0, merged.value, sortResources);
    forall i | 0 <= i < |pages|
      ensures var m := MergeFrontMatter(built.value.1[i], blogPathOf(i), consts, writer, parseDate);
              m.Success? && pages[i] == m.value.(next := pages[i].next, previous := pages[i].previous) &&
              ((forall k :: 0 <= k < |sortedBlogs| ==> i !in sortedBlogs[k].resources) ==> pages[i] == m.value)
    {
      assert MergeFrontMatter(built.value.1[i], blogPathOf(i), consts, writer, parseDate) == Success(merged.value[i]);
    }
    var all := AllPosts(sortedBlogs, pages);
    var recent := RecentPosts(all, configured);
    if recent.Failure? {
      return Failure(recent.error);
    }
    RecentPostsFromAll(all, configured);
    r := Success(Site(site.files, pages, sortedBlogs, recent.value));
  }

  /**
   * The blogs from `j` on built in turn, each seeing the pages as the blogs
   * before it left them; building keeps every blog's folder and posts, and
   * the number of pages.
   */
  function BuildAll(blogs: seq<Blog>, pages: seq<Page>, consts: Constants, folderOf: string -> string,
                    asWritten: bool, j: nat): (r: Result<(seq<Blog>, seq<Page>), Exception>)
    requires j <= |blogs|
    requires forall k :: 0 <= k < |blogs| ==> ValidRefs(blogs[k].resources, pages)
    ensures r.Success? ==> |r.value.0| == |blogs| && |r.value.1| == |pages|
    ensures r.Success? ==> forall k :: 0 <= k < |blogs| ==>
              r.value.0[k].basePath == blogs[k].basePath && r.value.0[k].resources == blogs[k].resources
    ensures r.Success? ==> forall k :: 0 <= k < j ==> r.value.0[k] == blogs[k]
    decreases |blogs| - j
  {
    if j == |blogs| then Success((blogs, pages))
    else
      var built :- BuildBlog(blogs[j], pages, consts, folderOf, asWritten);
      var blogs' := blogs[j := built.0];
      forall k | 0 <= k < |blogs'|
        ensures ValidRefs(blogs'[k].resources, built.1)
      {
        assert blogs'[k].resources == blogs[k].resources;
        assert ValidRefs(blogs[k].resources, pages);
      }
      BuildAll(blogs', built.1, consts, folderOf, asWritten, j + 1)
  }

  /** Every page's front matter merged in turn, stopping at the first failure. */
  method MergeAll(pages: seq<Page>, consts: Constants, writer: SiteWriters.SiteWriter, parseDate: string -> int,
                  blogPathOf: PostRef -> string)
    returns (r: Result<seq<Page>, Exception>)
    ensures r.Success? ==> |r.value| == |pages|
    ensures r.Success? ==> forall i :: 0 <= i < |pages| ==>
              MergeFrontMatter(pages[i], blogPathOf(i), consts, writer, parseDate) == Success(r.value[i])
  {
    var ps := pages;
    var i := 0;
    while i < |ps|
      invariant 0 <= i <= |ps| == |pages|
      invariant forall k :: i <= k < |pages| ==> ps[k] == pages[k]
      invariant forall k :: 0 <= k < i ==> MergeFrontMatter(pages[k], blogPathOf(k), consts, writer, parseDate) == Success(ps[k])
    {
      var merged := MergeFrontMatter(ps[i], blogPathOf(i), consts, writer, parseDate);
      if merged.Failure? {
        return Failure(merged.error);
      }
      ps := ps[i := merged.value];
      i := i + 1;
    }
    return Success(ps);
  }

  /** The posts of each blog, in the blogs' order. */
  function OrdersOf(blogs: seq<Blog>): (orders: seq<seq<PostRef>>)
    ensures |orders| == |blogs| && forall k :: 0 <= k < |blogs| ==> orders[k] == blogs[k].resources
  {
    seq(|blogs|, k requires 0 <= k < |blogs| => blogs[k].resources)
  }

  /** No post belongs to two of the orders. */
  predicate Separate(orders: seq<seq<PostRef>>)
  {
    forall k, l, i, m ::
      0 <= k < |orders| && 0 <= l < |orders| && k != l && 0 <= i < |orders[k]| && 0 <= m < |orders[l]| ==>
        orders[k][i] != orders[l][m]
  }

  /** Every post of `order` is linked to its neighbours in `order`. */
  predicate Chained(linked: seq<Page>, order: seq<PostRef>)
  {
    ValidRefs(order, linked) && LinkedUpTo(linked, order, |order|)
  }

  /** Links of posts that did not change stay in place. */
  lemma ChainedKept(linked: seq<Page>, linked': seq<Page>, order: seq<PostRef>)
    requires Chained(linked, order) && |linked'| == |linked|
    requires forall i :: 0 <= i < |order| ==> linked'[order[i]] == linked[order[i]]
    ensures Chained(linked', order)
  {
  }

  /** Linking the posts of one order leaves the chains of the other, separate orders in place. */
  lemma ChainsKept(linked: seq<Page>, linked': seq<Page>, orders: seq<seq<PostRef>>, j: nat)
    requires j < |orders| && Separate(orders) && |linked'| == |linked|
    requires forall r :: 0 <= r < |linked| && r !in orders[j] ==> linked'[r] == linked[r]
    requires forall k :: 0 <= k < j ==> Chained(linked, orders[k])
    ensures forall k :: 0 <= k < j ==> Chained(linked', orders[k])
  {
    forall k | 0 <= k < j
      ensures Chained(linked', orders[k])
    {
      forall i | 0 <= i < |orders[k]|
        ensures linked'[orders[k][i]] == linked[orders[k][i]]
      {
        assert forall m :: 0 <= m < |orders[j]| ==> orders[k][i] != orders[j][m];
      }
      ChainedKept(linked, linked', orders[k]);
    }
  }

  /** Changing only links, twice, changes only links. */
  lemma OnlyLinksChangedTrans(pages: seq<Page>, mid: seq<Page>, linked: seq<Page>)
    requires OnlyLinksChanged(pages, mid) && OnlyLinksChanged(mid, linked)
    ensures OnlyLinksChanged(pages, linked)
  {
    forall r | 0 <= r < |pages|
      ensures linked[r] == pages[r].(next := linked[r].next, previous := linked[r].previous)
    {
      assert mid[r] == pages[r].(next := mid[r].next, previous := mid[r].previous);
    }
  }

  /** One round of the blog loop: linking the next order's posts keeps the loop's facts about links. */
  lemma LinkLoopStep(pages: seq<Page>, linked: seq<Page>, linked': seq<Page>, finals: seq<seq<PostRef>>, j: nat)
    requires j < |finals| && ValidRefs(finals[j], linked)
    requires OnlyLinksChanged(pages, linked) && OnlyLinksChanged(linked, linked')
    requires forall r :: 0 <= r < |pages| && (forall k :: 0 <= k < j ==> r !in finals[k]) ==> linked[r] == pages[r]
    requires forall r :: 0 <= r < |linked| && r !in finals[j] ==> linked'[r] == linked[r]
    requires Distinct(finals[j]) ==>
               forall i :: 0 < i < |finals[j]| ==> linked'[finals[j][i]].previous == Some(finals[j][i - 1])
    requires Distinct(finals[j]) ==>
               forall i :: 0 <= i < |finals[j]| - 1 ==> linked'[finals[j][i]].next == Some(finals[j][i + 1])
    requires Separate(finals) && (forall k :: 0 <= k < |finals| ==> Distinct(finals[k])) ==>
               forall k :: 0 <= k < j ==> Chained(linked, finals[k])
    ensures OnlyLinksChanged(pages, linked')
    ensures forall r :: 0 <= r < |pages| && (forall k :: 0 <= k < j + 1 ==> r !in finals[k]) ==> linked'[r] == pages[r]
    ensures Separate(finals) && (forall k :: 0 <= k < |finals| ==> Distinct(finals[k])) ==>
              forall k :: 0 <= k < j + 1 ==> Chained(linked', finals[k])
  {
    OnlyLinksChangedTrans(pages, linked, linked');
    forall r | 0 <= r < |pages| && (forall k :: 0 <= k < j + 1 ==> r !in finals[k])
      ensures linked'[r] == pages[r]
    {
      assert r !in finals[j];
    }
    if Separate(finals) && (forall k :: 0 <= k < |finals| ==> Distinct(finals[k])) {
      ChainsKept(linked, linked', finals, j);
      assert Distinct(finals[j]);
      assert Chained(linked', finals[j]);
    }
  }

  /**
   * The posts of each order linked in turn. Only links change; a post of
   * no order keeps its links; and when no post is in two orders and no
   * order lists a post twice, every order ends up linked.
   */
  method LinkAll(pages: seq<Page>, orders: seq<seq<PostRef>>) returns (linked: seq<Page>)
    requires forall k :: 0 <= k < |orders| ==> ValidRefs(orders[k], pages)
    ensures OnlyLinksChanged(pages, linked)
    ensures forall r :: 0 <= r < |pages| && (forall k :: 0 <= k < |orders| ==> r !in orders[k]) ==> linked[r] == pages[r]
    ensures Separate(orders) && (forall k :: 0 <= k < |orders| ==> Distinct(orders[k])) ==>
              forall k :: 0 <= k < |orders| ==> Chained(linked, orders[k])
  {
    linked := pages;
    var j := 0;
    while j < |orders|
      invariant 0 <= j <= |orders| && OnlyLinksChanged(pages, linked)
      invariant forall r :: 0 <= r < |pages| && (forall k :: 0 <= k < j ==> r !in orders[k]) ==> linked[r] == pages[r]
      invariant Separate(orders) && (forall k :: 0 <= k < |orders| ==> Distinct(orders[k])) ==>
                  forall k :: 0 <= k < j ==> Chained(linked, orders[k])
    {
      var linked' := LinkEntries(linked, orders[j]);
      LinkLoopStep(pages, linked, linked', orders, j);
      linked := linked';
      j := j + 1;
    }
  }

  /**
   * Each blog's posts put in their natural order, then linked in that order.
   * Only links change; a post of no blog keeps its links; and when no post
   * is in two blogs and no blog lists a post twice, every blog's posts end
   * up linked in its order.
   */
  method SortAndLink(blogs: seq<Blog>, pages: seq<Page>, sortResources: seq<PostRef> -> seq<PostRef>)
    returns (sorted: seq<Blog>, linked: seq<Page>)
    requires forall j :: 0 <= j < |blogs| ==> ValidRefs(blogs[j].resources, pages)
    requires forall order: seq<PostRef> :: multiset(sortResources(order)) == multiset(order)
    ensures |sorted| == |blogs| && |linked| == |pages|
    ensures forall k :: 0 <= k < |blogs| ==>
              sorted[k].basePath == blogs[k].basePath && sorted[k].resources == sortResources(blogs[k].resources)
    ensures forall k :: 0 <= k < |blogs| ==> ValidRefs(sorted[k].resources, linked)
    ensures OnlyLinksChanged(pages, linked)
    ensures forall r :: 0 <= r < |pages| && (forall k :: 0 <= k < |sorted| ==> r !in sorted[k].resources) ==>
              linked[r] == pages[r]
    ensures Separate(OrdersOf(sorted)) && (forall k :: 0 <= k < |sorted| ==> Distinct(sorted[k].resources)) ==>
              forall k :: 0 <= k < |sorted| ==> Chained(linked, sorted[k].resources)
  {
    sorted := seq(|blogs|, k requires 0 <= k < |blogs| => blogs[k].(resources := sortResources(blogs[k].resources)));
    var orders := OrdersOf(sorted);
    forall k | 0 <= k < |blogs|
      ensures ValidRefs(orders[k], pages)
    {
      PermutationValid(blogs[k].resources, orders[k], pages);
    }
    linked := LinkAll(pages, orders);
  }

  /** The recent posts are posts of the list they were picked from. */
  lemma RecentPostsFromAll(posts: seq<Page>, configured: Option<int>)
    requires RecentPosts(posts, configured).Success?
    ensures forall p :: p in RecentPosts(posts, configured).value ==> p in posts
  {
    var sorted := SortByDate(posts).value;
    var top := configured.GetOr(DefaultRecentPosts);
    var count := if top > |sorted| then |sorted| else top;
    forall p | p in RecentPosts(posts, configured).value
      ensures p in posts
    {
      assert p in sorted[..count];
      assert p in multiset(sorted);
    }
  }
}
