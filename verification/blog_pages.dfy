/**
 * The listing pages of a blog: its posts sorted newest first and cut into
 * batches of five, each batch written as a page with a paginator that
 * points at its neighbours.
 */
module BlogPages {
  import opened Wrappers
  import opened JavaLang
  import opened Pages
  import opened Comparators
  import opened Resources
  import SiteWriters
  import Blogs
  import PreProcessors

  /** Posts per listing page. */
  const BatchSize: nat := 5

  /** The template the listing pages are laid out with. */
  const ListingLayout := "post-listing.html"

  /** The paginator a listing page sees; `totalPages` is never set and stays 0. */
  datatype Paginator = Paginator(perPage: int, posts: seq<Page>, totalPosts: int, totalPages: int,
                                 page: int, previousPage: int, nextPage: int)

  /** A listing page: its name, the paginator it was laid out with, and the resource written. */
  datatype ListingPage = ListingPage(name: string, paginator: Paginator, resource: Generated)

  /** The blog folders: the folders of the files named exactly `.blog`, in order. */
  function BlogFolders(dotFiles: seq<Blogs.File>): (r: seq<string>)
    ensures forall f :: f in r <==> exists i :: 0 <= i < |dotFiles| && dotFiles[i].name == ".blog" && dotFiles[i].folder == f
  {
    if |dotFiles| == 0 then []
    else
      var rest := BlogFolders(dotFiles[..|dotFiles| - 1]);
      var last := dotFiles[|dotFiles| - 1];
      assert forall i :: 0 <= i < |dotFiles| - 1 ==> dotFiles[..|dotFiles| - 1][i] == dotFiles[i];
      if last.name == ".blog" then rest + [last.folder] else rest
  }

  /**
   * The folders keep the order of the dot files: those of a list of files
   * are those of its first part followed by those of the rest.
   */
  lemma {:induction false} BlogFoldersAppend(a: seq<Blogs.File>, b: seq<Blogs.File>)
    ensures BlogFolders(a + b) == BlogFolders(a) + BlogFolders(b)
    decreases |b|
  {
    if |b| == 0 {
      assert a + b == a;
    } else {
      var init, last := b[..|b| - 1], b[|b| - 1];
      var tail := if last.name == ".blog" then [last.folder] else [];
      BlogFoldersAppend(a, init);
      assert (a + b)[..|a + b| - 1] == a + init;
      assert (a + b)[|a + b| - 1] == last;
      assert BlogFolders(a + b) == BlogFolders(a + init) + tail;
      assert BlogFolders(b) == BlogFolders(init) + tail;
    }
  }

  /** One dot file contributes its folder exactly when it is named `.blog`. */
  lemma BlogFoldersOne(f: Blogs.File)
    ensures BlogFolders([f]) == if f.name == ".blog" then [f.folder] else []
  {
    assert [f][..0] == [];
  }

  // ---------------------------------------------------------------------------
  // Membership: as written, a plain prefix test

  /** `getBlogPages` for one folder: the posts whose file path starts with the folder's path. */
  function BlogPosts(folder: string, files: seq<string>): (r: seq<nat>)
    ensures forall k :: k in r <==> 0 <= k < |files| && StartsWith(files[k], folder)
  {
    if |files| == 0 then []
    else
      var rest := BlogPosts(folder, files[..|files| - 1]);
      assert forall k :: 0 <= k < |files| - 1 ==> files[..|files| - 1][k] == files[k];
      if StartsWith(files[|files| - 1], folder) then rest + [|files| - 1] else rest
  }

  /** As written, a post of the blog at `/site/blog2` is listed on the pages of the blog at `/site/blog`. */
  lemma SiblingBlogPostListed()
    ensures 0 in BlogPosts("/site/blog", ["/site/blog2/post.md"])
    ensures 0 !in PreProcessors.PostsIn(["/site/blog2/post.md"], "/site/blog")
  {
    assert "/site/blog2/post.md"[..10] == "/site/blog";
    PreProcessors.SiblingFolderNotInBlog();
    PreProcessors.PostsInSpec(["/site/blog2/post.md"], "/site/blog");
  }

  /**
   * The corrected membership is the one the pre-processor uses: the folder
   * followed by the separator. It lists a subset of the as-written posts.
   */
  function BlogPostsCorrected(folder: string, files: seq<string>): (r: seq<nat>)
    ensures forall k :: k in r <==> 0 <= k < |files| && PreProcessors.ResourceIsInBlog(files[k], folder)
    ensures forall k :: k in r ==> k in BlogPosts(folder, files)
    ensures forall i :: 0 <= i < |r| ==> r[i] < |files|
  {
    PreProcessors.PostsInSpec(files, folder);
    var r := PreProcessors.PostsIn(files, folder);
    assert forall i :: 0 <= i < |r| ==> r[i] in r;
    forall k | k in PreProcessors.PostsIn(files, folder)
      ensures StartsWith(files[k], folder)
    {
      assert files[k][..|folder|] == (folder + FileSeparator)[..|folder|];
    }
    PreProcessors.PostsIn(files, folder)
  }

  // ---------------------------------------------------------------------------
  // Batching

  /** As written: `size / 5 + 1` batches. */
  function NumBatches(size: nat): (n: nat)
    ensures n >= 1 && BatchSize * (n - 1) <= size < BatchSize * n
  {
    size / BatchSize + 1
  }

  /** Corrected: just enough batches for the posts, none of them empty. */
  function NumBatchesCorrected(size: nat): (n: nat)
    requires size > 0
    ensures n >= 1 && BatchSize * (n - 1) < size <= BatchSize * n
  {
    (size + BatchSize - 1) / BatchSize
  }

  /** Batch `k`: the posts from `5k` up to `5k + 5` or the end of the list. */
  function BatchSlice(sorted: seq<Page>, k: nat): (r: seq<Page>)
    requires BatchSize * k <= |sorted|
    ensures |r| <= BatchSize
    ensures |r| == (if BatchSize * (k + 1) > |sorted| then |sorted| - BatchSize * k else BatchSize)
  {
    var last := if BatchSize * (k + 1) > |sorted| then |sorted| else BatchSize * (k + 1);
    sorted[BatchSize * k..last]
  }

  /** The batches before batch `n`, concatenated. */
  function Concat(sorted: seq<Page>, n: nat): seq<Page>
    requires n == 0 || BatchSize * (n - 1) <= |sorted|
  {
    if n == 0 then [] else Concat(sorted, n - 1) + BatchSlice(sorted, n - 1)
  }

  /** The first `n` batches are the first `min(5n, size)` posts, in order. */
  lemma {:induction false} ConcatPrefix(sorted: seq<Page>, n: nat)
    requires n == 0 || BatchSize * (n - 1) <= |sorted|
    ensures Concat(sorted, n) == sorted[..if BatchSize * n > |sorted| then |sorted| else BatchSize * n]
  {
    if n > 0 {
      ConcatPrefix(sorted, n - 1);
      var m := BatchSize * (n - 1);
      var last := if BatchSize * n > |sorted| then |sorted| else BatchSize * n;
      assert sorted[..m] + sorted[m..last] == sorted[..last];
    }
  }

  /** The batches together are exactly the sorted list, with either batch count. */
  lemma BatchesCoverList(sorted: seq<Page>)
    ensures Concat(sorted, NumBatches(|sorted|)) == sorted
    ensures |sorted| > 0 ==> Concat(sorted, NumBatchesCorrected(|sorted|)) == sorted
  {
    ConcatPrefix(sorted, NumBatches(|sorted|));
    if |sorted| > 0 {
      ConcatPrefix(sorted, NumBatchesCorrected(|sorted|));
    }
  }

  /**
   * As written, a multiple of five posts leaves the last batch empty, and
   * the page before it links to that empty page; the corrected count leaves
   * no batch empty.
   */
  lemma TrailingEmptyBatch(sorted: seq<Page>)
    requires |sorted| > 0 && |sorted| % BatchSize == 0
    ensures BatchSlice(sorted, NumBatches(|sorted|) - 1) == []
    ensures NumBatchesCorrected(|sorted|) == NumBatches(|sorted|) - 1
  {
  }

  lemma CorrectedBatchesNonEmpty(sorted: seq<Page>, k: nat)
    requires |sorted| > 0 && k < NumBatchesCorrected(|sorted|)
    ensures |BatchSlice(sorted, k)| > 0
  {
  }

  // ---------------------------------------------------------------------------
  // Naming and paginators

  /** Batch 0 is the blog's index page, batch k the page `page/k.html`. */
  function PageName(blog: string, k: nat): (name: string)
    ensures StartsWith(name, blog + "/") && EndsWith(name, ".html")
    ensures k == 0 <==> name == blog + "/index.html"
  {
    if k == 0 then blog + "/index.html" else blog + "/page/" + NatToString(k) + ".html"
  }

  /** Different batches get different names. */
  lemma PageNamesDistinct(blog: string, j: nat, k: nat)
    requires j != k
    ensures PageName(blog, j) != PageName(blog, k)
  {
    if j > 0 && k > 0 {
      var sj := NatToString(j);
      var sk := NatToString(k);
      if PageName(blog, j) == PageName(blog, k) {
        var n := blog + "/page/";
        assert |sj| == |sk|;
        assert sj == PageName(blog, j)[|n|..|n| + |sj|];
        assert sk == PageName(blog, k)[|n|..|n| + |sk|];
        ParseNatToString(j);
        ParseNatToString(k);
      }
    } else if j == 0 {
      assert PageName(blog, j)[|blog| + 1] == 'i';
      assert PageName(blog, k)[|blog| + 1] == 'p';
    } else {
      assert PageName(blog, k)[|blog| + 1] == 'i';
      assert PageName(blog, j)[|blog| + 1] == 'p';
    }
  }

  /** The post a listing shows for a resource: only its publish date and converted content. */
  function ListedPost(p: Page): (q: Page)
    ensures q.date == p.date && q.content == p.content
    ensures q.(date := None, content := None) == EmptyPage()
  {
    EmptyPage().(date := p.date, content := p.content)
  }

  function ListedPosts(batch: seq<Page>): (r: seq<Page>)
    ensures |r| == |batch|
    ensures forall i :: 0 <= i < |r| ==> r[i] == ListedPost(batch[i])
  {
    seq(|batch|, i requires 0 <= i < |batch| => ListedPost(batch[i]))
  }

  /**
   * `pushBatchPage`: five per page, this page's number, the next page or -1
   * on the last, the previous page (-1 on the first), and the count of this
   * batch's posts as the total.
   */
  function PaginatorOf(batch: seq<Page>, k: nat, count: nat): (p: Paginator)
    requires k < count
    ensures p.page == k && p.previousPage == p.page - 1
    ensures p.nextPage == -1 <==> k == count - 1
    ensures p.nextPage != -1 ==> p.nextPage == p.page + 1
    ensures p.posts == ListedPosts(batch) && p.totalPosts == |p.posts|
  {
    Paginator(BatchSize, ListedPosts(batch), |batch|, 0, k, k - 1, if k == count - 1 then -1 else k + 1)
  }

  /**
   * Every one of the `count` batches is laid out without an exception.
   * `render` stands for `layoutContent` of the listing template around a
   * paginator, which can throw only unchecked exceptions: a missing layout
   * or a layout that extends itself.
   */
  predicate RendersAll(sorted: seq<Page>, count: nat, render: Paginator -> Result<string, Unchecked>)
    requires count == 0 || BatchSize * (count - 1) <= |sorted|
  {
    forall k :: 0 <= k < count ==> render(PaginatorOf(BatchSlice(sorted, k), k, count)).Success?
  }

  /**
   * The listing pages of one blog for `count` batches, as they would be if
   * a generated resource could be created and every batch laid out: the
   * page is written under its name less the source root.
   */
  function Listing(blog: string, sorted: seq<Page>, count: nat, writer: SiteWriters.SiteWriter,
                   render: Paginator -> Result<string, Unchecked>): (r: seq<ListingPage>)
    requires count > 0 && BatchSize * (count - 1) <= |sorted| && RendersAll(sorted, count, render)
    ensures |r| == count
    ensures forall k :: 0 <= k < count ==>
              r[k].name == PageName(blog, k) &&
              r[k].paginator == PaginatorOf(BatchSlice(sorted, k), k, count) &&
              r[k].resource == Generated(SiteWriters.CreateBasePath(writer, r[k].name), render(r[k].paginator).value)
  {
    seq(count, k requires 0 <= k < count =>
      var paginator := PaginatorOf(BatchSlice(sorted, k), k, count);
      var name := PageName(blog, k);
      ListingPage(name, paginator, NewGeneratedCorrected(SiteWriters.CreateBasePath(writer, name), render(paginator).value).value))
  }

  /**
   * Page `i` of the batch loop: its name and paginator, laid out without an
   * exception, and the resource `make` built from them.
   */
  predicate PushedPage(page: ListingPage, i: nat, blog: string, sorted: seq<Page>, count: nat,
                       writer: SiteWriters.SiteWriter, render: Paginator -> Result<string, Unchecked>,
                       make: (string, string) -> Result<Generated, Exception>)
    requires i < count && BatchSize * (count - 1) <= |sorted|
  {
    page.name == PageName(blog, i) &&
    page.paginator == PaginatorOf(BatchSlice(sorted, i), i, count) &&
    render(page.paginator).Success? &&
    make(SiteWriters.CreateBasePath(writer, page.name), render(page.paginator).value) == Success(page.resource)
  }

  /**
   * One `pushBatchPage`: the paginator and name of batch `i`, the listing
   * template laid out around the paginator, then the generated resource
   * `make` builds from them. An exception from the layout comes first.
   */
  function BatchPage(blog: string, sorted: seq<Page>, count: nat, i: nat, writer: SiteWriters.SiteWriter,
                     render: Paginator -> Result<string, Unchecked>,
                     make: (string, string) -> Result<Generated, Exception>)
    : (r: Result<ListingPage, Exception>)
    requires i < count && BatchSize * (count - 1) <= |sorted|
    ensures r.Success? ==> PushedPage(r.value, i, blog, sorted, count, writer, render, make)
    ensures var rendered := render(PaginatorOf(BatchSlice(sorted, i), i, count));
            rendered.Failure? ==> r == Failure(rendered.error)
    ensures var rendered := render(PaginatorOf(BatchSlice(sorted, i), i, count));
            rendered.Success? ==>
              var made := make(SiteWriters.CreateBasePath(writer, PageName(blog, i)), rendered.value);
              (r.Failure? <==> made.Failure?) && (made.Failure? ==> r == Failure(made.error))
  {
    var paginator := PaginatorOf(BatchSlice(sorted, i), i, count);
    var name := PageName(blog, i);
    var rendered := render(paginator);
    if rendered.Failure? then Failure(rendered.error)
    else
      var made := make(SiteWriters.CreateBasePath(writer, name), rendered.value);
      if made.Failure? then Failure(made.error) else Success(ListingPage(name, paginator, made.value))
  }

  /**
   * A loop whose iterations may throw: the values of all attempts in order,
   * or the exception of the first one that throws, which ends the loop.
   */
  function UntilThrown<T>(attempts: seq<Result<T, Exception>>): (r: Result<seq<T>, Exception>)
    ensures r.Success? <==> forall i :: 0 <= i < |attempts| ==> attempts[i].Success?
    ensures r.Success? ==> |r.value| == |attempts| && forall i :: 0 <= i < |attempts| ==> attempts[i] == Success(r.value[i])
    ensures r.Failure? ==>
              exists i :: 0 <= i < |attempts| && attempts[i] == Failure(r.error) &&
                          forall j :: 0 <= j < i ==> attempts[j].Success?
  {
    if attempts == [] then Success([])
    else if attempts[0].Failure? then Failure(attempts[0].error)
    else
      var rest := UntilThrown(attempts[1..]);
      if rest.Failure? then rest else Success([attempts[0].value] + rest.value)
  }

  /**
   * The batch loop of `processBlog`, with `make` as the constructor of the
   * generated resource: batch by batch, `pushBatchPage` builds the
   * paginator and page, lays it out, then constructs the resource; an
   * exception from either ends the loop, since the handler around it
   * catches only I/O errors.
   */
  function PushBatches(blog: string, sorted: seq<Page>, count: nat, writer: SiteWriters.SiteWriter,
                       render: Paginator -> Result<string, Unchecked>,
                       make: (string, string) -> Result<Generated, Exception>)
    : (r: Result<seq<ListingPage>, Exception>)
    requires count == 0 || BatchSize * (count - 1) <= |sorted|
    ensures r.Success? ==>
              |r.value| == count && RendersAll(sorted, count, render) &&
              forall j :: 0 <= j < count ==> PushedPage(r.value[j], j, blog, sorted, count, writer, render, make)
    ensures RendersAll(sorted, count, render) && (forall path, content :: make(path, content).Success?) ==> r.Success?
    ensures count > 0 ==>
              var rendered := render(PaginatorOf(BatchSlice(sorted, 0), 0, count));
              (rendered.Failure? ==> r == Failure(rendered.error)) &&
              (rendered.Success? ==>
                 var first := make(SiteWriters.CreateBasePath(writer, PageName(blog, 0)), rendered.value);
                 first.Failure? ==> r == Failure(first.error))
  {
    PushedAll(blog, sorted, count, writer, render, make);
    AllGetThrough(blog, sorted, count, writer, render, make);
    FirstBatchThrows(blog, sorted, count, writer, render, make);
    UntilThrown(Attempts(blog, sorted, count, writer, render, make))
  }

  /** The outcome of every batch of the loop, in order. */
  function Attempts(blog: string, sorted: seq<Page>, count: nat, writer: SiteWriters.SiteWriter,
                    render: Paginator -> Result<string, Unchecked>,
                    make: (string, string) -> Result<Generated, Exception>)
    : (r: seq<Result<ListingPage, Exception>>)
    requires count == 0 || BatchSize * (count - 1) <= |sorted|
    ensures |r| == count && forall j :: 0 <= j < count ==> r[j] == BatchPage(blog, sorted, count, j, writer, render, make)
  {
    seq(count, j requires 0 <= j < count => BatchPage(blog, sorted, count, j, writer, render, make))
  }

  /** A loop that gets through emits every batch's page, each laid out. */
  lemma PushedAll(blog: string, sorted: seq<Page>, count: nat, writer: SiteWriters.SiteWriter,
                  render: Paginator -> Result<string, Unchecked>,
                  make: (string, string) -> Result<Generated, Exception>)
    requires count == 0 || BatchSize * (count - 1) <= |sorted|
    ensures var r := UntilThrown(Attempts(blog, sorted, count, writer, render, make));
            r.Success? ==>
              |r.value| == count && RendersAll(sorted, count, render) &&
              forall j :: 0 <= j < count ==> PushedPage(r.value[j], j, blog, sorted, count, writer, render, make)
  {
    var attempts := Attempts(blog, sorted, count, writer, render, make);
    var r := UntilThrown(attempts);
    if r.Success? {
      forall j | 0 <= j < count
        ensures PushedPage(r.value[j], j, blog, sorted, count, writer, render, make)
        ensures render(PaginatorOf(BatchSlice(sorted, j), j, count)).Success?
      {
        assert attempts[j] == Success(r.value[j]);
      }
      assert RendersAll(sorted, count, render);
    }
  }

  /** With every batch laid out and a constructor that never throws, the loop gets through. */
  lemma AllGetThrough(blog: string, sorted: seq<Page>, count: nat, writer: SiteWriters.SiteWriter,
                      render: Paginator -> Result<string, Unchecked>,
                      make: (string, string) -> Result<Generated, Exception>)
    requires count == 0 || BatchSize * (count - 1) <= |sorted|
    ensures RendersAll(sorted, count, render) && (forall path, content :: make(path, content).Success?) ==>
              UntilThrown(Attempts(blog, sorted, count, writer, render, make)).Success?
  {
    var attempts := Attempts(blog, sorted, count, writer, render, make);
    if RendersAll(sorted, count, render) && (forall path, content :: make(path, content).Success?) {
      forall j | 0 <= j < count
        ensures attempts[j].Success?
      {
        assert render(PaginatorOf(BatchSlice(sorted, j), j, count)).Success?;
      }
    }
  }

  /** The first batch's layout exception, or else its constructor exception, ends the loop. */
  lemma FirstBatchThrows(blog: string, sorted: seq<Page>, count: nat, writer: SiteWriters.SiteWriter,
                         render: Paginator -> Result<string, Unchecked>,
                         make: (string, string) -> Result<Generated, Exception>)
    requires count == 0 || BatchSize * (count - 1) <= |sorted|
    ensures var r := UntilThrown(Attempts(blog, sorted, count, writer, render, make));
            count > 0 ==>
              var rendered := render(PaginatorOf(BatchSlice(sorted, 0), 0, count));
              (rendered.Failure? ==> r == Failure(rendered.error)) &&
              (rendered.Success? ==>
                 var first := make(SiteWriters.CreateBasePath(writer, PageName(blog, 0)), rendered.value);
                 first.Failure? ==> r == Failure(first.error))
  {
    var attempts := Attempts(blog, sorted, count, writer, render, make);
    if count > 0 {
      assert attempts[0] == BatchPage(blog, sorted, count, 0, writer, render, make);
    }
  }

  /**
   * With the corrected constructor the batch loop throws exactly when some
   * batch cannot be laid out, and otherwise emits exactly the listing pages.
   */
  lemma FixedLoopIsListing(blog: string, sorted: seq<Page>, count: nat, writer: SiteWriters.SiteWriter,
                           render: Paginator -> Result<string, Unchecked>)
    requires count > 0 && BatchSize * (count - 1) <= |sorted|
    ensures var r := PushBatches(blog, sorted, count, writer, render, NewGeneratedCorrected);
            (r.Success? <==> RendersAll(sorted, count, render)) &&
            (RendersAll(sorted, count, render) ==> r == Success(Listing(blog, sorted, count, writer, render)))
  {
    var r := PushBatches(blog, sorted, count, writer, render, NewGeneratedCorrected);
    assert forall path, content :: NewGeneratedCorrected(path, content).Success?;
    if RendersAll(sorted, count, render) {
      var listing := Listing(blog, sorted, count, writer, render);
      assert r.Success? && |r.value| == |listing|;
      forall j | 0 <= j < count
        ensures r.value[j] == listing[j]
      {
        var page := r.value[j];
        assert PushedPage(page, j, blog, sorted, count, writer, render, NewGeneratedCorrected);
        assert page.name == listing[j].name && page.paginator == listing[j].paginator;
        assert page.resource == listing[j].resource;
      }
      assert r.value == listing;
    }
  }

  /**
   * `processBlog` as written: nothing for a null or empty list; otherwise
   * the posts, taken as already converted, are sorted newest first and
   * pushed batch by batch, and the first batch already throws: a null
   * dereference from the sort when a post has no date, else whatever laying
   * out the first page throws, else a null dereference from the generated
   * resource's constructor.
   */
  function ProcessBlog(blog: string, list: Option<seq<Page>>, writer: SiteWriters.SiteWriter,
                       render: Paginator -> Result<string, Unchecked>): (r: Result<seq<ListingPage>, Exception>)
    ensures list.None? || list.value == [] ==> r == Success([])
    ensures list.Some? && list.value != [] && SortByDate(list.value).Failure? ==> r == Failure(NullPointer)
    ensures list.Some? && list.value != [] && SortByDate(list.value).Success? ==>
              var sorted := SortByDate(list.value).value;
              var rendered := render(PaginatorOf(BatchSlice(sorted, 0), 0, NumBatches(|sorted|)));
              r == Failure(if rendered.Failure? then rendered.error else NullPointer)
  {
    if list.None? || list.value == [] then Success([])
    else
      var sorted :- SortByDate(list.value);
      PushBatches(blog, sorted, NumBatches(|sorted|), writer, render, NewGenerated)
  }

  /**
   * `processBlog` with only the constructor of the generated resource
   * corrected: the posts sorted newest first and laid out in `size / 5 + 1`
   * batches, the count as written.
   */
  function ProcessBlogFixedConstructor(blog: string, list: Option<seq<Page>>, writer: SiteWriters.SiteWriter,
                                       render: Paginator -> Result<string, Unchecked>)
    : (r: Result<seq<ListingPage>, Exception>)
    ensures list.None? || list.value == [] ==> r == Success([])
    ensures list.Some? && list.value != [] ==>
              var sorted := SortByDate(list.value);
              r.Success? <==> sorted.Success? && RendersAll(sorted.value, NumBatches(|sorted.value|), render)
    ensures r.Success? && list.Some? && list.value != [] ==>
              var sorted := SortByDate(list.value).value;
              |r.value| == |list.value| / BatchSize + 1 &&
              r.value == Listing(blog, sorted, NumBatches(|sorted|), writer, render)
  {
    if list.None? || list.value == [] then Success([])
    else
      var sorted :- SortByDate(list.value);
      FixedLoopIsListing(blog, sorted, NumBatches(|sorted|), writer, render);
      PushBatches(blog, sorted, NumBatches(|sorted|), writer, render, NewGeneratedCorrected)
  }

  /** The same with the corrected batch count. */
  function ProcessBlogCorrected(blog: string, list: Option<seq<Page>>, writer: SiteWriters.SiteWriter,
                                render: Paginator -> Result<string, Unchecked>): (r: Result<seq<ListingPage>, Exception>)
    ensures list.None? || list.value == [] ==> r == Success([])
    ensures list.Some? && list.value != [] ==>
              var sorted := SortByDate(list.value);
              r.Success? <==> sorted.Success? && RendersAll(sorted.value, NumBatchesCorrected(|sorted.value|), render)
    ensures r.Success? && list.Some? && list.value != [] ==>
              var sorted := SortByDate(list.value).value;
              r.value == Listing(blog, sorted, NumBatchesCorrected(|sorted|), writer, render)
    ensures r.Success? ==> forall k :: 0 <= k < |r.value| ==> r.value[k].paginator.posts != []
  {
    if list.None? || list.value == [] then Success([])
    else
      var sorted :- SortByDate(list.value);
      var count := NumBatchesCorrected(|sorted|);
      FixedLoopIsListing(blog, sorted, count, writer, render);
      var r :- PushBatches(blog, sorted, count, writer, render, NewGeneratedCorrected);
      assert forall k :: 0 <= k < count ==> |BatchSlice(sorted, k)| > 0 by {
        forall k | 0 <= k < count ensures |BatchSlice(sorted, k)| > 0 {
          CorrectedBatchesNonEmpty(sorted, k);
        }
      }
      Success(r)
  }

  /**
   * When every page can be laid out, the listing pages show every post of
   * the blog once, newest first, five per page, and each page but the last
   * links on to the next one; otherwise the first layout exception is
   * thrown.
   */
  lemma ListingShowsAllPosts(blog: string, list: seq<Page>, writer: SiteWriters.SiteWriter,
                             render: Paginator -> Result<string, Unchecked>)
    requires list != [] && AllDated(list)
    ensures var r := ProcessBlogCorrected(blog, Some(list), writer, render);
            var sorted := SortByDate(list).value;
            NewestFirst(sorted) && multiset(sorted) == multiset(list) &&
            (r.Success? <==> RendersAll(sorted, NumBatchesCorrected(|sorted|), render)) &&
            (r.Success? ==>
               Concat(sorted, |r.value|) == sorted &&
               (forall k :: 0 <= k < |r.value| ==> r.value[k].paginator.posts == ListedPosts(BatchSlice(sorted, k))) &&
               (forall k :: 0 <= k < |r.value| - 1 ==> r.value[k].paginator.nextPage == k + 1) &&
               r.value[|r.value| - 1].paginator.nextPage == -1)
  {
    var sorted := SortByDate(list).value;
    var count := NumBatchesCorrected(|sorted|);
    if RendersAll(sorted, count, render) {
      var r := Listing(blog, sorted, count, writer, render);
      assert ProcessBlogCorrected(blog, Some(list), writer, render) == Success(r);
      BatchesCoverList(sorted);
    }
  }

  /**
   * Five dated posts whose pages can all be laid out: with the constructor
   * fixed but the batch count as written, two pages, the second empty and
   * linked from the first.
   */
  lemma FivePostsTwoPages(list: seq<Page>, writer: SiteWriters.SiteWriter, render: Paginator -> Result<string, Unchecked>)
    requires |list| == 5 && AllDated(list)
    requires forall p :: render(p).Success?
    ensures var r := ProcessBlogFixedConstructor("/blog", Some(list), writer, render);
            r.Success? && |r.value| == 2 &&
            r.value[0].paginator.nextPage == 1 &&
            r.value[1].name == "/blog/page/1.html" && r.value[1].paginator.posts == []
    ensures |ProcessBlogCorrected("/blog", Some(list), writer, render).value| == 1
  {
    var sorted := SortByDate(list).value;
    assert |sorted| == 5;
    var r := Listing("/blog", sorted, 2, writer, render);
    assert ProcessBlogFixedConstructor("/blog", Some(list), writer, render) == Success(r);
    SecondPageName();
    assert r[1].paginator.posts == ListedPosts(BatchSlice(sorted, 1));
    assert BatchSlice(sorted, 1) == [];
  }

  lemma SecondPageName()
    ensures PageName("/blog", 1) == "/blog/page/1.html"
  {
    assert NatToString(1) == "1";
  }

  // ---------------------------------------------------------------------------
  // Every blog of the site

  /**
   * `processBlogResources`: `process` runs on each blog folder in turn and
   * the listing pages are concatenated; the first exception ends the run.
   */
  function EachBlog(folders: seq<string>, process: string -> Result<seq<ListingPage>, Exception>): (r: Result<seq<ListingPage>, Exception>)
    ensures r.Success? <==> forall i :: 0 <= i < |folders| ==> process(folders[i]).Success?
    ensures r.Failure? ==>
              exists i :: 0 <= i < |folders| && process(folders[i]) == Failure(r.error) &&
                forall j :: 0 <= j < i ==> process(folders[j]).Success?
    ensures r.Success? ==>
              forall p :: p in r.value ==> exists i :: 0 <= i < |folders| && p in process(folders[i]).value
  {
    if |folders| == 0 then Success([])
    else
      var init := folders[..|folders| - 1];
      assert forall i :: 0 <= i < |init| ==> init[i] == folders[i];
      var before :- EachBlog(init, process);
      var listing :- process(folders[|folders| - 1]);
      Success(before + listing)
  }

  /** The blogs of `a + b` give the pages of `a` followed by those of `b`, or the first exception. */
  lemma {:induction false} EachBlogAppend(a: seq<string>, b: seq<string>, process: string -> Result<seq<ListingPage>, Exception>)
    ensures EachBlog(a, process).Failure? ==> EachBlog(a + b, process) == EachBlog(a, process)
    ensures EachBlog(a, process).Success? && EachBlog(b, process).Failure? ==>
              EachBlog(a + b, process) == Failure(EachBlog(b, process).error)
    ensures EachBlog(a, process).Success? && EachBlog(b, process).Success? ==>
              EachBlog(a + b, process) == Success(EachBlog(a, process).value + EachBlog(b, process).value)
    decreases |b|
  {
    if |b| == 0 {
      assert a + b == a;
      if EachBlog(a, process).Success? {
        assert EachBlog(a, process).value + [] == EachBlog(a, process).value;
      }
    } else {
      var init := b[..|b| - 1];
      assert (a + b)[..|a + b| - 1] == a + init;
      assert (a + b)[|a + b| - 1] == b[|b| - 1];
      EachBlogAppend(a, init, process);
      var (ra, ri, last) := (EachBlog(a, process), EachBlog(init, process), process(b[|b| - 1]));
      if ra.Success? && ri.Success? && last.Success? {
        assert ra.value + ri.value + last.value == ra.value + (ri.value + last.value);
      }
    }
  }

  /** When no blog yields a listing page, neither does the whole run. */
  lemma {:induction false} EachBlogNothing(folders: seq<string>, process: string -> Result<seq<ListingPage>, Exception>)
    requires forall f :: f in folders && process(f).Success? ==> process(f).value == []
    ensures EachBlog(folders, process).Success? ==> EachBlog(folders, process).value == []
  {
    if |folders| > 0 {
      var init := folders[..|folders| - 1];
      assert forall f :: f in init ==> f in folders;
      EachBlogNothing(init, process);
      assert folders[|folders| - 1] in folders;
    }
  }

  /** A single blog gives exactly its own listing. */
  lemma EachBlogOne(folder: string, process: string -> Result<seq<ListingPage>, Exception>)
    ensures EachBlog([folder], process) == process(folder)
  {
    assert [folder][..0] == [];
    assert EachBlog([], process) == Success([]);
    if process(folder).Success? {
      assert [] + process(folder).value == process(folder).value;
    }
  }

  /**
   * One blog with the corrected rules: the posts under the folder (with the
   * separator), sorted and listed five to a page.
   */
  function BlogListing(folder: string, files: seq<string>, pages: seq<Page>, writer: SiteWriters.SiteWriter,
                       render: Paginator -> Result<string, Unchecked>): (r: Result<seq<ListingPage>, Exception>)
    requires |files| == |pages|
    ensures r.Success? ==> forall p :: p in r.value ==> p.paginator.posts != []
  {
    var r := ProcessBlogCorrected(folder, Some(PostsOf(BlogPostsCorrected(folder, files), pages)), writer, render);
    assert r.Success? ==> forall i :: 0 <= i < |r.value| ==> r.value[i].paginator.posts != [];
    r
  }

  /**
   * `execute`: every blog folder, in the order of the `.blog` files, with
   * the corrected count and membership.
   */
  function Execute(dotFiles: seq<Blogs.File>, files: seq<string>, pages: seq<Page>, writer: SiteWriters.SiteWriter,
                   render: Paginator -> Result<string, Unchecked>): (r: Result<seq<ListingPage>, Exception>)
    requires |files| == |pages|
    ensures r.Success? <==> forall f :: f in BlogFolders(dotFiles) ==> BlogListing(f, files, pages, writer, render).Success?
    ensures r.Success? ==> forall p :: p in r.value ==> p.paginator.posts != []
    ensures (forall i :: 0 <= i < |dotFiles| ==> dotFiles[i].name != ".blog") ==> r == Success([])
  {
    var folders := BlogFolders(dotFiles);
    assert forall i :: 0 <= i < |folders| ==> folders[i] in folders;
    assert (forall i :: 0 <= i < |dotFiles| ==> dotFiles[i].name != ".blog") ==> folders == [] by {
      if |folders| > 0 {
        assert folders[0] in folders;
      }
    }
    ExecuteBlogs(folders, files, pages, writer, render)
  }

  /** `execute` over the given blog folders. */
  function ExecuteBlogs(folders: seq<string>, files: seq<string>, pages: seq<Page>, writer: SiteWriters.SiteWriter,
                        render: Paginator -> Result<string, Unchecked>): (r: Result<seq<ListingPage>, Exception>)
    requires |files| == |pages|
    ensures r.Success? <==> forall i :: 0 <= i < |folders| ==> BlogListing(folders[i], files, pages, writer, render).Success?
    ensures r.Success? ==> forall p :: p in r.value ==> p.paginator.posts != []
  {
    EachBlog(folders, f => BlogListing(f, files, pages, writer, render))
  }

  /**
   * The listing of the blogs `a + b` is that of `a` followed by that of
   * `b`, and one blog's is its own `BlogListing`: together, the blogs'
   * listings in folder order, up to the first exception.
   */
  lemma ExecuteBlogsAppend(a: seq<string>, b: seq<string>, folder: string, files: seq<string>, pages: seq<Page>,
                           writer: SiteWriters.SiteWriter, render: Paginator -> Result<string, Unchecked>)
    requires |files| == |pages|
    ensures var (ra, rb) := (ExecuteBlogs(a, files, pages, writer, render), ExecuteBlogs(b, files, pages, writer, render));
            var r := ExecuteBlogs(a + b, files, pages, writer, render);
            (ra.Failure? ==> r == ra) &&
            (ra.Success? && rb.Failure? ==> r == Failure(rb.error)) &&
            (ra.Success? && rb.Success? ==> r == Success(ra.value + rb.value))
    ensures ExecuteBlogs([folder], files, pages, writer, render) == BlogListing(folder, files, pages, writer, render)
  {
    EachBlogAppend(a, b, f => BlogListing(f, files, pages, writer, render));
    EachBlogOne(folder, f => BlogListing(f, files, pages, writer, render));
  }

  /**
   * The `.blog` files `a + b` give the listing of `a`'s blogs followed by
   * that of `b`'s; one file gives its folder's listing when it is named
   * `.blog`, and nothing otherwise.
   */
  lemma ExecuteAppend(a: seq<Blogs.File>, b: seq<Blogs.File>, f: Blogs.File, files: seq<string>, pages: seq<Page>,
                      writer: SiteWriters.SiteWriter, render: Paginator -> Result<string, Unchecked>)
    requires |files| == |pages|
    ensures var (ra, rb) := (Execute(a, files, pages, writer, render), Execute(b, files, pages, writer, render));
            var r := Execute(a + b, files, pages, writer, render);
            (ra.Failure? ==> r == ra) &&
            (ra.Success? && rb.Failure? ==> r == Failure(rb.error)) &&
            (ra.Success? && rb.Success? ==> r == Success(ra.value + rb.value))
    ensures Execute([f], files, pages, writer, render) ==
              if f.name == ".blog" then BlogListing(f.folder, files, pages, writer, render) else Success([])
  {
    BlogFoldersAppend(a, b);
    BlogFoldersOne(f);
    ExecuteBlogsAppend(BlogFolders(a), BlogFolders(b), f.folder, files, pages, writer, render);
  }

  /**
   * One blog as written: `startsWith` membership and the as-written
   * `processBlog`, which throws for any blog with a post.
   */
  function BlogListingAsWritten(folder: string, files: seq<string>, pages: seq<Page>, writer: SiteWriters.SiteWriter,
                                render: Paginator -> Result<string, Unchecked>): (r: Result<seq<ListingPage>, Exception>)
    requires |files| == |pages|
    ensures r.Success? <==> BlogPosts(folder, files) == []
    ensures r.Success? ==> r.value == []
  {
    var refs := BlogPosts(folder, files);
    assert forall i :: 0 <= i < |refs| ==> refs[i] in refs;
    ProcessBlog(folder, Some(PostsOf(refs, pages)), writer, render)
  }

  /**
   * `execute` as written: it completes only when no blog folder holds a
   * post, and then writes no listing page at all.
   */
  function ExecuteAsWritten(dotFiles: seq<Blogs.File>, files: seq<string>, pages: seq<Page>, writer: SiteWriters.SiteWriter,
                            render: Paginator -> Result<string, Unchecked>): (r: Result<seq<ListingPage>, Exception>)
    requires |files| == |pages|
    ensures r.Success? <==> NoPosts(BlogFolders(dotFiles), files)
    ensures r.Success? ==> r.value == []
  {
    ExecuteBlogsAsWritten(BlogFolders(dotFiles), files, pages, writer, render)
  }

  /** No folder of `folders` lists a post under the as-written membership. */
  predicate NoPosts(folders: seq<string>, files: seq<string>)
  {
    forall i :: 0 <= i < |folders| ==> BlogPosts(folders[i], files) == []
  }

  /** `execute` as written over the given blog folders. */
  function ExecuteBlogsAsWritten(folders: seq<string>, files: seq<string>, pages: seq<Page>, writer: SiteWriters.SiteWriter,
                                 render: Paginator -> Result<string, Unchecked>): (r: Result<seq<ListingPage>, Exception>)
    requires |files| == |pages|
    ensures r.Success? <==> NoPosts(folders, files)
    ensures r.Success? ==> r.value == []
  {
    var process := f => BlogListingAsWritten(f, files, pages, writer, render);
    EachBlogNothing(folders, process);
    EachBlog(folders, process)
  }

  /** The pages of the listed posts. */
  function PostsOf(refs: seq<nat>, pages: seq<Page>): (r: seq<Page>)
    requires forall i :: 0 <= i < |refs| ==> refs[i] < |pages|
    ensures |r| == |refs|
  {
    seq(|refs|, i requires 0 <= i < |refs| => pages[refs[i]])
  }
}
