/**
 * A tag or a category of blog posts: a name, the folder its index page is
 * written under, and the posts that carry it. Posts are referred to by their
 * position in the list of the site's pages.
 */
module Taxonomy {
  import opened Wrappers
  import opened JavaLang

  /** A reference to a page of the site: its index in the list of pages. */
  type PostRef = nat

  /** `posts` stays null until the first post is added. */
  datatype TagOrCategory = TagOrCategory(name: string, baseURL: string, url: string, posts: Option<seq<PostRef>>)

  /** The posts carrying the tag, with a null list read as empty. */
  function Posts(t: TagOrCategory): seq<PostRef>
  {
    t.posts.GetOr([])
  }

  /** The convenience constructor: the index page lives at `baseURL/index.html`. */
  function NewTagOrCategory(name: string, baseURL: string): (t: TagOrCategory)
    ensures t.name == name && t.baseURL == baseURL
    ensures t.url == baseURL + "/index.html"
    ensures Posts(t) == []
  {
    TagOrCategory(name, baseURL, baseURL + "/index.html", None)
  }

  /** `addPost`: appends the post, creating the list on first use. */
  function AddPost(t: TagOrCategory, post: PostRef): (t': TagOrCategory)
    ensures Posts(t') == Posts(t) + [post]
    ensures t'.name == t.name && t'.baseURL == t.baseURL && t'.url == t.url
  {
    if t.posts.None? then t.(posts := Some([post])) else t.(posts := Some(t.posts.value + [post]))
  }

  /** `getNumPosts`: 0 while the list is null. */
  function NumPosts(t: TagOrCategory): (n: nat)
    ensures t.posts.None? ==> n == 0
  {
    if t.posts.None? then 0 else |t.posts.value|
  }

  /** Adding a post raises the count by exactly one and keeps earlier posts in place. */
  lemma AddPostCounts(t: TagOrCategory, post: PostRef)
    ensures NumPosts(AddPost(t, post)) == NumPosts(t) + 1
    ensures NumPosts(t) == |Posts(t)|
    ensures forall i :: 0 <= i < NumPosts(t) ==> Posts(AddPost(t, post))[i] == Posts(t)[i]
  {
  }

  /** `addPost` applied to each of `posts` in turn. */
  function AddPosts(t: TagOrCategory, posts: seq<PostRef>): TagOrCategory
    decreases |posts|
  {
    if |posts| == 0 then t else AddPosts(AddPost(t, posts[0]), posts[1..])
  }

  /** Adding posts one by one leaves exactly those posts after the earlier ones, in order. */
  lemma {:induction false} AddPostsAppends(t: TagOrCategory, posts: seq<PostRef>)
    ensures Posts(AddPosts(t, posts)) == Posts(t) + posts
    ensures NumPosts(AddPosts(t, posts)) == NumPosts(t) + |posts|
    ensures AddPosts(t, posts).name == t.name && AddPosts(t, posts).url == t.url
    decreases |posts|
  {
    if |posts| > 0 {
      AddPostsAppends(AddPost(t, posts[0]), posts[1..]);
      assert Posts(t) + [posts[0]] + posts[1..] == Posts(t) + posts;
    }
  }

  /** `equals`: false against null, otherwise the names compared case-sensitively. */
  predicate Equals(t: TagOrCategory, other: Option<TagOrCategory>)
  {
    other.Some? && t.name == other.value.name
  }

  /** `hashCode`: the name's string hash. */
  function HashCode(t: TagOrCategory): int
  {
    StringHash(t.name)
  }

  /** `compareTo`: -1 against null, otherwise the names compared ignoring case. */
  function CompareTo(t: TagOrCategory, other: Option<TagOrCategory>): (r: int)
    ensures other.None? ==> r == -1
    ensures other.Some? ==> (r == 0 <==> LowerCase(t.name) == LowerCase(other.value.name))
  {
    if other.None? then -1 else CompareToIgnoreCase(t.name, other.value.name)
  }

  /**
   * Equality and hash code look at the name alone: tags with equal names are
   * equal whatever their URLs and posts, and equal tags hash alike.
   */
  lemma EqualsOnName(t: TagOrCategory, u: TagOrCategory)
    ensures Equals(t, Some(u)) <==> t.name == u.name
    ensures Equals(t, Some(u)) ==> HashCode(t) == HashCode(u)
    ensures Equals(t, Some(u)) <==> Equals(u, Some(t))
    ensures !Equals(t, None)
  {
  }

  /** `compareTo` is antisymmetric between two tags. */
  lemma CompareToFlips(t: TagOrCategory, u: TagOrCategory)
    ensures CompareTo(t, Some(u)) == -CompareTo(u, Some(t))
  {
    CompareToAntisymmetric(LowerCase(t.name), LowerCase(u.name));
  }

  /** Names differing only in letter case compare as 0 and yet are not equal. */
  lemma CaseOnlyDifference()
    ensures var t := NewTagOrCategory("Java", "/tags/Java");
            var u := NewTagOrCategory("java", "/tags/java");
            CompareTo(t, Some(u)) == 0 && !Equals(t, Some(u))
  {
    var t := NewTagOrCategory("Java", "/tags/Java");
    var u := NewTagOrCategory("java", "/tags/java");
    assert LowerCase(t.name) == LowerCase(u.name);
    assert t.name[0] != u.name[0];
  }
}
