/**
 * The sitemap generator: one `<url>` entry per resource in the XML format
 * of the Sitemaps protocol 0.9, written to `/sitemap.xml`.
 */
module SiteMaps {
  import opened Wrappers
  import opened JavaLang
  import opened Resources

  /** What the sitemap needs of a resource: its URL and its publish date, either of which may be null. */
  datatype Entry = Entry(url: Option<string>, published: Option<int>)

  /** A resource the loop can print: both its URL and its publish date are set. */
  predicate Printable(e: Entry)
  {
    e.url.Some? && e.published.Some?
  }

  const Header := "<?xml version=\"1.0\" encoding=\"UTF-8\"?>\n<urlset xmlns=\"http://www.sitemaps.org/schemas/sitemap/0.9\">\n"
  const Footer := "</urlset>\n"

  /** Where the sitemap is written. */
  const SiteMapPath := "/sitemap.xml"

  /** The site URL and the resource URL, with a "/" between them unless the resource URL starts with one. */
  function Loc(siteUrl: string, url: string): (loc: string)
    ensures StartsWith(url, "/") ==> loc == siteUrl + url
    ensures !StartsWith(url, "/") ==> loc == siteUrl + "/" + url
  {
    if StartsWith(url, "/") then siteUrl + url else siteUrl + "/" + url
  }

  /**
   * The location is the site URL followed by the resource URL, with exactly
   * one "/" at the joint whenever the site URL does not end in one.
   */
  lemma LocJoint(siteUrl: string, url: string)
    ensures var loc := Loc(siteUrl, url);
            StartsWith(loc, siteUrl) && EndsWith(loc, url) && |loc| > |siteUrl| &&
            loc[|siteUrl|] == '/' &&
            (StartsWith(url, "/") <==> |loc| == |siteUrl| + |url|)
  {
    var loc := Loc(siteUrl, url);
    assert loc[..|siteUrl|] == siteUrl;
    if StartsWith(url, "/") {
      assert loc[|loc| - |url|..] == url;
    } else {
      assert loc[|loc| - |url|..] == url;
    }
  }

  /** The `<url>` block printed for a location and a formatted publish date. */
  function BlockText(loc: string, lastmod: string): (block: string)
    ensures StartsWith(block, "  <url>\n    <loc>" + loc + "</loc>\n")
  {
    var head := "  <url>\n    <loc>" + loc + "</loc>\n";
    var block := head +
      "    <lastmod>" + lastmod + "</lastmod>\n" +
      "    <changefreq>monthly</changefreq>\n" +
      "    <priority>0.5</priority>\n" +
      "  </url>\n";
    assert block[..|head|] == head;
    block
  }

  /**
   * The `<url>` block of one resource; `format` is the "yyyy-MM-dd" date
   * formatter. A null site URL is printed as "null"; a null resource URL or
   * publish date is dereferenced and throws.
   */
  function UrlBlock(siteUrl: Option<string>, e: Entry, format: int -> string): (r: Result<string, Exception>)
    ensures r.Success? <==> Printable(e)
    ensures r.Failure? ==> r.error == NullPointer
    ensures r.Success? ==> StartsWith(r.value, "  <url>\n    <loc>" + Loc(ValueOf(siteUrl), e.url.value) + "</loc>\n")
  {
    if e.url.None? || e.published.None? then Failure(NullPointer)
    else Success(BlockText(Loc(ValueOf(siteUrl), e.url.value), format(e.published.value)))
  }

  /** A null site URL prints exactly as the site URL "null" would. */
  lemma NullSiteUrl(e: Entry, format: int -> string)
    ensures UrlBlock(None, e, format) == UrlBlock(Some("null"), e, format)
  {
  }

  /** The texts of the elements, one after another. */
  function ConcatMap<T>(xs: seq<T>, f: T -> string): string
  {
    if |xs| == 0 then "" else ConcatMap(xs[..|xs| - 1], f) + f(xs[|xs| - 1])
  }

  /** Concatenating over two lists is concatenating over each, in order. */
  lemma {:induction false} ConcatMapAppend<T>(a: seq<T>, b: seq<T>, f: T -> string)
    ensures ConcatMap(a + b, f) == ConcatMap(a, f) + ConcatMap(b, f)
    decreases |b|
  {
    if |b| == 0 {
      assert a + b == a;
    } else {
      var init := b[..|b| - 1];
      ConcatMapAppend(a, init, f);
      assert (a + b)[..|a + b| - 1] == a + init;
    }
  }

  /** The URL and publish date the loop reads from a printable resource. */
  function Fields(e: Entry): (string, int)
    requires Printable(e)
  {
    (e.url.value, e.published.value)
  }

  /** Resources that can all be printed, as the URL and publish date the loop reads from each. */
  function Printed(entries: seq<Entry>): (r: seq<(string, int)>)
    requires forall i :: 0 <= i < |entries| ==> Printable(entries[i])
    ensures |r| == |entries|
    ensures forall i :: 0 <= i < |r| ==> Printable(entries[i]) && r[i] == Fields(entries[i])
  {
    seq(|entries|, i requires 0 <= i < |entries| && Printable(entries[i]) => Fields(entries[i]))
  }

  lemma PrintedAppend(a: seq<Entry>, b: seq<Entry>)
    requires forall i :: 0 <= i < |a| ==> Printable(a[i])
    requires forall i :: 0 <= i < |b| ==> Printable(b[i])
    ensures forall i :: 0 <= i < |a + b| ==> Printable((a + b)[i])
    ensures Printed(a + b) == Printed(a) + Printed(b)
  {
    assert forall i :: 0 <= i < |a| ==> (a + b)[i] == a[i];
    assert forall i :: 0 <= i < |b| ==> (a + b)[|a| + i] == b[i];
  }

  /**
   * The blocks of all resources, in order. The builder is dropped when a
   * resource cannot be printed, so the list then throws as a whole.
   */
  function UrlBlocks(siteUrl: Option<string>, entries: seq<Entry>, format: int -> string)
    : (r: Result<string, Exception>)
    ensures r.Success? <==> forall i :: 0 <= i < |entries| ==> Printable(entries[i])
    ensures r.Failure? ==> r.error == NullPointer
  {
    if forall i :: 0 <= i < |entries| ==> Printable(entries[i]) then
      Success(ConcatMap(Printed(entries), (p: (string, int)) => BlockText(Loc(ValueOf(siteUrl), p.0), format(p.1))))
    else Failure(NullPointer)
  }

  /** The blocks of two lists of resources are the blocks of each, in order. */
  lemma UrlBlocksAppend(siteUrl: Option<string>, a: seq<Entry>, b: seq<Entry>, format: int -> string)
    ensures var ab, ra, rb := UrlBlocks(siteUrl, a + b, format), UrlBlocks(siteUrl, a, format), UrlBlocks(siteUrl, b, format);
            (ab.Success? <==> ra.Success? && rb.Success?) &&
            (ra.Success? && rb.Success? ==> ab == Success(ra.value + rb.value))
  {
    assert forall i :: 0 <= i < |a| ==> (a + b)[i] == a[i];
    assert forall i :: 0 <= i < |b| ==> (a + b)[|a| + i] == b[i];
    if UrlBlocks(siteUrl, a, format).Success? && UrlBlocks(siteUrl, b, format).Success? {
      PrintedAppend(a, b);
      ConcatMapAppend(Printed(a), Printed(b), (p: (string, int)) => BlockText(Loc(ValueOf(siteUrl), p.0), format(p.1)));
    }
  }

  /** A single resource gives exactly its own block, or its own failure. */
  lemma UrlBlocksSingle(siteUrl: Option<string>, e: Entry, format: int -> string)
    ensures UrlBlocks(siteUrl, [e], format) == UrlBlock(siteUrl, e, format)
  {
    if Printable(e) {
      var f := (p: (string, int)) => BlockText(Loc(ValueOf(siteUrl), p.0), format(p.1));
      var block := f((e.url.value, e.published.value));
      assert Printed([e]) == [(e.url.value, e.published.value)];
      assert Printed([e])[..0] == [];
      assert ConcatMap(Printed([e]), f) == "" + block;
      assert "" + block == block;
    } else {
      assert !Printable([e][0]);
    }
  }

  /**
   * `execute`: the XML declaration and the `urlset` opening, a block per
   * resource (none for a null or empty list), and the closing tag; a
   * resource with a null URL or publish date throws.
   */
  function SiteMap(siteUrl: Option<string>, entries: Option<seq<Entry>>, format: int -> string)
    : (r: Result<string, Exception>)
    ensures r.Success? <==> entries.None? || forall i :: 0 <= i < |entries.value| ==> Printable(entries.value[i])
    ensures r.Failure? ==> r.error == NullPointer
    ensures r.Success? ==> StartsWith(r.value, Header) && EndsWith(r.value, Footer)
    ensures entries.None? || entries.value == [] ==> r == Success(Header + Footer)
  {
    var blocks :- if entries.Some? then UrlBlocks(siteUrl, entries.value, format) else Success("");
    var xml := Header + blocks + Footer;
    assert xml[..|Header|] == Header;
    assert xml[|xml| - |Footer|..] == Footer;
    Success(xml)
  }

  lemma SiteMapText(siteUrl: Option<string>, entries: seq<Entry>, format: int -> string)
    requires UrlBlocks(siteUrl, entries, format).Success?
    ensures SiteMap(siteUrl, Some(entries), format) == Success(Header + UrlBlocks(siteUrl, entries, format).value + Footer)
  {
  }

  /** Every resource contributes exactly its own block, in input order, between the header and the footer. */
  lemma SiteMapBlocks(siteUrl: Option<string>, entries: seq<Entry>, e: Entry, format: int -> string)
    requires UrlBlocks(siteUrl, entries, format).Success? && Printable(e)
    ensures SiteMap(siteUrl, Some(entries + [e]), format) ==
              Success(Header + UrlBlocks(siteUrl, entries, format).value + UrlBlock(siteUrl, e, format).value + Footer)
  {
    var before, block := UrlBlocks(siteUrl, entries, format).value, UrlBlock(siteUrl, e, format).value;
    assert UrlBlocks(siteUrl, entries + [e], format) == Success(before + block) by {
      UrlBlocksSingle(siteUrl, e, format);
      UrlBlocksAppend(siteUrl, entries, [e], format);
    }
    SiteMapText(siteUrl, entries + [e], format);
    JoinAssociates(Header, before, block, Footer);
  }

  lemma JoinAssociates(a: string, b: string, c: string, d: string)
    ensures a + (b + c) + d == a + b + c + d
  {
  }

  /**
   * The sitemap resource as written: the generated resource's constructor
   * throws a null dereference, so nothing is ever exported.
   */
  function SiteMapResource(siteUrl: Option<string>, entries: Option<seq<Entry>>, format: int -> string)
    : (r: Result<Generated, Exception>)
    ensures r == Failure(NullPointer)
  {
    var xml :- SiteMap(siteUrl, entries, format);
    NewGenerated(SiteMapPath, xml)
  }

  /** With the constructor corrected: the sitemap text at `/sitemap.xml`. */
  function SiteMapResourceCorrected(siteUrl: Option<string>, entries: Option<seq<Entry>>, format: int -> string)
    : (r: Result<Generated, Exception>)
    ensures r.Success? <==> SiteMap(siteUrl, entries, format).Success?
    ensures r.Success? ==> r.value.path == SiteMapPath && r.value.content == SiteMap(siteUrl, entries, format).value
    ensures r.Failure? ==> r.error == NullPointer
  {
    var xml :- SiteMap(siteUrl, entries, format);
    NewGeneratedCorrected(SiteMapPath, xml)
  }
}
