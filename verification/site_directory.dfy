/**
 * The crawl of the source folder that sorts every file into the files to
 * process (rendered through layouts) and the static files copied as they are.
 * The folder tree is an immutable value instead of the file system.
 */
module SiteDirectories {
  import opened JavaLang

  /** An entry `listFiles` returns: a regular file, a folder, or neither (a dangling link, say). */
  datatype Node =
    | FileNode(name: string, path: string)
    | FolderNode(name: string, children: seq<Node>)
    | OtherNode(name: string)

  /** The folder names and the configuration file the crawl must leave out. */
  datatype Options = Options(includesFolder: string, layoutsFolder: string, siteFolder: string, configFile: string)

  /** The two lists the crawl fills, as file paths in crawl order. */
  datatype Lists = Lists(processable: seq<string>, statics: seq<string>)

  /** The extensions of files copied without processing; matched case-sensitively. */
  const StaticExtensions: set<string> := {"png", "jpg", "css", "js", "otf", "zip"}

  /**
   * `fileAllowed`: a name is processable unless it has a '.' and the text
   * after the last '.' is one of the static extensions.
   */
  function FileAllowed(name: string): bool
  {
    var index := LastIndexOfChar(name, '.');
    !(index != -1 && name[index + 1..] in StaticExtensions)
  }

  /**
   * A name is static exactly when it ends with '.' and a static extension;
   * in particular a name without '.' is always processable.
   */
  lemma FileAllowedSpec(name: string)
    ensures !FileAllowed(name) <==> exists ext :: ext in StaticExtensions && EndsWith(name, "." + ext)
    ensures (forall i :: 0 <= i < |name| ==> name[i] != '.') ==> FileAllowed(name)
  {
    var index := LastIndexOfChar(name, '.');
    if !FileAllowed(name) {
      var ext := name[index + 1..];
      assert name[|name| - |"." + ext|..] == "." + ext;
    }
    if ext :| ext in StaticExtensions && EndsWith(name, "." + ext) {
      var k := |name| - |ext| - 1;
      assert name[k] == '.';
      assert forall j :: 0 <= j < |ext| ==> ext[j] != '.';
      assert index == k by {
        forall j | k < j < |name|
          ensures name[j] != '.'
        {
          assert name[j] == ("." + ext)[j - k];
        }
      }
      assert name[index + 1..] == ext;
    }
  }

  /** Folders skipped at any depth: version-control bookkeeping. */
  predicate IsVcsFolder(name: string)
  {
    name == "CVS" || name == ".svn" || name == ".git"
  }

  /**
   * Whether `crawlDirectory` returns at once for a folder of this name:
   * the includes, layouts and site folders only at level 0 or 1, the
   * version-control folders everywhere.
   */
  predicate Skipped(opts: Options, name: string, level: nat)
  {
    (level <= 1 && (name == opts.includesFolder || name == opts.layoutsFolder || name == opts.siteFolder))
    || IsVcsFolder(name)
  }

  /** `rootFileAllowed`: at the top levels the configuration file is left out. */
  predicate RootFileAllowed(opts: Options, path: string)
  {
    path != opts.configFile
  }

  function Sort(lists: Lists, path: string, name: string): Lists
  {
    if FileAllowed(name) then lists.(processable := lists.processable + [path])
    else lists.(statics := lists.statics + [path])
  }

  /** `crawlDirectory(folder, level)` appending to `lists`. */
  function Crawl(opts: Options, folder: Node, level: nat, lists: Lists): Lists
    decreases folder, 1
  {
    match folder
    case FolderNode(name, children) =>
      if Skipped(opts, name, level) then lists
      else CrawlChildren(opts, children, level, lists)
    case _ => lists
  }

  /** What one entry of `listFiles()` does to the lists inside a folder at `level`. */
  function Visit(opts: Options, child: Node, level: nat, lists: Lists): Lists
    decreases child, 2
  {
    match child
    case FolderNode(_, _) => Crawl(opts, child, level + 1, lists)
    case FileNode(name, path) =>
      if level <= 1 && !RootFileAllowed(opts, path) then lists else Sort(lists, path, name)
    case OtherNode(_) => lists
  }

  /** The loop over `listFiles()` of a folder at `level`. */
  function CrawlChildren(opts: Options, children: seq<Node>, level: nat, lists: Lists): Lists
    decreases children, 0
  {
    if |children| == 0 then lists
    else CrawlChildren(opts, children[1..], level, Visit(opts, children[0], level, lists))
  }

  /** `scanRootFolder`: the crawl of the root at level 0 from two empty lists. */
  function ScanRootFolder(opts: Options, root: Node): Lists
  {
    Crawl(opts, root, 0, Lists([], []))
  }

  /**
   * Reference definition: the regular files the crawl admits, as
   * (name, path) pairs in crawl order, before they are sorted.
   */
  function Admitted(opts: Options, folder: Node, level: nat): seq<(string, string)>
    decreases folder, 1
  {
    match folder
    case FolderNode(name, children) =>
      if Skipped(opts, name, level) then [] else AdmittedChildren(opts, children, level)
    case _ => []
  }

  /** The files one entry of a folder at `level` contributes. */
  function AdmittedHere(opts: Options, child: Node, level: nat): seq<(string, string)>
    decreases child, 2
  {
    match child
    case FolderNode(_, _) => Admitted(opts, child, level + 1)
    case FileNode(name, path) =>
      if level <= 1 && !RootFileAllowed(opts, path) then [] else [(name, path)]
    case OtherNode(_) => []
  }

  function AdmittedChildren(opts: Options, children: seq<Node>, level: nat): seq<(string, string)>
    decreases children, 0
  {
    if |children| == 0 then []
    else AdmittedHere(opts, children[0], level) + AdmittedChildren(opts, children[1..], level)
  }

  /** The paths of the admitted files whose name is (or is not) processable, in order. */
  function Select(files: seq<(string, string)>, processable: bool): seq<string>
  {
    if |files| == 0 then []
    else (if FileAllowed(files[0].0) == processable then [files[0].1] else []) + Select(files[1..], processable)
  }

  lemma {:induction false} SelectAppend(a: seq<(string, string)>, b: seq<(string, string)>, processable: bool)
    ensures Select(a + b, processable) == Select(a, processable) + Select(b, processable)
  {
    if |a| > 0 {
      assert (a + b)[1..] == a[1..] + b;
      SelectAppend(a[1..], b, processable);
    } else {
      assert a + b == b;
    }
  }

  /** Appending the admitted files of `files` one by one extends each list by its selection. */
  predicate Extends(before: Lists, after: Lists, files: seq<(string, string)>)
  {
    after.processable == before.processable + Select(files, true) &&
    after.statics == before.statics + Select(files, false)
  }

  /**
   * Every admitted file lands in exactly one list, in crawl order: the
   * processable list gains exactly the admitted files with processable
   * names, the static list the others.
   */
  lemma {:induction false} CrawlPartitions(opts: Options, folder: Node, level: nat, lists: Lists)
    ensures Extends(lists, Crawl(opts, folder, level, lists), Admitted(opts, folder, level))
    decreases folder, 1
  {
    match folder
    case FolderNode(name, children) =>
      if !Skipped(opts, name, level) {
        CrawlChildrenPartitions(opts, children, level, lists);
      }
    case _ =>
  }

  lemma {:induction false} VisitPartitions(opts: Options, child: Node, level: nat, lists: Lists)
    ensures Extends(lists, Visit(opts, child, level, lists), AdmittedHere(opts, child, level))
    decreases child, 2
  {
    if child.FolderNode? {
      CrawlPartitions(opts, child, level + 1, lists);
    }
  }

  lemma {:induction false} CrawlChildrenPartitions(opts: Options, children: seq<Node>, level: nat, lists: Lists)
    ensures Extends(lists, CrawlChildren(opts, children, level, lists), AdmittedChildren(opts, children, level))
    decreases children, 0
  {
    if |children| > 0 {
      var here := AdmittedHere(opts, children[0], level);
      var rest := AdmittedChildren(opts, children[1..], level);
      var lists' := Visit(opts, children[0], level, lists);
      VisitPartitions(opts, children[0], level, lists);
      CrawlChildrenPartitions(opts, children[1..], level, lists');
      SelectAppend(here, rest, true);
      SelectAppend(here, rest, false);
    }
  }

  /** The scan of the whole site splits its admitted files into the two lists. */
  lemma ScanRootFolderSpec(opts: Options, root: Node)
    ensures ScanRootFolder(opts, root).processable == Select(Admitted(opts, root, 0), true)
    ensures ScanRootFolder(opts, root).statics == Select(Admitted(opts, root, 0), false)
  {
    CrawlPartitions(opts, root, 0, Lists([], []));
  }

  /**
   * The skip check applies to the root as well, so a root named like the
   * site folder yields nothing; below level 1 such a name is crawled.
   */
  lemma SkipRulesByLevel(opts: Options, children: seq<Node>, level: nat, lists: Lists)
    ensures Crawl(opts, FolderNode(opts.siteFolder, children), 0, lists) == lists
    ensures Crawl(opts, FolderNode(".git", children), level, lists) == lists
    ensures level >= 2 && !IsVcsFolder(opts.layoutsFolder) ==>
              Crawl(opts, FolderNode(opts.layoutsFolder, children), level, lists) ==
              CrawlChildren(opts, children, level, lists)
  {
  }

  /** The configuration file in the root is left out; one found deeper is sorted like any file. */
  lemma ConfigFileOnlyAtTop(opts: Options, name: string, lists: Lists)
    ensures CrawlChildren(opts, [FileNode(name, opts.configFile)], 1, lists) == lists
    ensures CrawlChildren(opts, [FileNode(name, opts.configFile)], 2, lists) ==
            Sort(lists, opts.configFile, name)
  {
  }
}
