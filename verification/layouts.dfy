/**
 * The layout manager: a layout is simple (plain template) or extended (a
 * template with front matter naming a parent layout). Content is put into a
 * simple layout directly; an extended layout is first resolved against its
 * parent, recursively. The template engine is a pair of functions supplied
 * by the caller.
 */
module Layouts {
  import opened Wrappers
  import opened JavaLang
  import opened YmlConfig
  import opened FrontMatter
  import opened Resources

  /** A folder of layout files: its absolute path and the text of each file by name. */
  datatype Folder = Folder(path: string, files: map<string, FileText>)

  /** The layouts folder, looked at first, and the includes folder. */
  datatype Folders = Folders(layouts: Folder, includes: Folder)

  /** The identity of an object the templates see. */
  type ObjectRef = nat

  /** The template data: the site, page and paginator objects and the site's default layout. */
  datatype TemplateData = TemplateData(site: ObjectRef, page: ObjectRef, paginator: ObjectRef,
                                       defaultLayoutName: Option<string>)

  /** A value bound in a data model: one of the template objects, or a (possibly null) text. */
  datatype Value = Object(ref: ObjectRef) | Text(text: Option<string>)

  type DataModel = map<string, Value>

  /**
   * The template engine: `layoutWithTemplateCode` renders template code
   * given as text, `layout` renders the named template file.
   */
  datatype Engine = Engine(layoutWithTemplateCode: (Option<string>, DataModel) -> string,
                           layout: (string, DataModel) -> string)

  /** A remembered extended layout: its resource and the text its file holds. */
  datatype Layout = Layout(resource: Renderable, text: FileText)

  /** The two caches: which names are extended, and the resources of the extended ones. */
  datatype Manager = Manager(extended: map<string, bool>, layouts: map<string, Layout>)

  /** Every name cached as extended has its resource cached too. */
  predicate Valid(m: Manager)
  {
    forall n :: n in m.extended && m.extended[n] ==> n in m.layouts
  }

  /** A manager that has seen no layout yet. */
  function NewManager(): (m: Manager)
    ensures Valid(m) && m.extended == map[]
  {
    Manager(map[], map[])
  }

  /** `getDataModel`: a fresh model binding exactly the site, the page and the paginator. */
  function DataModelOf(data: TemplateData): (m: DataModel)
    ensures m.Keys == {"site", "page", "paginator"}
    ensures m["site"] == Object(data.site) && m["page"] == Object(data.page) && m["paginator"] == Object(data.paginator)
  {
    map["site" := Object(data.site), "page" := Object(data.page), "paginator" := Object(data.paginator)]
  }

  /** The message of the lookup failure. */
  const NoLayout := "No layout exists in layouts/includes"

  /**
   * The folder holding the layout: the layouts folder first, then the
   * includes folder. The empty name denotes the layouts folder itself,
   * which always exists.
   */
  function FindLayout(folders: Folders, name: string): (r: Result<Folder, Exception>)
    ensures r.Success? <==> name == "" || name in folders.layouts.files || name in folders.includes.files
    ensures r.Success? ==> name == "" || name in r.value.files
    ensures name == "" || name in folders.layouts.files ==> r == Success(folders.layouts)
    ensures r.Failure? ==> r.error == IllegalArgument(NoLayout)
  {
    if name == "" || name in folders.layouts.files then Success(folders.layouts)
    else if name in folders.includes.files then Success(folders.includes)
    else Failure(IllegalArgument(NoLayout))
  }

  /**
   * The file a found name denotes. For the empty name that is the folder
   * itself, a directory, which cannot be read as a file.
   */
  function LayoutFile(folder: Folder, name: string): (t: FileText)
    requires name == "" || name in folder.files
    ensures name == "" ==> t.Unreadable?
    ensures name != "" ==> t == folder.files[name]
  {
    if name == "" then Unreadable else folder.files[name]
  }

  /**
   * `decipherTemplateType`: the cached answer when there is one; otherwise
   * the file is looked up and scanned, and it is extended when its front
   * matter counts at least one line. An unreadable file is simple; a corrupt
   * front-matter line fails.
   */
  function Decipher(m: Manager, folders: Folders, name: string): (r: Result<(bool, Manager), Exception>)
    requires Valid(m)
    ensures name in m.extended ==> r == Success((m.extended[name], m))
    ensures r.Success? ==> Valid(r.value.1) && name in r.value.1.extended && r.value.1.extended[name] == r.value.0
    ensures r.Success? ==> Extends(m, r.value.1)
  {
    if name in m.extended then Success((m.extended[name], m))
    else
      var folder :- FindLayout(folders, name);
      var text := LayoutFile(folder, name);
      if text.Unreadable? then Success((false, m.(extended := m.extended[name := false])))
      else
        var scan :- ScanFrontMatter(text.lines);
        if scan.count > 0 then
          var file := folder.path + FileSeparator + name;
          var resource := Renderable(file, BasePath(Some(file), Some(folder.path)).value, Some(scan.properties), scan.count, None, None);
          Success((true, Manager(m.extended[name := true], m.layouts[name := Layout(resource, text)])))
        else Success((false, m.(extended := m.extended[name := false])))
  }

  /** The caches only grow: earlier answers are kept. */
  predicate Extends(m: Manager, m': Manager)
  {
    (forall n :: n in m.extended ==> n in m'.extended && m'.extended[n] == m.extended[n])
  }

  /**
   * A name seen for the first time is looked up in the layouts folder, then
   * the includes folder; a readable file is extended exactly when its front
   * matter counts lines, with the resource rooted at the file's folder.
   */
  lemma DecipherClassifies(m: Manager, folders: Folders, name: string)
    requires Valid(m) && name !in m.extended
    ensures var r := Decipher(m, folders, name);
            var found := FindLayout(folders, name);
            (found.Failure? ==> r == Failure(IllegalArgument(NoLayout))) &&
            (name == "" ==> r.Success? && !r.value.0) &&
            (found.Success? && LayoutFile(found.value, name).Unreadable? ==> r.Success? && !r.value.0) &&
            (found.Success? && LayoutFile(found.value, name).Readable? ==>
               var scan := ScanFrontMatter(LayoutFile(found.value, name).lines);
               (r.Success? <==> scan.Success?) &&
               (r.Success? ==> (r.value.0 <==> scan.value.count > 0)) &&
               (r.Success? && r.value.0 ==>
                  r.value.1.layouts[name].resource.frontMatter == Some(scan.value.properties) &&
                  r.value.1.layouts[name].resource.matterEndingLine == scan.value.count &&
                  r.value.1.layouts[name].text == LayoutFile(found.value, name)))
  {
  }

  /** Asking twice gives the same answer and leaves the caches as the first call left them. */
  lemma DecipherOnce(m: Manager, folders: Folders, name: string, folders': Folders)
    requires Valid(m) && Decipher(m, folders, name).Success?
    ensures var (extended, m') := Decipher(m, folders, name).value;
            Decipher(m', folders', name) == Success((extended, m'))
  {
  }

  /** The template file rendered for a name: `.html` appended unless already there. */
  function TemplateFileName(name: string): (f: string)
    ensures EndsWith(f, ".html")
    ensures EndsWith(name, ".html") ==> f == name
    ensures !EndsWith(name, ".html") ==> f == name + ".html"
  {
    if EndsWith(name, ".html") then name
    else
      assert (name + ".html")[|name|..] == ".html";
      name + ".html"
  }

  /** Naming the template file twice changes nothing more. */
  lemma TemplateFileNameIdempotent(name: string)
    ensures TemplateFileName(TemplateFileName(name)) == TemplateFileName(name)
  {
  }

  /**
   * The model a simple layout is rendered with: the template objects and
   * the content, itself first rendered as template code unless null.
   */
  function ContentModel(data: TemplateData, content: Option<string>, engine: Engine): (m: DataModel)
    ensures m.Keys == {"site", "page", "paginator", "content"}
    ensures forall k :: k in DataModelOf(data) ==> m[k] == DataModelOf(data)[k]
    ensures m["content"].Text? && (m["content"].text.Some? <==> content.Some?)
    ensures content.Some? ==> m["content"].text == Some(engine.layoutWithTemplateCode(content, m - {"content"}))
  {
    var model := DataModelOf(data);
    var modified := if content.Some? then Some(engine.layoutWithTemplateCode(content, model)) else None;
    assert model["content" := Text(modified)] - {"content"} == model;
    model["content" := Text(modified)]
  }

  /**
   * `putContentInTemplate`: the content unchanged for an empty or "nil"
   * layout name, otherwise the named `.html` template rendered with the content.
   */
  function PutContentInTemplate(name: string, content: Option<string>, data: TemplateData, engine: Engine): (r: Option<string>)
    ensures name == "" || name == "nil" ==> r == content
    ensures name != "" && name != "nil" ==> r.Some?
  {
    if name == "" || name == "nil" then content
    else Some(engine.layout(TemplateFileName(name), ContentModel(data, content, engine)))
  }

  /** The parent of an extended layout: its own `layout` property, else the site's default layout. */
  function ParentOf(resource: Renderable, data: TemplateData): (p: Option<string>)
    ensures p.Some? <==> FrontMatterProperty(resource, "layout").Some? || data.defaultLayoutName.Some?
    ensures FrontMatterProperty(resource, "layout").Some? ==> p == FrontMatterProperty(resource, "layout")
  {
    var own := FrontMatterProperty(resource, "layout");
    if own.Some? then own else data.defaultLayoutName
  }

  /** `AssertUtils.isNotEmpty` on a string: not null and not "". */
  predicate IsNotEmpty(s: Option<string>)
  {
    s.Some? && s.value != ""
  }

  /**
   * The template code of an extended layout: its body after the front
   * matter, remembered in its resource; an unreadable file gives null.
   */
  function ChildTemplate(m: Manager, name: string): (r: Result<(Option<string>, Manager), Exception>)
    requires name in m.layouts
    ensures r.Success? ==> r.value.1.extended == m.extended && r.value.1.layouts.Keys == m.layouts.Keys
    ensures r.Success? ==> r.value.1.layouts[name].resource.originalContent.Some?
                           || m.layouts[name].text.Unreadable?
    ensures r.Success? ==> r.value.1.layouts[name].text == m.layouts[name].text
    ensures r.Success? ==>
              r.value.1.layouts[name].resource.frontMatter == m.layouts[name].resource.frontMatter
    ensures r.Failure? ==>
              m.layouts[name].text.Readable? &&
              var lines := m.layouts[name].text.lines;
              var body := SubList(lines, m.layouts[name].resource.matterEndingLine, |lines|);
              body.Failure? && r.error == body.error
  {
    var entry := m.layouts[name];
    match OriginalContent(entry.resource, entry.text)
    case Success((code, resource')) =>
      Success((Some(code), m.(layouts := m.layouts[name := entry.(resource := resource')])))
    case Failure(e) =>
      if e == IOFailure then Success((None, m)) else Failure(e)
  }

  /**
   * `layoutContent`. A simple layout takes the content directly. An extended
   * layout is resolved by laying out its own template code in its parent;
   * only non-empty content is then rendered and bound as `content` into
   * that resolution. `fuel` bounds the depth of the recursion, which the
   * source leaves unbounded: running out of it is the stack overflow.
   */
  function LayoutContent(m: Manager, folders: Folders, engine: Engine, name: string, content: Option<string>,
                         data: TemplateData, fuel: nat): (r: Result<(Option<string>, Manager), Exception>)
    requires Valid(m)
    ensures r.Success? ==> Valid(r.value.1) && Extends(m, r.value.1) && name in r.value.1.extended
    decreases fuel
  {
    if fuel == 0 then Failure(StackOverflow)
    else
      var decided :- Decipher(m, folders, name);
      var m1 := decided.1;
      if !decided.0 then Success((PutContentInTemplate(name, content, data, engine), m1))
      else
        var parent := ParentOf(m1.layouts[name].resource, data);
        if parent.None? then Success((PutContentInTemplate(name, content, data, engine), m1))
        else
          var dataModel := DataModelOf(data);
          var child :- ChildTemplate(m1, name);
          var resolved :- LayoutContent(child.1, folders, engine, parent.value, child.0, data, fuel - 1);
          if IsNotEmpty(content) then
            var model := map["content" := Text(Some(engine.layoutWithTemplateCode(content, dataModel)))];
            Success((Some(engine.layoutWithTemplateCode(resolved.0, model)), resolved.1))
          else Success(resolved)
  }

  /**
   * Classification comes first: even the name "nil" fails when no file of
   * that name exists, before the check that would return the content. The
   * empty name is never missing: it names the layouts folder itself.
   */
  lemma MissingLayoutFails(m: Manager, folders: Folders, engine: Engine, name: string, content: Option<string>,
                           data: TemplateData, fuel: nat)
    requires Valid(m) && fuel > 0 && name !in m.extended
    requires name != "" && name !in folders.layouts.files && name !in folders.includes.files
    ensures LayoutContent(m, folders, engine, name, content, data, fuel) == Failure(IllegalArgument(NoLayout))
  {
  }

  /**
   * The empty layout name resolves to the layouts folder, which is not a
   * readable file, so it is simple and the content comes back unchanged.
   */
  lemma EmptyNameKeepsContent(m: Manager, folders: Folders, engine: Engine, content: Option<string>,
                              data: TemplateData, fuel: nat)
    requires Valid(m) && fuel > 0 && ("" in m.extended ==> !m.extended[""])
    ensures var r := LayoutContent(m, folders, engine, "", content, data, fuel);
            r.Success? && r.value.0 == content && r.value.1.extended[""] == false
  {
  }

  /** A layout known to be simple puts the content straight into its template. */
  lemma SimpleLayout(m: Manager, folders: Folders, engine: Engine, name: string, content: Option<string>,
                     data: TemplateData, fuel: nat)
    requires Valid(m) && fuel > 0 && name in m.extended && !m.extended[name]
    ensures LayoutContent(m, folders, engine, name, content, data, fuel) ==
              Success((PutContentInTemplate(name, content, data, engine), m))
  {
  }

  /**
   * An extended layout whose front matter names no parent, on a site with
   * no default layout, is laid out as a simple one.
   */
  lemma ExtendedWithoutParent(m: Manager, folders: Folders, engine: Engine, name: string, content: Option<string>,
                              data: TemplateData, fuel: nat)
    requires Valid(m) && fuel > 0 && name in m.extended && m.extended[name]
    requires FrontMatterProperty(m.layouts[name].resource, "layout").None? && data.defaultLayoutName.None?
    ensures LayoutContent(m, folders, engine, name, content, data, fuel) ==
              Success((PutContentInTemplate(name, content, data, engine), m))
  {
  }

  /**
   * With empty content an extended layout is exactly its parent laid out
   * around the layout's own template code; otherwise that resolution is
   * rendered once more with the content bound.
   */
  lemma ExtendedResolvesParentFirst(m: Manager, folders: Folders, engine: Engine, name: string,
                                    content: Option<string>, data: TemplateData, fuel: nat)
    requires Valid(m) && fuel > 0 && name in m.extended && m.extended[name]
    requires ParentOf(m.layouts[name].resource, data).Some?
    requires ChildTemplate(m, name).Success?
    ensures var child := ChildTemplate(m, name).value;
            var parent := ParentOf(m.layouts[name].resource, data).value;
            var resolved := LayoutContent(child.1, folders, engine, parent, child.0, data, fuel - 1);
            var r := LayoutContent(m, folders, engine, name, content, data, fuel);
            (r.Success? <==> resolved.Success?) &&
            (resolved.Success? && !IsNotEmpty(content) ==> r == resolved) &&
            (resolved.Success? && IsNotEmpty(content) ==>
               r.value.1 == resolved.value.1 &&
               r.value.0 == Some(engine.layoutWithTemplateCode(resolved.value.0,
                 map["content" := Text(Some(engine.layoutWithTemplateCode(content, DataModelOf(data))))])))
  {
  }

  /**
   * An extended layout that names itself as its parent, and whose body can
   * be read, never finishes: with any bound on the depth it overflows.
   */
  predicate SelfParent(m: Manager, name: string)
  {
    Valid(m) && name in m.extended && m.extended[name] &&
    FrontMatterProperty(m.layouts[name].resource, "layout") == Some(name) &&
    (m.layouts[name].resource.originalContent.Some? || m.layouts[name].text.Unreadable? ||
     0 <= m.layouts[name].resource.matterEndingLine <= |m.layouts[name].text.lines|)
  }

  lemma {:induction false} SelfParentOverflows(m: Manager, folders: Folders, engine: Engine, name: string,
                                               content: Option<string>, data: TemplateData, fuel: nat)
    requires SelfParent(m, name)
    ensures LayoutContent(m, folders, engine, name, content, data, fuel) == Failure(StackOverflow)
    decreases fuel
  {
    if fuel > 0 {
      var entry := m.layouts[name];
      if entry.resource.originalContent.None? && entry.text.Readable? {
        assert SubList(entry.text.lines, entry.resource.matterEndingLine, |entry.text.lines|).Success?;
      }
      var child := ChildTemplate(m, name);
      assert child.Success?;
      assert SelfParent(child.value.1, name);
      SelfParentOverflows(child.value.1, folders, engine, name, child.value.0, data, fuel - 1);
    }
  }
}
