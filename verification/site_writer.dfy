/**
 * The path arithmetic of the site writer: the source root fixed at
 * construction, the export folder created once, the export target of a
 * resource, and the base path of a source file.
 */
module SiteWriters {
  import opened Wrappers
  import opened JavaLang
  import Resources

  /** `sourceBase` is the absolute source folder; `siteFolder` is null until created. */
  datatype SiteWriter = SiteWriter(sourceBase: string, siteFolder: Option<string>)

  /** The constructor, given the parent folder's absolute path. */
  function NewSiteWriter(parentFolder: string): (w: SiteWriter)
    ensures w.sourceBase == parentFolder && w.siteFolder.None?
  {
    SiteWriter(parentFolder, None)
  }

  /**
   * `createSiteExportFolder`: the folder `siteFolderName` under the parent.
   * The file system's answers are parameters: whether that folder already
   * exists as a directory, and whether `mkdirs` succeeds.
   */
  function CreateSiteExportFolder(w: SiteWriter, parentFolder: string, siteFolderName: string,
                                  existsAsDirectory: bool, mkdirsSucceeds: bool): (r: Result<SiteWriter, Exception>)
    ensures r.Success? <==> !existsAsDirectory && mkdirsSucceeds
    ensures existsAsDirectory ==> r.Failure? && r.error.IllegalState?
    ensures !existsAsDirectory && !mkdirsSucceeds ==> r.Failure? && r.error.Runtime?
    ensures r.Success? ==>
              r.value.sourceBase == w.sourceBase &&
              r.value.siteFolder == Some(parentFolder + FileSeparator + siteFolderName)
  {
    if existsAsDirectory then
      Failure(IllegalState("Site folder already exists... looks like the backup failed. aborting!"))
    else if !mkdirsSucceeds then Failure(Runtime("Unable to create site export directory."))
    else Success(w.(siteFolder := Some(parentFolder + FileSeparator + siteFolderName)))
  }

  /** The file `export` writes a resource with export path `exportPath` to. */
  function ExportTarget(w: SiteWriter, exportPath: string): (r: Result<string, Exception>)
    ensures r.Success? <==> w.siteFolder.Some?
    ensures r.Failure? ==> r.error == NullPointer
  {
    if w.siteFolder.None? then Failure(NullPointer)
    else Success(w.siteFolder.value + FileSeparator + exportPath)
  }

  /** `createBasePath`: the path relative to the source root when it lies under it. */
  function CreateBasePath(w: SiteWriter, path: string): string
  {
    RemovePrefix(path, w.sourceBase)
  }

  /**
   * A path under the source root loses exactly the root, any other path is
   * kept, and the result is always a suffix of the input.
   */
  lemma CreateBasePathSpec(w: SiteWriter, relative: string, path: string)
    ensures CreateBasePath(w, w.sourceBase + relative) == relative
    ensures !StartsWith(path, w.sourceBase) ==> CreateBasePath(w, path) == path
    ensures EndsWith(path, CreateBasePath(w, path))
  {
    assert (w.sourceBase + relative)[..|w.sourceBase|] == w.sourceBase;
  }

  /** The writer and a resource rooted at the same folder derive the same relative path. */
  lemma CreateBasePathAgreesWithResources(root: string, file: string)
    ensures Resources.BasePath(Some(file), Some(root)) == Success(CreateBasePath(NewSiteWriter(root), file))
  {
  }

  /**
   * Exporting before the folder exists dereferences null; afterwards every
   * target is the folder, a separator and the export path.
   */
  lemma ExportAfterCreate(parentFolder: string, siteFolderName: string, exportPath: string)
    ensures ExportTarget(NewSiteWriter(parentFolder), exportPath) == Failure(NullPointer)
    ensures var w := CreateSiteExportFolder(NewSiteWriter(parentFolder), parentFolder, siteFolderName, false, true);
            w.Success? &&
            ExportTarget(w.value, exportPath) ==
              Success(parentFolder + "/" + siteFolderName + "/" + exportPath)
  {
  }
}
