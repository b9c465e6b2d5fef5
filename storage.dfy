/**
 * The project store of src/helpers/storage.ts over an abstract file system: a
 * map from file path to file content. Each project is a directory under the
 * storage path holding `sa.json`, `urls.csv` and the ledger `urls_processed.csv`.
 */
module StorageHelpers {
  import opened Wrappers
  import opened Text

  /** The file system: path to content; a path that is not a key does not exist. */
  type Files = map<string, string>

  /** The platform line ending (`os.EOL` on POSIX systems). */
  const EOL := "\n"
  /** The header row written above the ledger's URLs; also the column read. */
  const Header := "URL"
  const UrlsName := "urls"
  const LedgerName := "urls_processed"
  const ServiceAccountFile := "sa.json"

  /** A directory entry name: it holds no path separator. */
  predicate ValidName(name: string) {
    '/' !in name
  }

  /** `fpath`: `join(join(path, project), fname)`, written without path normalisation. */
  function FilePath(root: string, project: string, fname: string): string {
    root + "/" + project + "/" + fname
  }

  function LedgerPath(root: string, project: string): string {
    FilePath(root, project, LedgerName + ".csv")
  }

  /** Two paths built from valid project names are equal only for the same project and file. */
  lemma FilePathInjective(root: string, p: string, f: string, q: string, g: string)
    requires ValidName(p) && ValidName(q)
    requires FilePath(root, p, f) == FilePath(root, q, g)
    ensures p == q && f == g
  {
    var n := |root| + 1;
    var s, t := p + "/" + f, q + "/" + g;
    assert s == FilePath(root, p, f)[n..];
    assert t == FilePath(root, q, g)[n..];
    assert s == t;
    assert forall k :: 0 <= k < |p| ==> s[k] == p[k] && p[k] in p;
    assert forall k :: 0 <= k < |q| ==> t[k] == q[k] && q[k] in q;
    assert s[|p|] == '/' && t[|q|] == '/';
    assert |p| == |q|;
    assert p == s[..|p|] && q == t[..|q|];
    assert f == s[|p| + 1..] && g == t[|q| + 1..];
  }

  /** Paths of different files, or of files of different projects, differ. */
  lemma FilePathsDiffer(root: string, p: string, f: string, q: string, g: string)
    requires ValidName(p) && ValidName(q) && (p != q || f != g)
    ensures FilePath(root, p, f) != FilePath(root, q, g)
  {
    if FilePath(root, p, f) == FilePath(root, q, g) {
      FilePathInjective(root, p, f, q, g);
    }
  }

  /** The ledger file as `saveUrlsProcessed` leaves it: the header line, then one URL per line. */
  function Serialize(urls: seq<string>): string {
    Header + EOL + Terminated(urls, EOL)
  }

  /**
   * The URL column of a CSV file with a header row: the file's lines (a final
   * line break ends the last line rather than starting an empty one) without
   * the first.
   */
  function ReadCsvColumn(content: string): (r: seq<string>)
    ensures forall i :: 0 <= i < |r| ==> '\n' !in r[i]
  {
    var lines := Split(content, EOL);
    var rows := if lines[|lines| - 1] == "" then lines[..|lines| - 1] else lines;
    forall i | 0 <= i < |rows| ensures '\n' !in rows[i] {
      NoLineBreakInLine(rows[i]);
    }
    if |rows| == 0 then [] else rows[1..]
  }

  lemma NoLineBreakInLine(line: string)
    requires Free(line, EOL)
    ensures '\n' !in line
  {
    forall j | 0 <= j < |line| ensures line[j] != '\n' {
      assert !OccursAt(line, EOL, j);
      assert line[j..j + 1] == [line[j]];
    }
  }

  /** `loadDataUrls`: a missing file loads as no URLs, an existing one as its URL column. */
  function LoadDataUrls(fs: Files, root: string, project: string, name: string): seq<string> {
    var path := FilePath(root, project, name + ".csv");
    if path !in fs then [] else ReadCsvColumn(fs[path])
  }

  /** The record `loadData` assembles for one project. */
  datatype ProjectData = ProjectData(sa: string, urls: seq<string>, processed: seq<string>)

  /** `loadDataSA` throws when `sa.json` cannot be read. */
  datatype LoadError = ServiceAccountUnreadable(path: string)

  /**
   * `loadData`: the service account first (its failure ends the load), then
   * the URL list and the ledger of the same project.
   */
  function LoadData(fs: Files, root: string, project: string): Result<ProjectData, LoadError> {
    var sa := FilePath(root, project, ServiceAccountFile);
    if sa !in fs then Err(ServiceAccountUnreadable(sa))
    else Ok(ProjectData(fs[sa], LoadDataUrls(fs, root, project, UrlsName), LoadDataUrls(fs, root, project, LedgerName)))
  }

  /** `path` exists in both file systems with the same content, or in neither. */
  predicate SameAt(fs: Files, fs': Files, path: string) {
    (path in fs <==> path in fs') && (path in fs ==> fs[path] == fs'[path])
  }

  /** Loading a project reads nothing but its three files. */
  lemma LoadDataFrame(fs: Files, fs': Files, root: string, project: string)
    requires SameAt(fs, fs', FilePath(root, project, ServiceAccountFile))
    requires SameAt(fs, fs', FilePath(root, project, UrlsName + ".csv"))
    requires SameAt(fs, fs', LedgerPath(root, project))
    ensures LoadData(fs, root, project) == LoadData(fs', root, project)
  {
  }

  /** Round trip: reading the saved ledger gives back the list that was saved. */
  lemma ReadSerialized(urls: seq<string>)
    requires forall i :: 0 <= i < |urls| ==> '\n' !in urls[i]
    ensures ReadCsvColumn(Serialize(urls)) == urls
  {
    var items := [Header] + urls;
    forall i | 0 <= i < |items| ensures Separable(items[i], EOL) {
      LineSeparable(items[i], '\n');
    }
    assert Serialize(urls) == Terminated(items, EOL);
    SplitTerminated(items, EOL);
    var lines := items + [""];
    assert lines[..|lines| - 1] == items;
  }

  /**
   * After the ledger of `project` is saved, loading the project gives the same
   * service account and URL list and the saved ledger.
   */
  lemma LoadAfterSave(fs: Files, root: string, project: string, urls: seq<string>)
    requires forall i :: 0 <= i < |urls| ==> '\n' !in urls[i]
    ensures var before, after := LoadData(fs, root, project), LoadData(fs[LedgerPath(root, project) := Serialize(urls)], root, project);
            after.Ok? == before.Ok? &&
            (after.Ok? ==> after.value == before.value.(processed := urls))
  {
    ReadSerialized(urls);
  }

  /** Saving one project's ledger does not change what another project loads. */
  lemma LoadOtherProject(fs: Files, root: string, project: string, other: string, content: string)
    requires ValidName(project) && ValidName(other) && project != other
    ensures LoadData(fs[LedgerPath(root, project) := content], root, other) == LoadData(fs, root, other)
  {
    var fs' := fs[LedgerPath(root, project) := content];
    forall fname | fname in {ServiceAccountFile, UrlsName + ".csv", LedgerName + ".csv"}
      ensures SameAt(fs, fs', FilePath(root, other, fname))
    {
      if FilePath(root, other, fname) == LedgerPath(root, project) {
        FilePathInjective(root, other, fname, project, LedgerName + ".csv");
      }
    }
    LoadDataFrame(fs, fs', root, other);
  }

  /** After a flush the project loads with an empty ledger and everything else as before. */
  lemma LoadAfterFlush(fs: Files, root: string, project: string)
    ensures var before, after := LoadData(fs, root, project), LoadData(fs - {LedgerPath(root, project)}, root, project);
            after.Ok? == before.Ok? &&
            (after.Ok? ==> after.value == before.value.(processed := []))
  {
  }

  /** The storage of src/helpers/storage.ts: its folder and the files beneath it. */
  class Storage {
    const path: string
    var files: Files

    constructor (path: string, files: Files)
      ensures this.path == path && this.files == files
    {
      this.path := path;
      this.files := files;
    }

    /**
     * `saveUrlsProcessed`: overwrite the ledger with the header line, then
     * append one line per URL. No other file changes.
     */
    method SaveUrlsProcessed(project: string, urls: seq<string>)
      modifies this
      ensures files == old(files)[LedgerPath(path, project) := Serialize(urls)]
    {
      var ledger := FilePath(path, project, LedgerName + ".csv");
      files := files[ledger := Header + EOL];
      assert Header + EOL == Header + EOL + Terminated(urls[..0], EOL);
      for i := 0 to |urls|
        invariant files == old(files)[ledger := Header + EOL + Terminated(urls[..i], EOL)]
      {
        TerminatedSnoc(urls[..i], urls[i], EOL);
        assert urls[..i + 1] == urls[..i] + [urls[i]];
        ghost var before := Terminated(urls[..i], EOL);
        assert files[ledger] + urls[i] + EOL == Header + EOL + (before + urls[i] + EOL);
        files := files[ledger := files[ledger] + urls[i] + EOL];
      }
      assert urls[..|urls|] == urls;
    }

    /** `flushUrlsProcessed`: delete the ledger; nothing happens when it does not exist. */
    method FlushUrlsProcessed(project: string)
      modifies this
      ensures files == old(files) - {LedgerPath(path, project)}
    {
      var ledger := FilePath(path, project, LedgerName + ".csv");
      if ledger !in files {
        return;
      }
      files := files - {ledger};
    }
  }
}
