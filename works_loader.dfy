/**
 * The canonical works loader: of the Markdown files one level below the works
 * directory, it keeps those named after their folder, reads each, chooses its
 * frontmatter, validates it against the collection schema and stores one entry
 * per folder. The file system, the front matter splitter, the Markdown
 * renderer and the host's reading of front-matter values are parameters.
 */
module WorksLoader {
  import opened Wrappers
  import JsString

  /** The works directory, relative to the project root. */
  const WorksDir: string := "src/works/"

  /** A file name with a trailing `.md` or `.mdx`, in any letter case, removed (`/\.(md|mdx)$/i`). */
  function StripMarkdownExtension(name: string): (r: string)
    ensures |r| <= |name| && r == name[..|r|]
    ensures r != name ==> JsString.ToLower(name[|r|..]) in {".md", ".mdx"}
  {
    if |name| >= 4 && JsString.ToLower(name[|name| - 4..]) == ".mdx" then name[..|name| - 4]
    else if |name| >= 3 && JsString.ToLower(name[|name| - 3..]) == ".md" then name[..|name| - 3]
    else name
  }

  /** A name ending in a Markdown extension loses exactly that extension. */
  lemma StripsExtension(base: string, ext: string)
    requires JsString.ToLower(ext) in {".md", ".mdx"}
    ensures StripMarkdownExtension(base + ext) == base
  {
    var name := base + ext;
    if |ext| == 3 {
      assert name[|name| - 3..] == ext;
      if |name| >= 4 {
        var tail := JsString.ToLower(name[|name| - 4..]);
        assert tail[1..] == JsString.ToLower(ext);
      }
    } else {
      assert name[|name| - 4..] == ext;
    }
    assert name[..|base|] == base;
  }

  /** The filter on globbed paths: exactly two segments, the folder equal to the file name without its extension. */
  predicate IsCanonical(relPath: string) {
    var parts := JsString.Split(relPath, '/');
    |parts| == 2 && parts[0] == StripMarkdownExtension(parts[1])
  }

  /** The folder segment of a path, which becomes the entry's id. */
  function EntryId(relPath: string): (r: string)
    ensures '/' !in r && r <= relPath
    ensures '/' !in relPath ==> r == relPath
  {
    var parts := JsString.Split(relPath, '/');
    JsString.JoinStartsWithFirst(parts, "/");
    if '/' !in relPath then
      JsString.SplitNoSeparator(relPath, '/');
      parts[0]
    else
      parts[0]
  }

  /** A canonical path is `folder/folder` followed by nothing or a Markdown extension, and its id is the folder. */
  lemma CanonicalShape(relPath: string)
    requires IsCanonical(relPath)
    ensures var f := EntryId(relPath);
      '/' !in f && |relPath| > 2 * |f| && relPath[..2 * |f| + 1] == f + "/" + f
      && (|relPath| == 2 * |f| + 1 || JsString.ToLower(relPath[2 * |f| + 1..]) in {".md", ".mdx"})
  {
    var parts := JsString.Split(relPath, '/');
    TwoPieces(parts);
    FolderThenFile(parts[0], parts[1], relPath);
  }

  lemma TwoPieces(parts: seq<string>)
    requires |parts| == 2
    ensures JsString.Join(parts, "/") == parts[0] + "/" + parts[1]
  {
    assert parts[1..] == [parts[1]];
    assert JsString.Join(parts[1..], "/") == parts[1];
  }

  lemma FolderThenFile(f: string, file: string, relPath: string)
    requires relPath == f + "/" + file && StripMarkdownExtension(file) == f
    ensures |relPath| > 2 * |f| && relPath[..2 * |f| + 1] == f + "/" + f
    ensures |relPath| == 2 * |f| + 1 || JsString.ToLower(relPath[2 * |f| + 1..]) in {".md", ".mdx"}
  {
    assert file[..|f|] == f;
    assert relPath[..2 * |f| + 1] == f + "/" + file[..|f|];
    assert relPath[2 * |f| + 1..] == file[|f|..];
  }

  /** Every `folder/folder.md` or `folder/folder.mdx` (any case of extension) passes the filter, with the folder as id. */
  lemma CanonicalPath(folder: string, ext: string)
    requires '/' !in folder && '/' !in ext
    requires JsString.ToLower(ext) in {".md", ".mdx"}
    ensures IsCanonical(folder + "/" + folder + ext)
    ensures EntryId(folder + "/" + folder + ext) == folder
  {
    var parts := [folder, folder + ext];
    var path := folder + "/" + folder + ext;
    assert JsString.Split(path, '/') == parts by {
      TwoPieces(parts);
      assert path == JsString.Join(parts, "/");
      JsString.SplitJoin(parts, '/');
    }
    assert StripMarkdownExtension(parts[1]) == folder by {
      StripsExtension(folder, ext);
    }
  }

  /** A path in a sub-folder of the folder is not canonical. */
  lemma NestedNotCanonical(a: string, b: string, c: string)
    requires '/' !in a && '/' !in b && '/' !in c
    ensures !IsCanonical(a + "/" + b + "/" + c)
  {
    var parts := [a, b, c];
    TwoPieces(parts[1..]);
    assert parts[1..] == [b, c];
    assert JsString.Join(parts, "/") == a + "/" + (b + "/" + c);
    assert a + "/" + b + "/" + c == a + "/" + (b + "/" + c);
    JsString.SplitJoin(parts, '/');
  }

  /** `files.filter(...)`: the canonical paths, in their original order. */
  function CanonicalFiles(files: seq<string>): (r: seq<string>)
    ensures forall i :: 0 <= i < |r| ==> IsCanonical(r[i]) && r[i] in files
    ensures forall f :: f in files && IsCanonical(f) ==> f in r
    ensures |r| <= |files|
  {
    if files == [] then []
    else if IsCanonical(files[0]) then [files[0]] + CanonicalFiles(files[1..])
    else CanonicalFiles(files[1..])
  }

  /** The filter keeps order: filtering a concatenation filters each part, in turn. */
  lemma {:induction false} CanonicalFilesConcat(a: seq<string>, b: seq<string>)
    ensures CanonicalFiles(a + b) == CanonicalFiles(a) + CanonicalFiles(b)
  {
    if a == [] {
      assert a + b == b;
    } else {
      assert (a + b)[0] == a[0];
      assert (a + b)[1..] == a[1..] + b;
      CanonicalFilesConcat(a[1..], b);
    }
  }

  /** Front matter, keyed by field name; the values are not interpreted here. */
  type Frontmatter = map<string, string>

  /** What gray-matter gives back: the parsed front matter and the body after it. */
  datatype Extracted = Extracted(data: Frontmatter, content: string)

  /** `renderMarkdown(content)`: it throws, or it gives metadata with optional front matter. */
  datatype RenderOutcome =
    | RenderError
    | Rendered(frontmatter: Option<Frontmatter>, imagePaths: Option<seq<string>>)

  /** `fs.readFile`: it throws, or it gives the contents, which may be null. */
  datatype ReadOutcome = ReadError | ReadOk(contents: Option<string>)

  /**
   * What the loader calls but does not define: the file reader, gray-matter's
   * `extract` (`None` when it throws on malformed front matter), the Markdown
   * renderer, and the host's reading of front-matter values into the
   * schema's fields, which `parseData` then validates with `ParseWork`.
   */
  datatype Host = Host(
    read: string -> ReadOutcome,
    extract: string -> Option<Extracted>,
    render: string -> RenderOutcome,
    decode: Frontmatter -> RawWork)

  /** The entry handed to `store.set`; the digest is computed by the host from the contents. */
  datatype Entry = Entry(
    id: string,
    data: Work,
    filePath: string,
    rendered: Option<RenderOutcome>)

  /**
   * The frontmatter handed to `parseData`: the renderer's, when rendering
   * succeeded and produced a non-empty one; gray-matter's otherwise.
   */
  function ChooseFrontmatter(parsed: Frontmatter, outcome: RenderOutcome): (r: Frontmatter)
    ensures r == parsed || (outcome.Rendered? && outcome.frontmatter == Some(r) && |r| > 0)
    ensures outcome.RenderError? ==> r == parsed
    ensures outcome.Rendered? && outcome.frontmatter.Some? && |outcome.frontmatter.value| > 0
            ==> r == outcome.frontmatter.value
  {
    match outcome
    case RenderError => parsed
    case Rendered(fm, _) => if fm.Some? && |fm.value| > 0 then fm.value else parsed
  }

  /** Whether a path is read successfully with non-null contents. */
  predicate Readable(relPath: string, h: Host) {
    h.read(relPath).ReadOk? && h.read(relPath).contents.Some?
  }

  /** The front matter `parseData` is given for a readable file whose front matter `extract` could split. */
  function ChosenFrontmatter(x: Extracted, h: Host): Frontmatter {
    ChooseFrontmatter(x.data, h.render(x.content))
  }

  /** What one turn of the load loop does with a path: skip it, store an entry, or throw out of `load`. */
  datatype Step = Skip | Store(entry: Entry) | Throw

  /**
   * One canonical path: an unreadable or null file is skipped; a throw from
   * `extract` or from `parseData` (front matter the schema rejects) ends the
   * load, since neither call is inside a `try`; otherwise the entry is stored.
   */
  function StepFor(relPath: string, h: Host): (r: Step)
    ensures r.Skip? <==> !Readable(relPath, h)
    ensures r.Throw? <==>
      && Readable(relPath, h)
      && (|| h.extract(h.read(relPath).contents.value).None?
          || !WorkValid(h.decode(ChosenFrontmatter(h.extract(h.read(relPath).contents.value).value, h))))
    ensures r.Store? ==> r.entry.id == EntryId(relPath) && r.entry.filePath == WorksDir + relPath
    ensures r.Store? ==>
      var x := h.extract(h.read(relPath).contents.value).value;
      Some(r.entry.data) == ParseWork(h.decode(ChosenFrontmatter(x, h)))
  {
    if !Readable(relPath, h) then Skip
    else match h.extract(h.read(relPath).contents.value)
      case None => Throw
      case Some(x) =>
        var outcome := h.render(x.content);
        match ParseWork(h.decode(ChooseFrontmatter(x.data, outcome)))
        case None => Throw
        case Some(w) =>
          Store(Entry(EntryId(relPath), w, WorksDir + relPath, if outcome.Rendered? then Some(outcome) else None))
  }

  /** The store, and whether `load` threw, after running the loop over some paths from an empty store. */
  datatype Run = Run(entries: map<string, Entry>, threw: bool)

  /** The loop over `paths` in order: a later entry with the same id replaces an earlier one, and a throw stops it. */
  function Loaded(paths: seq<string>, h: Host): Run
  {
    if paths == [] then Run(map[], false)
    else
      var before := Loaded(paths[..|paths| - 1], h);
      if before.threw then before else LoadOne(before.entries, paths[|paths| - 1], h)
  }

  /** One turn of the load loop. */
  function LoadOne(m: map<string, Entry>, relPath: string, h: Host): (r: Run)
    ensures r.threw <==> StepFor(relPath, h).Throw?
    ensures StepFor(relPath, h).Store? ==> r.entries == m[StepFor(relPath, h).entry.id := StepFor(relPath, h).entry]
    ensures !StepFor(relPath, h).Store? ==> r.entries == m
  {
    match StepFor(relPath, h)
    case Skip => Run(m, false)
    case Store(e) => Run(m[e.id := e], false)
    case Throw => Run(m, true)
  }

  /** What a whole load leaves in the store: nothing when globbing fails, else the loop over the canonical files. */
  function LoadResult(glob: Option<seq<string>>, h: Host): (r: Run)
    ensures glob.None? ==> r == Run(map[], false)
  {
    if glob.None? then Run(map[], false) else Loaded(CanonicalFiles(glob.value), h)
  }

  /** No path before index `n` makes `load` throw. */
  predicate NoThrowBefore(paths: seq<string>, h: Host, n: int) {
    forall j :: 0 <= j < n && j < |paths| ==> !StepFor(paths[j], h).Throw?
  }

  /** The load throws exactly when one of its paths throws. */
  lemma {:induction false} LoadThrows(paths: seq<string>, h: Host)
    ensures Loaded(paths, h).threw <==> !NoThrowBefore(paths, h, |paths|)
  {
    if paths != [] {
      var init := paths[..|paths| - 1];
      LoadThrows(init, h);
      assert forall j :: 0 <= j < |init| ==> init[j] == paths[j];
    }
  }

  /**
   * An id is stored exactly when some path before the first throw stores an
   * entry under it, and the stored entry is the entry of such a path.
   */
  lemma {:induction false} LoadedEntries(paths: seq<string>, h: Host, id: string)
    ensures id in Loaded(paths, h).entries <==>
            exists i :: 0 <= i < |paths| && NoThrowBefore(paths, h, i) && StepFor(paths[i], h).Store?
                        && EntryId(paths[i]) == id
    ensures id in Loaded(paths, h).entries ==>
            exists i :: 0 <= i < |paths| && NoThrowBefore(paths, h, i)
                        && StepFor(paths[i], h) == Store(Loaded(paths, h).entries[id])
  {
    if paths != [] {
      var init := paths[..|paths| - 1];
      var last := |paths| - 1;
      LoadedEntries(init, h, id);
      LoadThrows(init, h);
      assert forall i :: 0 <= i < |init| ==> init[i] == paths[i];
      assert forall i :: 0 <= i <= |init| ==> (NoThrowBefore(init, h, i) <==> NoThrowBefore(paths, h, i));
      var x := paths[last];
      if Loaded(init, h).threw {
        var k :| 0 <= k < |init| && StepFor(init[k], h).Throw?;
        assert !NoThrowBefore(paths, h, last);
        assert Loaded(paths, h) == Loaded(init, h);
      } else {
        assert NoThrowBefore(paths, h, last);
        assert Loaded(paths, h) == LoadOne(Loaded(init, h).entries, x, h);
        if StepFor(x, h).Store? && EntryId(x) == id {
          assert Loaded(paths, h).entries[id] == StepFor(x, h).entry;
        } else {
          assert id in Loaded(paths, h).entries <==> id in Loaded(init, h).entries;
          assert id in Loaded(paths, h).entries ==> Loaded(paths, h).entries[id] == Loaded(init, h).entries[id];
        }
      }
    }
  }

  /**
   * A throw ends the load with the store as the paths before it left it:
   * nothing after the throwing path is stored.
   */
  lemma {:induction false} ThrowEndsLoad(paths: seq<string>, k: nat, h: Host)
    requires k < |paths| && NoThrowBefore(paths, h, k) && StepFor(paths[k], h).Throw?
    ensures Loaded(paths, h) == Run(Loaded(paths[..k], h).entries, true)
    decreases |paths|
  {
    if k < |paths| - 1 {
      var init := paths[..|paths| - 1];
      assert init[..k] == paths[..k];
      assert forall j :: 0 <= j <= k ==> init[j] == paths[j];
      ThrowEndsLoad(init, k, h);
    } else {
      var init := paths[..|paths| - 1];
      assert init == paths[..k];
      LoadThrows(init, h);
      assert forall j :: 0 <= j < |init| ==> init[j] == paths[j];
    }
  }

  /** A path that cannot be read is skipped: loading without it gives the same result. */
  lemma {:induction false} UnreadableSkipped(paths: seq<string>, k: nat, h: Host)
    requires k < |paths| && !Readable(paths[k], h)
    ensures Loaded(paths, h) == Loaded(paths[..k] + paths[k + 1..], h)
    decreases |paths|
  {
    var without := paths[..k] + paths[k + 1..];
    var init := paths[..|paths| - 1];
    var last := paths[|paths| - 1];
    LoadedSnoc(init, last, h);
    assert paths == init + [last];
    if k == |paths| - 1 {
      assert without == init;
      assert StepFor(last, h).Skip?;
    } else {
      UnreadableSkipped(init, k, h);
      var initWithout := init[..k] + init[k + 1..];
      assert init[..k] == paths[..k] && init[k + 1..] + [last] == paths[k + 1..];
      assert without == initWithout + [last];
      LoadedSnoc(initWithout, last, h);
    }
  }

  /** The loop over `s` and then one more path. */
  lemma LoadedSnoc(s: seq<string>, x: string, h: Host)
    ensures Loaded(s + [x], h)
         == if Loaded(s, h).threw then Loaded(s, h) else LoadOne(Loaded(s, h).entries, x, h)
  {
    assert (s + [x])[..|s|] == s;
  }

  /** The loader's entry store (`DataStore`): entries keyed by id. */
  class Store {
    var entries: map<string, Entry>

    constructor ()
      ensures entries == map[]
    {
      entries := map[];
    }

    method Clear()
      modifies this
      ensures entries == map[]
    {
      entries := map[];
    }

    /** `store.set(entry)`: adds the entry, replacing one with the same id. */
    method Set(e: Entry)
      modifies this
      ensures entries == old(entries)[e.id := e]
    {
      entries := entries[e.id := e];
    }
  }

  /**
   * `load`: clears the store, globs the works directory (`glob` is `None` when
   * globbing throws, which is caught), and runs the loop over the canonical
   * files; `threw` tells whether `extract` or `parseData` threw out of it.
   */
  method Load(store: Store, glob: Option<seq<string>>, h: Host) returns (threw: bool)
    modifies store
    ensures store.entries == LoadResult(glob, h).entries
    ensures threw == LoadResult(glob, h).threw
  {
    store.Clear();
    if glob.None? {
      return false;
    }
    var canonicalFiles := CanonicalFiles(glob.value);
    var i := 0;
    while i < |canonicalFiles|
      invariant 0 <= i <= |canonicalFiles|
      invariant store.entries == Loaded(canonicalFiles[..i], h).entries
      invariant !Loaded(canonicalFiles[..i], h).threw
    {
      var relPath := canonicalFiles[i];
      LoadStep(canonicalFiles, i, h);
      var outcome := h.read(relPath);
      if outcome.ReadError? || outcome.contents.None? {
        i := i + 1;
        continue;
      }
      var extracted := h.extract(outcome.contents.value);
      if extracted.None? {
        ThrowStops(canonicalFiles, i, h);
        return true;
      }
      var x := extracted.value;
      var id := EntryId(relPath);
      var filePath := WorksDir + relPath;
      var rendered := h.render(x.content);
      var frontmatter := ChooseFrontmatter(x.data, rendered);
      var parsedData := ParseWork(h.decode(frontmatter));
      if parsedData.None? {
        ThrowStops(canonicalFiles, i, h);
        return true;
      }
      store.Set(Entry(id, parsedData.value, filePath, if rendered.Rendered? then Some(rendered) else None));
      i := i + 1;
    }
    assert canonicalFiles[..i] == canonicalFiles;
    return false;
  }

  /** One more turn of the loop, taken when the paths so far did not throw. */
  lemma LoadStep(paths: seq<string>, i: nat, h: Host)
    requires i < |paths| && !Loaded(paths[..i], h).threw
    ensures Loaded(paths[..i + 1], h) == LoadOne(Loaded(paths[..i], h).entries, paths[i], h)
  {
    assert paths[..i + 1][..i] == paths[..i];
  }

  /** Once the loop has thrown, the remaining paths change nothing. */
  lemma ThrowStops(paths: seq<string>, i: nat, h: Host)
    requires i < |paths| && StepFor(paths[i], h).Throw? && !Loaded(paths[..i], h).threw
    ensures Loaded(paths, h) == Run(Loaded(paths[..i], h).entries, true)
  {
    LoadThrows(paths[..i], h);
    assert forall j :: 0 <= j < i ==> paths[..i][j] == paths[j];
    ThrowEndsLoad(paths, i, h);
  }

  /** A glob failure leaves the store empty, whatever it held before, and is not a throw. */
  lemma GlobFailureLoadsNothing(h: Host)
    ensures LoadResult(None, h) == Run(map[], false)
  {
  }

  /**
   * Two canonical files of one folder (`a/a.md` and `a/a.mdx`, say) share an
   * id, so the one globbed later replaces the other.
   */
  lemma SameFolderLaterWins(p: string, q: string, h: Host)
    requires IsCanonical(p) && IsCanonical(q) && EntryId(p) == EntryId(q)
    requires StepFor(p, h).Store? && StepFor(q, h).Store?
    ensures LoadResult(Some([p, q]), h) == Run(map[EntryId(q) := StepFor(q, h).entry], false)
  {
    var files := [p, q];
    assert files[1..] == [q];
    assert [q][1..] == [];
    assert CanonicalFiles([q]) == [q];
    assert CanonicalFiles(files) == files;
    LoadedSnoc([], p, h);
    LoadedSnoc([p], q, h);
    assert [] + [p] == [p] && [p] + [q] == files;
  }

  // ---------------------------------------------------------------------------
  // The collection schema
  // ---------------------------------------------------------------------------

  /** Front matter as the schema sees it, each field absent or present. Dates are epoch milliseconds. */
  datatype RawWork = RawWork(
    types: Option<seq<string>>,
    title: Option<string>,
    description: Option<string>,
    createdDate: Option<int>,
    lastUpdatedDate: Option<int>,
    bgImage: Option<string>,
    previewVideo: Option<string>,
    orientation: Option<string>,
    position: Option<string>,
    badgeVariant: Option<string>,
    disableSidebarClickOutside: Option<bool>)

  datatype Work = Work(
    types: seq<string>,
    title: string,
    description: string,
    createdDate: int,
    lastUpdatedDate: int,
    bgImage: string,
    previewVideo: string,
    orientation: string,
    position: string,
    badgeVariant: string,
    disableSidebarClickOutside: bool)

  const ContentTypeIds: set<string> := {"interaction", "experiment", "design"}

  /** An optional enum field: absent, or one of the allowed values. */
  predicate EnumOk(v: Option<string>, allowed: set<string>) {
    v.Some? ==> v.value in allowed
  }

  /** What the schema demands: required fields present, enum fields and listed types allowed. */
  predicate WorkValid(raw: RawWork) {
    raw.title.Some? && raw.description.Some? && raw.createdDate.Some? && raw.lastUpdatedDate.Some?
    && raw.bgImage.Some? && raw.previewVideo.Some?
    && (raw.types.Some? ==> forall i :: 0 <= i < |raw.types.value| ==> raw.types.value[i] in ContentTypeIds)
    && EnumOk(raw.orientation, {"portrait", "landscape"})
    && EnumOk(raw.position, {"top", "bottom"})
    && EnumOk(raw.badgeVariant, {"light", "dark"})
  }

  /** The schema's parse: `None` when it rejects, otherwise the work with every default filled in. */
  function ParseWork(raw: RawWork): (r: Option<Work>)
    ensures r.Some? <==> WorkValid(raw)
  {
    if !WorkValid(raw) then None
    else Some(Work(
      raw.types.GetOr(["interaction"]),
      raw.title.value,
      raw.description.value,
      raw.createdDate.value,
      raw.lastUpdatedDate.value,
      raw.bgImage.value,
      raw.previewVideo.value,
      raw.orientation.GetOr("portrait"),
      raw.position.GetOr("top"),
      raw.badgeVariant.GetOr("light"),
      raw.disableSidebarClickOutside.GetOr(false)))
  }

  /** An absent optional field takes its default, a present one is kept, and the result meets the enums. */
  lemma {:induction false} WorkDefaults(raw: RawWork)
    requires WorkValid(raw)
    ensures ParseWork(raw).Some?
    ensures var w := ParseWork(raw).value;
      (raw.types.None? ==> w.types == ["interaction"])
      && (raw.orientation.None? ==> w.orientation == "portrait")
      && (raw.position.None? ==> w.position == "top")
      && (raw.badgeVariant.None? ==> w.badgeVariant == "light")
      && (raw.disableSidebarClickOutside.None? ==> !w.disableSidebarClickOutside)
      && (raw.disableSidebarClickOutside.Some? ==> w.disableSidebarClickOutside == raw.disableSidebarClickOutside.value)
      && (raw.types.Some? ==> w.types == raw.types.value)
      && (raw.orientation.Some? ==> w.orientation == raw.orientation.value)
      && (raw.position.Some? ==> w.position == raw.position.value)
      && (raw.badgeVariant.Some? ==> w.badgeVariant == raw.badgeVariant.value)
      && w.title == raw.title.value && w.description == raw.description.value
      && w.createdDate == raw.createdDate.value && w.lastUpdatedDate == raw.lastUpdatedDate.value
      && w.bgImage == raw.bgImage.value && w.previewVideo == raw.previewVideo.value
      && (forall i :: 0 <= i < |w.types| ==> w.types[i] in ContentTypeIds)
      && w.orientation in {"portrait", "landscape"}
      && w.position in {"top", "bottom"}
      && w.badgeVariant in {"light", "dark"}
  {
    var w := ParseWork(raw).value;
    if raw.types.None? {
      assert w.types == ["interaction"];
    }
  }
}
