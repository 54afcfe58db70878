// `list-files`: enumerate the entries under a directory, filter them, sort
// them, and render them under a token budget.
//
// The filesystem is abstract: the entries below the root, each keyed by its
// path relative to the root, with its kind. A glob pattern made of k + 1
// `*` segments selects exactly the entries with k + 1 segments, which is
// what `Path.glob` does on a tree; `**/*` selects every entry.
module ListFiles {
  import opened Wrappers
  import opened Text
  import opened Numerals
  import opened Ordering
  import Budget

  datatype Kind = File | Dir

  /**
   * The directory the tool is pointed at: whether it exists and is a
   * directory, the parts of its own path (those of `Path(root_dir).parts`,
   * which the ignore rule inspects), its text (`str(Path(root_dir))`, which
   * rendering starts from), and the entries below it.
   */
  datatype FileSystem = FileSystem(
    rootExists: bool,
    rootIsDir: bool,
    rootParts: seq<string>,
    rootText: string,
    entries: map<Path, Kind>)

  /** The arguments of `get_file_list`; an absent option is Python's `None`. */
  datatype ListQuery = ListQuery(
    directory: string,
    recursive: bool,
    maxDepth: Option<int>,
    filesOnly: bool,
    dirsOnly: bool,
    nameFilter: Option<string>,
    extFilter: Option<string>)

  /**
   * The errors `main` reports: the two `ValueError`s of `get_file_list`, the
   * `NotADirectoryError` of `iterdir` on a root that is not a directory, and
   * the `TypeError` of `format_output` joining paths to a falsy `root_dir`.
   */
  datatype ListError =
    | DirectoryMissing(directory: string)
    | ConflictingKindFlags
    | NotADirectory(directory: string)
    | RootNotJoinable

  function ErrorMessage(e: ListError): string
  {
    match e
    case DirectoryMissing(d) => "Directory does not exist: " + d
    case ConflictingKindFlags => "Cannot specify both --files-only and --dirs-only"
    case NotADirectory(d) => "[Errno 20] Not a directory: '" + d + "'"
    case RootNotJoinable => "unsupported operand type(s) for /: 'NoneType' and 'str'"
  }

  /** `path.name`: the last segment. */
  function Name(p: Path): string
    requires |p| >= 1
  {
    p[|p| - 1]
  }

  /**
   * `PurePath.suffix`: from the last dot on, provided that dot is neither the
   * first nor the last character of the name; otherwise empty.
   */
  function Suffix(name: string): (r: string)
    ensures r == "" || (2 <= |r| < |name| && r[0] == '.' && '.' !in r[1..] && EndsWith(name, r))
    ensures r == "" <==> (forall i :: 0 < i < |name| - 1 ==> name[i] != '.' || '.' in name[i + 1..])
  {
    match LastIndexOf(name, '.')
    case None => ""
    case Some(i) =>
      if 0 < i < |name| - 1 then
        assert name[i..][1..] == name[i + 1..];
        name[i..]
      else ""
  }

  /** A path part the recursive branches skip; `.llm` only when `dropLlm`. */
  predicate IgnoredPart(part: string, dropLlm: bool)
  {
    part == ".git" || StartsWith(part, ".aider") || (dropLlm && part == ".llm")
  }

  predicate HasIgnoredPart(parts: seq<string>, dropLlm: bool)
  {
    exists i :: 0 <= i < |parts| && IgnoredPart(parts[i], dropLlm)
  }

  /** The names the non-recursive branch skips. */
  predicate IgnoredName(name: string)
  {
    name == ".git" || StartsWith(name, ".aider") || name == ".llm"
  }

  /**
   * `--files-only` drops non-files, `--dirs-only` drops non-directories;
   * with both flags nothing would pass.
   */
  function KindPasses(q: ListQuery, k: Kind): (b: bool)
    ensures b <==> (q.filesOnly ==> k == File) && (q.dirsOnly ==> k == Dir)
    ensures q.filesOnly && q.dirsOnly ==> !b
  {
    !(q.dirsOnly && k != Dir) && !(q.filesOnly && k != File)
  }

  /**
   * The name filter: the lower-cased name starts with the lower-cased filter,
   * or contains the filter as given (not lower-cased). An absent or empty
   * filter passes everything; a prefix match always passes; and whatever
   * passes contains the lower-cased filter somewhere.
   */
  function NamePasses(filter: Option<string>, name: string): (b: bool)
    ensures !Truthy(filter) ==> b
    ensures Truthy(filter) && StartsWith(Lower(name), Lower(filter.value)) ==> b
    ensures b && Truthy(filter) ==> Contains(Lower(name), Lower(filter.value))
  {
    var b := !Truthy(filter)
      || StartsWith(Lower(name), Lower(filter.value))
      || Contains(Lower(name), filter.value);
    if b && Truthy(filter) then
      if StartsWith(Lower(name), Lower(filter.value)) then
        assert Lower(filter.value) <= Lower(name)[0..];
        b
      else
        LowerKeepsContains(Lower(name), filter.value);
        LowerIdempotent(name);
        b
    else b
  }

  /**
   * The extension filter, applied to files only: directories and an absent
   * or empty filter pass, and a file without a suffix never passes a filter.
   */
  function ExtPasses(filter: Option<string>, name: string, k: Kind): (b: bool)
    ensures k == Dir || !Truthy(filter) ==> b
    ensures b && k == File && Truthy(filter) ==> |Suffix(name)| >= 2
  {
    !(Truthy(filter) && k == File)
    || EndsWith(Lower(Suffix(name)), "." + Lower(filter.value))
  }

  /**
   * Whether a recursive branch keeps the entry at relative path `p`: an
   * entry of the tree none of whose root-joined parts is `.git` or starts
   * with `.aider` (nor is `.llm` when `dropLlm`), and which passes the kind,
   * name and extension filters.
   */
  function RecursiveKeeps(fs: FileSystem, q: ListQuery, p: Path, dropLlm: bool): (b: bool)
    ensures b ==> p in fs.entries && |p| >= 1 && KindPasses(q, fs.entries[p])
    ensures b ==> forall i :: 0 <= i < |fs.rootParts + p| ==>
                    (fs.rootParts + p)[i] != ".git" && !StartsWith((fs.rootParts + p)[i], ".aider")
    ensures b && dropLlm ==> ".llm" !in fs.rootParts + p
    ensures b && Truthy(q.nameFilter) ==> Contains(Lower(Name(p)), Lower(q.nameFilter.value))
  {
    && p in fs.entries
    && |p| >= 1
    && !HasIgnoredPart(fs.rootParts + p, dropLlm)
    && KindPasses(q, fs.entries[p])
    && NamePasses(q.nameFilter, Name(p))
    && ExtPasses(q.extFilter, Name(p), fs.entries[p])
  }

  // The glob `'*/' * k + '*'`.
  function Pattern(k: nat): string
  {
    Repeat("*/", k) + "*"
  }

  /** The deepest level the bounded branch reaches for `max_depth = n`, counted in segments. */
  function DepthLimit(n: int): nat
  {
    if n < 0 then 1 else n + 1
  }

  // The pattern list built for `max_depth`: `*`, `*/*`, ..., one pattern per level down to DepthLimit.
  function GlobPatterns(maxDepth: int): (r: seq<string>)
    ensures |r| == DepthLimit(maxDepth)
    ensures forall j :: 0 <= j < |r| ==> r[j] == Pattern(j)
  {
    assert Pattern(0) == "*";
    ["*"] + seq(if maxDepth < 1 then 0 else maxDepth, i requires 0 <= i => Pattern(i + 1))
  }

  /** The number of path segments a `*`-only pattern matches. */
  function PatternDepth(pattern: string): nat
  {
    |Split(pattern, '/')|
  }

  /** The entries one bounded pattern contributes. */
  function BoundedPass(fs: FileSystem, q: ListQuery, pattern: string): set<Path>
  {
    set p | p in fs.entries && |p| == PatternDepth(pattern) && RecursiveKeeps(fs, q, p, true)
  }

  /**
   * The bounded branch: the loop over patterns, adding into one set. Nothing
   * collected is lost, and everything added is an entry the branch keeps.
   */
  function CollectBounded(fs: FileSystem, q: ListQuery, patterns: seq<string>, acc: set<Path>): (r: set<Path>)
    ensures acc <= r
    ensures forall p :: p in r && p !in acc ==> RecursiveKeeps(fs, q, p, true)
    decreases |patterns|
  {
    if patterns == [] then acc
    else CollectBounded(fs, q, patterns[1..], acc + BoundedPass(fs, q, patterns[0]))
  }

  // The unbounded branch: `**/*`, which does not skip `.llm`.
  function UnboundedSet(fs: FileSystem, q: ListQuery): set<Path>
  {
    set p | p in fs.entries && RecursiveKeeps(fs, q, p, false)
  }

  /** The non-recursive branch: direct children, with the name-based skip and the kind filter only. */
  function FlatSet(fs: FileSystem, q: ListQuery): set<Path>
  {
    set p | p in fs.entries && |p| == 1 && !IgnoredName(p[0]) && KindPasses(q, fs.entries[p])
  }

  /** The entries of the branch the query selects; globbing below a root that is not a directory finds nothing. */
  function Selected(fs: FileSystem, q: ListQuery): set<Path>
  {
    if !q.recursive then FlatSet(fs, q)
    else if !fs.rootIsDir then {}
    else if q.maxDepth.None? then UnboundedSet(fs, q)
    else CollectBounded(fs, q, GlobPatterns(q.maxDepth.value), {})
  }

  /**
   * `get_file_list`: the existence check, then the flag conflict, then the
   * branch; `iterdir` fails on a root that is not a directory, while the
   * recursive globs find nothing below it.
   */
  function GetFileList(fs: FileSystem, q: ListQuery): (r: Result<seq<Path>, ListError>)
    ensures !fs.rootExists ==> r == Err(DirectoryMissing(q.directory))
    ensures fs.rootExists && q.filesOnly && q.dirsOnly ==> r == Err(ConflictingKindFlags)
    ensures fs.rootExists && !(q.filesOnly && q.dirsOnly) && !q.recursive && !fs.rootIsDir ==>
              r == Err(NotADirectory(fs.rootText))
    ensures r.Ok? <==> fs.rootExists && !(q.filesOnly && q.dirsOnly) && (q.recursive || fs.rootIsDir)
    ensures r.Ok? ==> StrictlySorted(r.value) && forall p :: p in r.value ==> p in fs.entries
    ensures r.Ok? && !fs.rootIsDir ==> r.value == []
  {
    if !fs.rootExists then Err(DirectoryMissing(q.directory))
    else if q.dirsOnly && q.filesOnly then Err(ConflictingKindFlags)
    else if !q.recursive && !fs.rootIsDir then Err(NotADirectory(fs.rootText))
    else
      SelectedWithinEntries(fs, q);
      Ok(SortPaths(Selected(fs, q)))
  }

  lemma {:induction false} CollectBoundedWithinEntries(fs: FileSystem, q: ListQuery, patterns: seq<string>, acc: set<Path>)
    requires acc <= fs.entries.Keys
    ensures CollectBounded(fs, q, patterns, acc) <= fs.entries.Keys
    decreases |patterns|
  {
    if patterns != [] {
      CollectBoundedWithinEntries(fs, q, patterns[1..], acc + BoundedPass(fs, q, patterns[0]));
    }
  }

  lemma SelectedWithinEntries(fs: FileSystem, q: ListQuery)
    ensures Selected(fs, q) <= fs.entries.Keys
  {
    if q.recursive && q.maxDepth.Some? {
      CollectBoundedWithinEntries(fs, q, GlobPatterns(q.maxDepth.value), {});
    }
  }

  /**
   * What `str(root / path)` puts before the relative path: nothing for the
   * root ".", the root itself when it already ends with the separator (an
   * anchor such as "/"), and otherwise the root and one separator.
   */
  function RootPrefix(rootText: string): (r: string)
    ensures r == "" || r[|r| - 1] == '/'
    ensures rootText != "." ==> StartsWith(r, rootText)
  {
    if rootText == "." then ""
    else if rootText != "" && rootText[|rootText| - 1] == '/' then rootText
    else rootText + "/"
  }

  /**
   * `str(root / path)`, with "/" appended when the entry is a directory:
   * the line starts with the root's prefix, and a directory's line ends
   * with "/".
   */
  function RenderPath(fs: FileSystem, p: Path): (r: string)
    ensures StartsWith(r, RootPrefix(fs.rootText))
    ensures p in fs.entries && fs.entries[p] == Dir ==> EndsWith(r, "/")
  {
    RootPrefix(fs.rootText) + Join(p, "/") + (if p in fs.entries && fs.entries[p] == Dir then "/" else "")
  }

  function RenderLines(fs: FileSystem, paths: seq<Path>): (r: seq<string>)
    ensures |r| == |paths|
    ensures forall i :: 0 <= i < |paths| ==> r[i] == RenderPath(fs, paths[i])
  {
    seq(|paths|, i requires 0 <= i < |paths| => RenderPath(fs, paths[i]))
  }

  /** A path as `pathlib` yields it: at least one segment, none empty, none holding the separator. */
  predicate WellFormedPath(p: Path)
  {
    |p| >= 1 && forall i :: 0 <= i < |p| ==> p[i] != "" && '/' !in p[i]
  }

  /**
   * Reading a rendered line back: drop the root's prefix, note and drop a
   * final "/" (a directory), and split the rest at the separator.
   */
  function ParseLine(rootText: string, line: string): Option<(Path, bool)>
  {
    var pre := RootPrefix(rootText);
    if !StartsWith(line, pre) then None
    else
      var rest := line[|pre|..];
      if rest != [] && rest[|rest| - 1] == '/' then Some((Split(rest[..|rest| - 1], '/'), true))
      else Some((Split(rest, '/'), false))
  }

  /** A string extended by `x` starts with itself, and what follows it is `x`. */
  lemma DropPrefix(pre: string, x: string)
    ensures StartsWith(pre + x, pre) && (pre + x)[|pre|..] == x
  {
    assert (pre + x)[..|pre|] == pre;
  }

  /** A body not ending in the separator ends in it exactly when the directory mark is added, and dropping that mark gives back the body. */
  lemma DirMark(body: string, isDir: bool)
    requires body != [] && body[|body| - 1] != '/'
    ensures var rest := body + (if isDir then "/" else "");
            && (rest != [] && rest[|rest| - 1] == '/' <==> isDir)
            && (isDir ==> rest[..|rest| - 1] == body)
            && (!isDir ==> rest == body)
  {
    var rest := body + (if isDir then "/" else "");
    if isDir {
      assert rest[..|rest| - 1] == body;
    } else {
      assert rest == body;
    }
  }

  /** A line made of the root's prefix, a body not ending in the separator, and an optional "/" reads back. */
  lemma ParseLineOf(rootText: string, body: string, isDir: bool)
    requires body != [] && body[|body| - 1] != '/'
    ensures ParseLine(rootText, RootPrefix(rootText) + body + (if isDir then "/" else ""))
              == Some((Split(body, '/'), isDir))
  {
    var pre := RootPrefix(rootText);
    var rest := body + (if isDir then "/" else "");
    assert pre + body + (if isDir then "/" else "") == pre + rest;
    DropPrefix(pre, rest);
    DirMark(body, isDir);
  }

  /** A rendered line reads back as its path and whether the entry is a directory. */
  lemma RenderPathRoundTrip(fs: FileSystem, p: Path)
    requires WellFormedPath(p)
    ensures ParseLine(fs.rootText, RenderPath(fs, p)) == Some((p, p in fs.entries && fs.entries[p] == Dir))
  {
    var body := Join(p, "/");
    var last := p[|p| - 1];
    JoinEndsWithLast(p, "/");
    assert body[|body| - 1] == last[|last| - 1] by {
      assert body[|body| - |last|..] == last;
    }
    assert last[|last| - 1] in last;
    SplitJoin(p, '/');
    ParseLineOf(fs.rootText, body, p in fs.entries && fs.entries[p] == Dir);
  }

  /** Every line `format_output` renders reads back as its path and kind. */
  lemma RenderLinesRoundTrip(fs: FileSystem, paths: seq<Path>)
    requires forall i :: 0 <= i < |paths| ==> WellFormedPath(paths[i])
    ensures forall i :: 0 <= i < |paths| ==>
              ParseLine(fs.rootText, RenderLines(fs, paths)[i])
                == Some((paths[i], paths[i] in fs.entries && fs.entries[paths[i]] == Dir))
  {
    forall i | 0 <= i < |paths|
      ensures ParseLine(fs.rootText, RenderLines(fs, paths)[i])
                == Some((paths[i], paths[i] in fs.entries && fs.entries[paths[i]] == Dir))
    {
      RenderPathRoundTrip(fs, paths[i]);
    }
  }

  /** An anchored root is not followed by a second separator: under "/" the file `ab` renders as "/ab". */
  lemma AnchoredRootRendersOnce(entries: map<Path, Kind>)
    requires ["ab"] in entries && entries[["ab"]] == File
    ensures RenderPath(FileSystem(true, true, ["/"], "/", entries), ["ab"]) == "/ab"
    ensures Budget.LineCost("/ab") == 1
  {
  }

  /** The word in the truncation marker. */
  function MarkerWord(filesOnly: bool, dirsOnly: bool): (w: string)
    ensures w == "files/dirs" <==> !filesOnly && !dirsOnly
    ensures w == "files" <==> filesOnly
    ensures w == "dirs" <==> !filesOnly && dirsOnly
  {
    if !(filesOnly || dirsOnly) then "files/dirs" else if filesOnly then "files" else "dirs"
  }

  /**
   * `format_output`: with a falsy `root_dir` there is no root to join the
   * paths to, and the first path fails; otherwise the rendered paths within
   * budget, then the marker. It is truncated exactly when the whole listing
   * does not fit; otherwise the full listing is shown verbatim.
   */
  function FormatOutput(fs: FileSystem, rootDir: string, paths: seq<Path>, maxTokens: int, filesOnly: bool, dirsOnly: bool)
    : (r: Result<(string, bool), ListError>)
    ensures r.Err? <==> rootDir == "" && paths != []
    ensures r.Err? ==> r.error == RootNotJoinable
    ensures r.Ok? ==> Budget.Shows(RenderLines(fs, paths), maxTokens, MarkerWord(filesOnly, dirsOnly), r.value.0, r.value.1)
  {
    if rootDir == "" && paths != [] then Err(RootNotJoinable)
    else
      var lines := RenderLines(fs, paths);
      Budget.RenderShows(lines, maxTokens, MarkerWord(filesOnly, dirsOnly));
      var c := Budget.Walk(lines, maxTokens);
      Ok((Budget.Render(c, MarkerWord(filesOnly, dirsOnly), maxTokens), c.truncated))
  }

  /** `main` after argument parsing, without the log file and printing. */
  function Main(fs: FileSystem, q: ListQuery, maxTokens: int): (e: Budget.Exit)
    ensures e.code in {0, 1, 2}
    ensures e.code == 2 <==> GetFileList(fs, q).Err? || (q.directory == "" && GetFileList(fs, q).value != [])
    ensures e.code == 1 <==>
              && GetFileList(fs, q).Ok?
              && q.directory != ""
              && var lines := RenderLines(fs, GetFileList(fs, q).value);
                 |lines| > 0 && Budget.TotalCost(lines) > maxTokens
    ensures e.code == 2 ==> StartsWith(e.text, "Error: ")
  {
    match GetFileList(fs, q)
    case Err(err) => Budget.Exit(2, "Error: " + ErrorMessage(err))
    case Ok(paths) =>
      match FormatOutput(fs, q.directory, paths, maxTokens, q.filesOnly, q.dirsOnly)
      case Err(err) => Budget.Exit(2, "Error: " + ErrorMessage(err))
      case Ok((output, truncated)) => Budget.Exit(if truncated then 1 else 0, output)
  }

  /** A failed listing is reported as it is: exit 2 with the error's message. */
  lemma MainReportsListingError(fs: FileSystem, q: ListQuery, maxTokens: int)
    requires GetFileList(fs, q).Err?
    ensures Main(fs, q, maxTokens) == Budget.Exit(2, "Error: " + ErrorMessage(GetFileList(fs, q).error))
  {
  }
}
