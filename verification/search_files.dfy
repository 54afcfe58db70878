// `search-files`: translate the search options into a ripgrep argument
// vector, run the engine, map its exit code, and render its output under a
// token budget. The engine is a parameter `exec` from the argument vector to
// its exit code, standard output and standard error.
module SearchFiles {
  import opened Wrappers
  import opened Text
  import opened Numerals
  import Budget

  /** The arguments of `run_ripgrep_search`; an absent option is Python's `None`. */
  datatype SearchQuery = SearchQuery(
    searchTerm: string,
    directory: string,
    filesOnly: bool,
    maxResults: Option<int>,
    ext: Option<string>,
    fixedStrings: bool,
    filesMode: bool,
    globs: Option<seq<string>>)

  /** What the child process reports. */
  datatype ExecResult = ExecResult(code: int, stdout: string, stderr: string)

  /** The `ValueError` for a missing directory and the `RuntimeError` for a failed engine. */
  datatype SearchError = DirectoryMissing(directory: string) | EngineFailure(stderr: string)

  function ErrorMessage(e: SearchError): string
  {
    match e
    case DirectoryMissing(d) => "Directory does not exist: " + d
    case EngineFailure(err) => "ripgrep search failed: " + err
  }

  /** The engine, plain output options, and the three reserved directories excluded. */
  const FixedPrefix: seq<string> :=
    ["rg.exe", "--color=never", "--no-heading", "--with-filename", "--line-number",
     "--glob", "!**/.llm/**", "--glob", "!**/.git/**", "--glob", "!**/.aider*/**"]

  /** One `--glob g` pair per pattern, in order. */
  function GlobArgs(gs: seq<string>): (r: seq<string>)
    ensures |r| == 2 * |gs|
  {
    if gs == [] then [] else ["--glob", gs[0]] + GlobArgs(gs[1..])
  }

  /** Pair `j` of `GlobArgs(gs)` is `--glob` followed by `gs[j]`. */
  lemma {:induction false} GlobArgsPairs(gs: seq<string>)
    ensures forall j :: 0 <= j < |gs| ==> GlobArgs(gs)[2 * j] == "--glob" && GlobArgs(gs)[2 * j + 1] == gs[j]
  {
    if gs != [] {
      var r := GlobArgs(gs);
      var rest := GlobArgs(gs[1..]);
      GlobArgsPairs(gs[1..]);
      assert r == ["--glob", gs[0]] + rest;
      forall j | 0 <= j < |gs| ensures r[2 * j] == "--glob" && r[2 * j + 1] == gs[j] {
        if j > 0 {
          assert r[2 * j] == rest[2 * (j - 1)];
          assert r[2 * j + 1] == rest[2 * (j - 1) + 1];
          assert gs[j] == gs[1..][j - 1];
        }
      }
    }
  }

  /** The user globs; `None` and the empty list add nothing. */
  function UserGlobs(q: SearchQuery): seq<string>
  {
    if q.globs.Some? then q.globs.value else []
  }

  /** `*.<e.strip()>` for every comma-separated piece of a non-empty `ext`. */
  function ExtGlobs(ext: Option<string>): seq<string>
  {
    if Truthy(ext) then
      var pieces := Split(ext.value, ',');
      seq(|pieces|, j requires 0 <= j < |pieces| => "*." + Strip(pieces[j]))
    else []
  }

  /** The content-mode options and the search term; nothing in files mode. */
  function ContentArgs(q: SearchQuery): seq<string>
  {
    if q.filesMode then []
    else
      (if q.filesOnly then ["--files-with-matches"] else [])
      + (if q.fixedStrings then ["--fixed-strings"] else [])
      + [q.searchTerm]
  }

  /** `--max-count n` when `max_results` is truthy (present and non-zero). */
  function MaxCountArgs(maxResults: Option<int>): seq<string>
  {
    if maxResults.Some? && maxResults.value != 0 then ["--max-count", IntToString(maxResults.value)] else []
  }

  /** `--files` in files mode. */
  function ModeArgs(q: SearchQuery): seq<string>
  {
    if q.filesMode then ["--files"] else []
  }

  /**
   * The argument vector `run_ripgrep_search` hands to the engine once the
   * directory is known to exist, in the order the source appends its parts.
   */
  function BuildArgs(q: SearchQuery): (r: seq<string>)
    ensures FixedPrefix <= r
    ensures |r| > |FixedPrefix| && r[|r| - 1] == q.directory
  {
    FixedPrefix
    + ModeArgs(q)
    + GlobArgs(UserGlobs(q))
    + ContentArgs(q)
    + GlobArgs(ExtGlobs(q.ext))
    + MaxCountArgs(q.maxResults)
    + [q.directory]
  }

  /**
   * `run_ripgrep_search`: a missing directory fails before the engine runs;
   * exit code 0 yields the engine's output, exit code 1 (no match) the empty
   * text, and any other code fails with the engine's diagnostics.
   */
  function RunRipgrepSearch(q: SearchQuery, dirExists: bool, exec: seq<string> -> ExecResult)
    : (r: Result<string, SearchError>)
    ensures !dirExists ==> r == Err(DirectoryMissing(q.directory))
    ensures dirExists && exec(BuildArgs(q)).code == 0 ==> r == Ok(exec(BuildArgs(q)).stdout)
    ensures dirExists && exec(BuildArgs(q)).code == 1 ==> r == Ok("")
    ensures dirExists ==> (r.Err? <==> exec(BuildArgs(q)).code !in {0, 1})
    ensures dirExists && r.Err? ==> r.error == EngineFailure(exec(BuildArgs(q)).stderr)
  {
    if !dirExists then Err(DirectoryMissing(q.directory))
    else
      var result := exec(BuildArgs(q));
      if result.code == 0 then Ok(result.stdout)
      else if result.code == 1 then Ok("")
      else Err(EngineFailure(result.stderr))
  }

  /** The word in the truncation marker. */
  function MarkerWord(filesOnly: bool): (w: string)
    ensures w == "files" <==> filesOnly
    ensures w == "matches" <==> !filesOnly
  {
    if !filesOnly then "matches" else "files"
  }

  /**
   * `format_output`: nothing for `None`; otherwise the output's lines within
   * budget, then the marker. It is truncated exactly when the lines do not
   * all fit, and otherwise shows every line.
   */
  function FormatOutput(output: Option<string>, maxTokens: int, filesOnly: bool): (r: (string, bool))
    ensures output.None? ==> r == ("", false)
    ensures output.Some? ==> Budget.Shows(SplitLines(output.value), maxTokens, MarkerWord(filesOnly), r.0, r.1)
  {
    if output.None? then ("", false)
    else
      var lines := SplitLines(output.value);
      Budget.RenderShows(lines, maxTokens, MarkerWord(filesOnly));
      var c := Budget.Walk(lines, maxTokens);
      (Budget.Render(c, MarkerWord(filesOnly), maxTokens), c.truncated)
  }

  /** The search term `main` passes on: the given one, or "." when it is missing or empty. */
  function DefaultTerm(arg: Option<string>): (t: string)
    ensures t != ""
    ensures Truthy(arg) ==> t == arg.value
    ensures !Truthy(arg) ==> t == "."
  {
    if Truthy(arg) then arg.value else "."
  }

  /** The parsed command line of `search-files`. */
  datatype SearchArgs = SearchArgs(
    searchTerm: Option<string>,
    directory: string,
    filesOnly: bool,
    maxTokens: int,
    maxResults: Option<int>,
    ext: Option<string>,
    fixedStrings: bool,
    files: bool,
    glob: Option<seq<string>>)

  function ToQuery(a: SearchArgs): SearchQuery
  {
    SearchQuery(DefaultTerm(a.searchTerm), a.directory, a.filesOnly, a.maxResults, a.ext,
                a.fixedStrings, a.files, a.glob)
  }

  /** `main` after argument parsing, without the log file and printing. */
  function Main(a: SearchArgs, dirExists: bool, exec: seq<string> -> ExecResult): (e: Budget.Exit)
    ensures e.code in {0, 1, 2}
    ensures e.code == 2 <==> !dirExists || exec(BuildArgs(ToQuery(a))).code !in {0, 1}
    ensures e.code == 1 <==>
              && dirExists
              && exec(BuildArgs(ToQuery(a))).code == 0
              && var lines := SplitLines(exec(BuildArgs(ToQuery(a))).stdout);
                 |lines| > 0 && Budget.TotalCost(lines) > a.maxTokens
    ensures e.code == 2 ==> StartsWith(e.text, "Error: ")
  {
    match RunRipgrepSearch(ToQuery(a), dirExists, exec)
    case Err(err) => Budget.Exit(2, "Error: " + ErrorMessage(err))
    case Ok(output) =>
      var (formatted, truncated) := FormatOutput(Some(output), a.maxTokens, a.filesOnly);
      Budget.Exit(if truncated then 1 else 0, formatted)
  }
}
