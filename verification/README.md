# Exploration tools: directory listing and ripgrep search

This project models the two command-line exploration tools in `system_tools/`.

- **list-files** walks a directory. The walk is recursive with an optional depth bound, or flat. It filters the entries by an ignore rule, by kind, by name and by extension. It sorts them and prints them under a token budget.
- **search-files** turns its options into a ripgrep argument vector and runs the engine. It maps the engine's exit code and prints the engine's output under the same kind of token budget.

The tools become pure logic once the outside world is made abstract:

- The filesystem is a `FileSystem`. It records whether the root exists and whether it is a directory. It records the parts of the root's own path, which the ignore rule inspects, and the root's text, which rendered lines start from. It holds a finite map from relative paths (sequences of segments) to `File` or `Dir`.
- A glob pattern of k + 1 `*` segments selects the entries exactly k + 1 segments deep, and `**/*` selects every entry.
- The ripgrep process is a function parameter `exec` from the argument vector to an exit code, standard output and standard error. Whether the search directory exists is a parameter too.
- Each `main` is modelled after argument parsing. It yields the exit code and the text shown.

Files:

- `wrappers.dfy` defines `Option` and `Result`.
- `text.dfy` holds the Python string operations the tools use: `split`, `join`, `strip`, `lower`, `splitlines`, `startswith`, `endswith` and `in`.
- `numerals.dfy` holds `str(int)`.
- `ordering.dfy` holds the order of `sorted` on paths and sorting a set of paths.
- `budget.dfy` holds the token-budgeted walk both `format_output` functions share, and the truncation marker.
- `list_files.dfy` and `list_files_props.dfy` hold `get_file_list`, its `format_output`, its `main`, and their properties.
- `search_files.dfy` and `search_files_props.dfy` hold `run_ripgrep_search`, its `format_output`, its `main`, and the layout of the argument vector.

The two `format_output` functions differ only in what they render and in the marker word, so they share one walk (`Budget.Walk`) and one promise (`Budget.Shows`). A line costs `ceil((len + 1) / 4)` tokens. Lines are taken in order until the first one that would push the sum over the budget. That line and all later ones are withheld and counted in the marker.

Under a budget of 10 tokens, three 20-character lines cost 6 tokens each. So only the first line is shown, and the marker reports 2 more (`Budget.ThreeTwentyCharLinesUnderTen`).

## Model

| member | source | states |
|---|---|---|
| ListFiles.GetFileList | system_tools/list-files.py:24-96 | a missing root fails with "Directory does not exist", even when both kind flags are set; an existing root with `--files-only` and `--dirs-only` together fails with the conflict error; a flat listing of a root that is not a directory fails as `iterdir` does, naming the root as pathlib renders it; otherwise the listing succeeds, is strictly sorted, holds only entries of the tree, and is empty below a root that is not a directory |
| ListingProperties.BoundedListing | system_tools/list-files.py:36-64 | with `max_depth = n`, an entry is listed exactly when the root is a directory, the entry lies 1 .. n + 1 segments deep (only direct children for n < 0) and it passes the ignore rule and the kind, name and extension filters; no level in between is skipped |
| ListingProperties.GlobPatternsDepths | system_tools/list-files.py:37-39 | the pattern list for `max_depth = n` holds one pattern per level, and the j-th pattern selects exactly the paths j + 1 segments deep |
| ListingProperties.CollectBoundedMembers | system_tools/list-files.py:41-64 | the loop over patterns collects exactly the kept entries whose depth one of the patterns selects, on top of what it already held |
| ListingProperties.UnboundedListing | system_tools/list-files.py:66-84 | without a depth bound, an entry at any depth is listed exactly when the root is a directory and the entry passes the `.git`/`.aider*` rule (`.llm` is not dropped) and the kind, name and extension filters |
| ListingProperties.UnboundedKeepsLlm | system_tools/list-files.py:66-69 | the unbounded branch lists an entry inside `.llm` that the other filters keep, where the bounded branch's rule would drop it |
| ListingProperties.FlatListing | system_tools/list-files.py:85-94 | without recursion, the listing holds exactly the direct children not named `.git`, `.llm` or `.aider*` that pass the kind filter |
| ListingProperties.RecursiveSkipsGitAndAider | system_tools/list-files.py:46-49 | in both recursive branches, no part of a listed path joined to the root is `.git` or starts with `.aider`, and in the bounded branch none is `.llm` |
| ListingProperties.FlatSkipsReservedNames | system_tools/list-files.py:86-89 | a flat listing holds only direct children, none named `.git` or `.llm` or starting with `.aider` |
| ListingProperties.KindFlagsRespected | system_tools/list-files.py:50-53 | in all three branches, `--files-only` lists only files and `--dirs-only` lists only directories |
| ListingProperties.RecursiveNameFilter | system_tools/list-files.py:55-57 | in the recursive branches, a listed entry (a directory too) has a lower-cased name that starts with the lower-cased filter or contains the filter as given |
| ListingProperties.UpperCaseFilterMatchesOnlyByPrefix | system_tools/list-files.py:56 | because the substring test uses the un-lowered filter, a filter holding an upper-case letter passes a name exactly when the lower-cased name starts with the lower-cased filter |
| ListingProperties.RecursiveExtFilter | system_tools/list-files.py:59-62 | in the recursive branches, a listed file has a lower-cased suffix ending with "." and the lower-cased filter |
| ListingProperties.ExtFilterSparesDirectories | system_tools/list-files.py:59-62 | in both recursive branches, a directory that the other filters keep (within the depth bound, if any) is listed whatever the extension filter says |
| ListingProperties.ExtFilterIsExactWithoutDot | system_tools/list-files.py:60-62 | for a filter without a dot, a file passes exactly when its lower-cased suffix equals "." and the lower-cased filter |
| ListingProperties.FlatIgnoresNameAndExt | system_tools/list-files.py:86-94 | the flat listing does not depend on the name and extension filters at all |
| ListingProperties.ListingSortedWithoutDuplicates | system_tools/list-files.py:41-96 | in every branch the listing is in increasing path order and lists no path twice, even though the depth patterns are collected into one set |
| ListingProperties.DepthOneTree | system_tools/list-files.py:31-96 | in a tree holding `a/b/c.txt`, `a/d.txt` and `.git/config`, a recursive listing with `max_depth = 1` is exactly `a`, `a/b`, `a/d.txt`: `.git` is skipped and `a/b/c.txt` lies too deep |
| ListingProperties.SampleTreeKept | system_tools/list-files.py:43-64 | the entries of that sample tree that the bounded branch keeps within two segments are exactly `a`, `a/b` and `a/d.txt` |
| ListFiles.KindPasses | system_tools/list-files.py:50-53 | an entry passes the kind filter exactly when `--files-only` implies it is a file and `--dirs-only` implies it is a directory; with both flags nothing passes |
| ListFiles.NamePasses | system_tools/list-files.py:55-57 | an absent or empty filter passes every name; a name whose lower-cased form starts with the lower-cased filter passes; any name that passes contains the lower-cased filter |
| ListingProperties.LowerFilterMatchesBySubstring | system_tools/list-files.py:56 | a filter without upper-case letters passes a name exactly when the lower-cased name contains it |
| ListFiles.ExtPasses | system_tools/list-files.py:59-62 | directories and an absent or empty filter always pass; a file that passes a filter has a suffix of at least two characters |
| ListFiles.RecursiveKeeps | system_tools/list-files.py:45-64 | a kept path is an entry of the tree that passes the kind filter, none of its root-joined parts is `.git` or starts with `.aider`, none is `.llm` when `.llm` is dropped, and its lower-cased name contains the lower-cased name filter |
| ListingProperties.LlmIsTheOnlyDifference | system_tools/list-files.py:46-48 | the bounded branch keeps a path exactly when the unbounded branch keeps it and no root-joined part is `.llm` |
| ListFiles.GlobPatterns | system_tools/list-files.py:37-39 | the pattern list for `max_depth = n` has one pattern per level down to n + 1 (1 for n < 1), and the j-th is `'*/' * j + '*'` |
| ListFiles.CollectBounded | system_tools/list-files.py:41-64 | the loop over patterns loses nothing already collected, and everything it adds is an entry the bounded branch keeps |
| ListingProperties.PatternDepthOf | system_tools/list-files.py:39 | the pattern `'*/' * k + '*'` consists of k + 1 segments |
| ListFiles.Suffix | system_tools/list-files.py:60-61 | the suffix is empty, or it starts with the name's last dot, that dot is neither the first nor the last character, and no other dot follows; it is empty exactly when the name has no such dot |
| Ordering.SortPaths | system_tools/list-files.py:96 | sorting a set gives a strictly increasing sequence with exactly the set's members |
| Ordering.StrictlySortedDetermined | system_tools/list-files.py:96 | two strictly increasing sequences with the same members are equal, so the sorted listing is determined by its members |
| Ordering.PathLessIsStrictTotalOrder | system_tools/list-files.py:96 | the path order (segment by segment, each segment character by character, a proper prefix first) is irreflexive, transitive and total |
| Ordering.StrLessIsStrictTotalOrder | system_tools/list-files.py:96 | string comparison by character code is irreflexive, transitive and total |
| Ordering.StrictlySortedHasNoDuplicates | system_tools/list-files.py:96 | a strictly increasing sequence lists no element twice |
| ListFiles.RenderPath | system_tools/list-files.py:113-118 | a rendered line starts with the root's prefix (nothing for ".", the root alone when it ends with the separator, else the root and one separator), and a directory's line ends with "/" |
| ListFiles.RenderPathRoundTrip | system_tools/list-files.py:113-118 | for a path of non-empty, separator-free segments, the rendered line reads back as that path and whether the entry is a directory |
| ListFiles.RenderLinesRoundTrip | system_tools/list-files.py:112-118 | every line `format_output` renders reads back as its path and its kind |
| ListFiles.AnchoredRootRendersOnce | system_tools/list-files.py:115 | under the root "/", the file `ab` renders as "/ab", at a cost of one token |
| ListingProperties.FileRootNamedAsRendered | system_tools/list-files.py:201-243 | `list-files foo/ --no-recursive` on a file `foo` exits with 2, and its error is the `NotADirectoryError` naming `foo`, as pathlib renders the root, not the `foo/` the user typed |
| ListFiles.MainReportsListingError | system_tools/list-files.py:241-243 | a failed listing exits with 2 and shows "Error: " followed by that error's message |
| ListingProperties.AnchoredRootFitsOneToken | system_tools/list-files.py:86-134 | listing the root "/" holding only the file `ab`, without recursion and under a budget of one token, exits with 0 |
| ListFiles.MarkerWord | system_tools/list-files.py:132 | the marker word is "files/dirs" with neither kind flag, "files" with `--files-only`, and "dirs" with `--dirs-only` alone |
| ListFiles.FormatOutput | system_tools/list-files.py:98-134 | with an empty `root_dir` and at least one path it fails, as joining a path to the missing root does; otherwise the rendered paths are shown in full, and not marked truncated, exactly when their summed cost fits the budget (or there are none); otherwise the first n are shown, where the first n fit (or n is 0) and the first n + 1 do not, followed by the marker counting the other paths |
| ListFiles.Main | system_tools/list-files.py:201-243 | it exits with 2, with a text starting "Error: ", exactly when the listing fails or the directory is empty text and the listing is not; otherwise it exits with 1 exactly when there are listed paths and their rendered lines together exceed the budget, and with 0 otherwise |
| Budget.LineCost | system_tools/list-files.py:120 | a line's cost is the least number of 4-character tokens covering the line and its line break, and at least 1 |
| Budget.Walk | system_tools/list-files.py:112-128 | the lines shown are a prefix of the input whose cost fits the budget unless it is empty; it breaks off exactly when a line is left out, then the next line would exceed the budget and the remaining count is the number of lines left out |
| Budget.WalkFromSpec | system_tools/search-files.py:86-95 | from any point of the loop, it stops at or after that point; where it stops early, the next line would have exceeded the budget; what it has shown fits |
| Budget.WalkKeepsLongestAffordablePrefix | system_tools/list-files.py:120-128 | a non-empty prefix of the lines is shown exactly when its summed cost is within the budget |
| Budget.WalkMonotone | system_tools/search-files.py:86-95 | a larger budget never shows fewer lines |
| Budget.WalkUnderBudget | system_tools/search-files.py:86-95 | lines whose summed cost fits are all shown, with nothing marked truncated or remaining |
| Budget.WalkTruncatesIffOverBudget | system_tools/search-files.py:86-98 | the walk breaks off exactly when there are lines and their summed cost exceeds the budget; otherwise every line is shown |
| Budget.PrefixCostIncreasing | system_tools/search-files.py:87 | every line costs at least one token, so a longer prefix costs strictly more |
| Budget.Marker | system_tools/list-files.py:132 | the marker starts with a blank line and "[TRUNCATED] ", and ends with ")" |
| Budget.MarkerReadsBack | system_tools/search-files.py:99 | the digits right after "[TRUNCATED] " read back as the number of lines withheld |
| Budget.RenderShows | system_tools/search-files.py:97-101 | joining the shown lines with line breaks and appending the marker when truncated gives what both `format_output` functions promise |
| Budget.ThreeTwentyCharLinesUnderTen | system_tools/list-files.py:120-125 | under a budget of 10, three 20-character lines show one line and leave 2 remaining |
| SearchFiles.RunRipgrepSearch | system_tools/search-files.py:25-69 | a missing directory fails with "Directory does not exist" before the engine runs; engine exit code 0 gives its output, 1 gives the empty text, and any other code fails carrying the engine's standard error |
| SearchProperties.MissingDirectoryIgnoresEngine | system_tools/search-files.py:25-27 | for a missing directory the result does not depend on the engine |
| SearchFiles.BuildArgs | system_tools/search-files.py:29-54 | the vector starts with the fixed prefix (the engine, the output options and the three exclusion globs) and ends with the directory, which follows everything else |
| SearchProperties.ArgsFrame | system_tools/search-files.py:29-30 | the argument vector starts with `rg.exe`, the four output options and the three exclusion globs for `.llm`, `.git` and `.aider*`, and ends with the directory |
| SearchProperties.ArgsPrefixes | system_tools/search-files.py:29-54 | each stage of the argument vector, as the code appends its parts in order, is a prefix of the final vector |
| SearchProperties.UserGlobPairs | system_tools/search-files.py:35-37 | each user glob `g` appears as the pair `--glob g`, in the given order, right after the fixed prefix and `--files` |
| SearchFiles.GlobArgsPairs | system_tools/search-files.py:36-37 | pair j of the glob arguments is `--glob` followed by the j-th pattern |
| SearchProperties.GlobArgsValues | system_tools/search-files.py:36-37 | the glob arguments hold only `--glob` and the patterns |
| SearchProperties.ContentArgsShape | system_tools/search-files.py:40-45 | in content mode, `--files-with-matches` and `--fixed-strings` each appear exactly when their flag is set, in that order, and the term comes last |
| SearchProperties.ContentModeLayout | system_tools/search-files.py:40-45 | in content mode, right after the user globs come `--files-with-matches` and then `--fixed-strings`, each present exactly when its flag is set, and then the search term |
| SearchProperties.ContentModeTermOnce | system_tools/search-files.py:40-45 | in content mode, a search term that differs from every option name and caller-supplied value appears exactly once in the vector |
| SearchProperties.FilesModeLayout | system_tools/search-files.py:32-33 | in files mode, `--files` follows the fixed prefix, and every argument is an option name the builder writes or a value the caller supplied |
| SearchProperties.FilesModeOmitsContentOptions | system_tools/search-files.py:32-45 | in files mode, neither the search term, `--files-with-matches` nor `--fixed-strings` reaches the engine, unless the caller passed that same string as a glob, extension or directory |
| SearchProperties.ExtGlobsOfPieces | system_tools/search-files.py:48-50 | for comma-free pieces that join with commas into a non-empty `ext`, there is one glob `*.<piece>` per piece, stripped, in order; an absent or empty `ext` gives none |
| SearchProperties.ExtGlobPairs | system_tools/search-files.py:48-50 | each extension glob appears as a `--glob` pair right after the content-mode part, before the count and the directory |
| SearchProperties.ExtPiecesRejoin | system_tools/search-files.py:49 | the comma-separated pieces join back into `ext` |
| SearchProperties.MaxCountPlacement | system_tools/search-files.py:51-54 | `--max-count n` sits right before the directory exactly when `max_results` is present and non-zero; otherwise the extension globs are followed directly by the directory |
| SearchFiles.MarkerWord | system_tools/search-files.py:99 | the marker word is "files" exactly with `--files-only`, otherwise "matches" |
| SearchFiles.FormatOutput | system_tools/search-files.py:71-101 | `None` gives the empty text, not truncated; otherwise the output's lines are shown in full exactly when their summed cost fits the budget, and otherwise the longest affordable prefix is shown, followed by the marker counting the lines left out |
| SearchProperties.UnderBudgetOutputUnchanged | system_tools/search-files.py:80-101 | output whose lines fit the budget is shown unchanged, apart from a final line break, and is not marked truncated |
| SearchFiles.DefaultTerm | system_tools/search-files.py:181 | a missing or empty search term becomes "."; a given one is passed on unchanged |
| SearchFiles.Main | system_tools/search-files.py:179-223 | a missing directory or an engine failure exits with 2, with a text starting "Error: "; otherwise it exits with 1 exactly when the engine matched and its output lines exceed the budget, and with 0 otherwise |
| Text.JoinSplit | system_tools/search-files.py:49 | splitting at a separator and joining with it gives back the string |
| Text.SplitJoin | system_tools/search-files.py:49 | joining separator-free parts and splitting again gives back the parts |
| Text.SplitLinesJoin | system_tools/search-files.py:80 | joining the lines with line breaks gives back the text, up to a final line break |
| Text.StripSlice | system_tools/search-files.py:50 | stripping keeps a slice of the string with only white space before and after it |
| Text.StripRemovesOnlySpace | system_tools/search-files.py:50 | what stripping removes is white space at either end, and nothing else |
| Text.LowerKeepsContains | system_tools/list-files.py:56 | a substring, lower-cased, is a substring of the lower-cased string |
| Numerals.LeadingDigitsOf | system_tools/search-files.py:99 | the leading digits of digits followed by a non-digit are exactly those digits |
| Text.LowerHasNoUpper | system_tools/list-files.py:56 | a lower-cased name holds no upper-case letter |
| Numerals.NatToStringRoundTrip | system_tools/list-files.py:132 | reading back the decimal digits of the remaining count gives the count |
| Numerals.IntToStringRoundTrip | system_tools/search-files.py:52 | reading back `str(n)`, sign included, gives `n` |

## Left out

- `aider/coders/explore_prompts.py` holds only prompt text and no logic. `aider/coders/explore_coder.py` is a thin subclass of a coder class that is not part of this model. Neither is modelled.
- The log file under `.llm`, the timestamp header, printing, `argparse` and the re-configuration of standard output are left out. These are I/O. Each `main` is modelled from the parsed arguments on.
- The UTF-8 re-encoding with replacement in both `main` functions is left out. Strings are sequences of characters with no encoding.
- Real `pathlib` glob semantics are abstract: symlinks, hidden-file rules, entry kinds other than file and directory, and the case-folded order of Windows paths. A glob of k + 1 stars is taken to select exactly the entries k + 1 segments deep.
- The ripgrep process is the parameter `exec`. Its regex and glob matching are not modelled, so properties of which lines it returns are out of reach. A missing `rg.exe` raises an error and exits with 2. The model has no separate case for that: it is any exit code other than 0 or 1.
- `search-files` `main` has a branch that prints "No results found" when the search yields `None`. That branch cannot be reached, because `run_ripgrep_search` always returns a string, so it is not modelled.
- SearchFiles.BuildArgs: the last argument is the directory as given, not `str(Path(directory))`. The path normalisation `pathlib` applies, such as dropping a trailing "/", is not modelled.
- ListFiles.RenderPath: the root's text (`str(Path(root_dir))`) is a field of the filesystem, not computed from the argument. Paths render with the POSIX separator "/". On Windows the separator is `\`, which has the same length, so costs are unchanged; an anchor such as `C:\` plays the part of "/". A drive-relative root such as "C:" is not modelled.
- ListFiles.ErrorMessage: the text of the `NotADirectoryError` is the POSIX one. Windows words it differently. The path is always quoted with `'…'`. Python's `repr` switches to double quotes for a path containing a single quote, and it escapes backslashes.
- ListFiles.Main: only the errors the model names lead to exit 2. Other OS errors also reach the handler of `main` and exit with 2, but the filesystem model cannot express them. Examples are a `PermissionError` from `iterdir` on an unreadable root, and one from `exists` in the Python versions that re-raise it.
- SearchFiles.Main: a `PermissionError` from checking whether the search directory exists also exits with 2. The model has only a boolean for existence, so it does not express this.
- Text.Lower: lower-cases ASCII letters only. Python's `str.lower` also folds other Unicode letters.
- Text.Strip: removes the ASCII white space and U+001C..U+001F, U+0085 and U+00A0. Python's `str.strip` also removes the other Unicode white space.
- Text.SplitLines: splits at "\n" only. Python's `splitlines` also breaks at "\r", "\r\n" and other line separators.
