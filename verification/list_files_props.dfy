/** What `get_file_list` returns in each of its three branches, and what follows. */
module ListingProperties {
  import opened Wrappers
  import opened Text
  import opened Ordering
  import opened ListFiles

  /** A pattern of k + 1 `*` segments matches paths of k + 1 segments. */
  lemma {:induction false} PatternDepthOf(k: nat)
    ensures PatternDepth(Pattern(k)) == k + 1
    decreases k
  {
    if k > 0 {
      var rest := Pattern(k - 1);
      assert Pattern(k) == "*/" + rest;
      assert IndexOf(Pattern(k), '/') == Some(1);
      assert Pattern(k)[2..] == rest;
      PatternDepthOf(k - 1);
    } else {
      assert IndexOf("*", '/') == None;
    }
  }

  /** The pattern list has one pattern per level 1 .. DepthLimit(n), the j-th matching j + 1 segments. */
  lemma GlobPatternsDepths(n: int)
    ensures |GlobPatterns(n)| == DepthLimit(n)
    ensures forall j :: 0 <= j < |GlobPatterns(n)| ==> PatternDepth(GlobPatterns(n)[j]) == j + 1
  {
    var ps := GlobPatterns(n);
    forall j | 0 <= j < |ps| ensures PatternDepth(ps[j]) == j + 1 {
      if j == 0 {
        PatternDepthOf(0);
        assert Pattern(0) == "*";
      } else {
        PatternDepthOf(j);
      }
    }
  }

  /** The pattern loop adds exactly the kept entries whose depth one of the patterns matches. */
  lemma {:induction false} CollectBoundedMembers(fs: FileSystem, q: ListQuery, patterns: seq<string>, acc: set<Path>, p: Path)
    ensures p in CollectBounded(fs, q, patterns, acc) <==>
              p in acc
              || (RecursiveKeeps(fs, q, p, true) && exists j :: 0 <= j < |patterns| && |p| == PatternDepth(patterns[j]))
    decreases |patterns|
  {
    if patterns != [] {
      CollectBoundedMembers(fs, q, patterns[1..], acc + BoundedPass(fs, q, patterns[0]), p);
      if RecursiveKeeps(fs, q, p, true) && (exists j :: 0 <= j < |patterns| && |p| == PatternDepth(patterns[j])) {
        var j :| 0 <= j < |patterns| && |p| == PatternDepth(patterns[j]);
        if j > 0 {
          assert patterns[1..][j - 1] == patterns[j];
        }
      }
      if exists j :: 0 <= j < |patterns[1..]| && |p| == PatternDepth(patterns[1..][j]) {
        var j :| 0 <= j < |patterns[1..]| && |p| == PatternDepth(patterns[1..][j]);
        assert patterns[j + 1] == patterns[1..][j];
      }
    }
  }

  /**
   * Bounded recursion with `max_depth = n` below a directory: an entry is
   * listed exactly when it lies 1 .. n + 1 segments deep (1 for a negative n)
   * and passes the ignore rule and the kind, name and extension filters. No
   * level is skipped. Below a root that is not a directory nothing is listed.
   */
  lemma BoundedListing(fs: FileSystem, q: ListQuery, n: int)
    requires fs.rootExists && !(q.filesOnly && q.dirsOnly)
    requires q.recursive && q.maxDepth == Some(n)
    ensures forall p :: p in GetFileList(fs, q).value <==>
              (fs.rootIsDir && RecursiveKeeps(fs, q, p, true) && |p| <= DepthLimit(n))
  {
    var ps := GlobPatterns(n);
    GlobPatternsDepths(n);
    forall p ensures p in CollectBounded(fs, q, ps, {}) <==> (RecursiveKeeps(fs, q, p, true) && |p| <= DepthLimit(n)) {
      CollectBoundedMembers(fs, q, ps, {}, p);
      if RecursiveKeeps(fs, q, p, true) && |p| <= DepthLimit(n) {
        assert |p| == PatternDepth(ps[|p| - 1]);
      }
    }
  }

  /** Unbounded recursion: every kept entry at any depth, `.llm` included; nothing below a root that is not a directory. */
  lemma UnboundedListing(fs: FileSystem, q: ListQuery)
    requires fs.rootExists && !(q.filesOnly && q.dirsOnly)
    requires q.recursive && q.maxDepth.None?
    ensures forall p :: p in GetFileList(fs, q).value <==> fs.rootIsDir && RecursiveKeeps(fs, q, p, false)
  {
  }

  /** No recursion: the direct children not named `.git`, `.llm` or `.aider*` that pass the kind filter. */
  lemma FlatListing(fs: FileSystem, q: ListQuery)
    requires fs.rootExists && fs.rootIsDir && !(q.filesOnly && q.dirsOnly)
    requires !q.recursive
    ensures forall p :: p in GetFileList(fs, q).value <==>
              (p in fs.entries && |p| == 1 && !IgnoredName(p[0]) && KindPasses(q, fs.entries[p]))
  {
  }

  /** Both recursive branches drop any path whose root-joined parts include `.git` or a `.aider*` part. */
  lemma RecursiveSkipsGitAndAider(fs: FileSystem, q: ListQuery, p: Path, i: nat)
    requires fs.rootExists && !(q.filesOnly && q.dirsOnly) && q.recursive
    requires i < |fs.rootParts + p|
    ensures p in GetFileList(fs, q).value ==>
              && (fs.rootParts + p)[i] != ".git"
              && !StartsWith((fs.rootParts + p)[i], ".aider")
              && (q.maxDepth.Some? ==> (fs.rootParts + p)[i] != ".llm")
  {
    if q.maxDepth.Some? {
      BoundedListing(fs, q, q.maxDepth.value);
    }
  }

  /**
   * Only the unbounded branch lets `.llm` through: an entry inside `.llm` that
   * the other rules keep is listed, though the bounded rule would drop it.
   */
  lemma UnboundedKeepsLlm(fs: FileSystem, q: ListQuery, p: Path)
    requires fs.rootExists && fs.rootIsDir && !(q.filesOnly && q.dirsOnly)
    requires q.recursive && q.maxDepth.None?
    requires ".llm" in fs.rootParts + p
    requires RecursiveKeeps(fs, q, p, false)
    ensures p in GetFileList(fs, q).value
    ensures !RecursiveKeeps(fs, q, p, true)
  {
  }

  /** The non-recursive branch drops a child by its own name only. */
  lemma FlatSkipsReservedNames(fs: FileSystem, q: ListQuery, p: Path)
    requires GetFileList(fs, q).Ok? && !q.recursive
    requires p in GetFileList(fs, q).value
    ensures |p| == 1 && p[0] != ".git" && p[0] != ".llm" && !StartsWith(p[0], ".aider")
  {
    FlatListing(fs, q);
  }

  /** `--files-only` lists only files and `--dirs-only` only directories, in all three branches. */
  lemma KindFlagsRespected(fs: FileSystem, q: ListQuery, p: Path)
    requires GetFileList(fs, q).Ok?
    requires p in GetFileList(fs, q).value
    ensures p in fs.entries
    ensures q.filesOnly ==> fs.entries[p] == File
    ensures q.dirsOnly ==> fs.entries[p] == Dir
  {
    if q.recursive && q.maxDepth.Some? {
      BoundedListing(fs, q, q.maxDepth.value);
    }
  }

  /**
   * In the recursive branches a listed entry passes the name filter: its
   * lower-cased name starts with the lower-cased filter or contains the filter
   * as given. Directories are filtered by name too.
   */
  lemma RecursiveNameFilter(fs: FileSystem, q: ListQuery, p: Path)
    requires fs.rootExists && !(q.filesOnly && q.dirsOnly) && q.recursive
    requires Truthy(q.nameFilter)
    ensures p in GetFileList(fs, q).value ==>
              && |p| >= 1
              && (StartsWith(Lower(Name(p)), Lower(q.nameFilter.value)) || Contains(Lower(Name(p)), q.nameFilter.value))
  {
    if q.maxDepth.Some? {
      BoundedListing(fs, q, q.maxDepth.value);
    }
  }

  /**
   * In the recursive branches a listed file passes the extension filter: its
   * lower-cased suffix ends with "." and the lower-cased filter. Directories
   * are never dropped by it.
   */
  lemma RecursiveExtFilter(fs: FileSystem, q: ListQuery, p: Path)
    requires fs.rootExists && !(q.filesOnly && q.dirsOnly) && q.recursive
    requires Truthy(q.extFilter)
    ensures p in GetFileList(fs, q).value ==>
              && |p| >= 1 && p in fs.entries
              && (fs.entries[p] == File ==> EndsWith(Lower(Suffix(Name(p))), "." + Lower(q.extFilter.value)))
  {
    if q.maxDepth.Some? {
      BoundedListing(fs, q, q.maxDepth.value);
    }
  }

  /**
   * In both recursive branches, a directory that the ignore rule, kind and
   * name filters keep (within the depth bound, if any) is listed whatever the
   * extension filter.
   */
  lemma ExtFilterSparesDirectories(fs: FileSystem, q: ListQuery, p: Path)
    requires fs.rootExists && fs.rootIsDir && !(q.filesOnly && q.dirsOnly) && q.recursive
    requires RecursiveKeeps(fs, q.(extFilter := None), p, q.maxDepth.Some?)
    requires q.maxDepth.Some? ==> |p| <= DepthLimit(q.maxDepth.value)
    requires fs.entries[p] == Dir
    ensures p in GetFileList(fs, q).value
  {
    if q.maxDepth.Some? {
      BoundedListing(fs, q, q.maxDepth.value);
    }
  }

  /** The non-recursive branch applies neither the name nor the extension filter. */
  lemma FlatIgnoresNameAndExt(fs: FileSystem, q: ListQuery, name: Option<string>, ext: Option<string>)
    requires !q.recursive
    ensures GetFileList(fs, q) == GetFileList(fs, q.(nameFilter := name, extFilter := ext))
  {
    assert FlatSet(fs, q) == FlatSet(fs, q.(nameFilter := name, extFilter := ext));
  }

  /** A filter without a dot keeps exactly the files whose suffix is that extension, ignoring case. */
  lemma ExtFilterIsExactWithoutDot(filter: string, name: string)
    requires filter != "" && '.' !in filter
    ensures ExtPasses(Some(filter), name, File) <==> Lower(Suffix(name)) == "." + Lower(filter)
  {
    var s := Lower(Suffix(name));
    var want := "." + Lower(filter);
    if ExtPasses(Some(filter), name, File) {
      assert EndsWith(s, want);
      var off := |s| - |want|;
      assert s[off] == '.';
      if off > 0 {
        assert false;
      }
      assert s == s[off..];
    }
  }

  /**
   * The substring half of the name test compares the un-lowered filter with
   * the lower-cased name, so a filter with an upper-case letter can only match
   * by prefix.
   */
  lemma UpperCaseFilterMatchesOnlyByPrefix(filter: string, name: string, k: nat)
    requires k < |filter| && Text.IsUpper(filter[k])
    ensures NamePasses(Some(filter), name) <==> StartsWith(Lower(name), Lower(filter))
  {
    if Contains(Lower(name), filter) {
      var i :| 0 <= i <= |Lower(name)| - |filter| && filter <= Lower(name)[i..];
      LowerHasNoUpper(name);
      assert false;
    }
  }

  /**
   * A filter without upper-case letters passes a name exactly when the
   * lower-cased name contains it: the prefix test adds nothing then.
   */
  lemma LowerFilterMatchesBySubstring(filter: string, name: string)
    requires filter != ""
    requires forall k :: 0 <= k < |filter| ==> !Text.IsUpper(filter[k])
    ensures NamePasses(Some(filter), name) <==> Contains(Lower(name), filter)
  {
    assert Lower(filter) == filter;
  }

  /** The two recursive branches' ignore rules differ in `.llm` alone. */
  lemma LlmIsTheOnlyDifference(fs: FileSystem, q: ListQuery, p: Path)
    ensures RecursiveKeeps(fs, q, p, true) <==> RecursiveKeeps(fs, q, p, false) && ".llm" !in fs.rootParts + p
  {
    var parts := fs.rootParts + p;
    if ".llm" in parts {
      var i :| 0 <= i < |parts| && parts[i] == ".llm";
      assert IgnoredPart(parts[i], true);
    } else if HasIgnoredPart(parts, true) {
      var i :| 0 <= i < |parts| && IgnoredPart(parts[i], true);
      assert parts[i] in parts;
      assert IgnoredPart(parts[i], false);
    }
  }

  /** Whatever the branch, the listing is sorted and lists no path twice. */
  lemma ListingSortedWithoutDuplicates(fs: FileSystem, q: ListQuery)
    requires GetFileList(fs, q).Ok?
    ensures var r := GetFileList(fs, q).value;
            (forall i, j :: 0 <= i < j < |r| ==> PathLess(r[i], r[j]))
            && (forall i, j :: 0 <= i < |r| && 0 <= j < |r| && i != j ==> r[i] != r[j])
  {
    StrictlySortedHasNoDuplicates(GetFileList(fs, q).value);
  }

  /** A tree holding `a/b/c.txt`, `a/d.txt` and `.git/config`, under a root named `root`. */
  const SampleTree: FileSystem :=
    FileSystem(true, true, ["root"], "root",
               map[["a"] := Dir, ["a", "b"] := Dir, ["a", "b", "c.txt"] := File,
                   ["a", "d.txt"] := File, [".git"] := Dir, [".git", "config"] := File])

  /** A recursive listing of `root` with `max_depth = 1` and no filters. */
  const DepthOne: ListQuery := ListQuery("root", true, Some(1), false, false, None, None)

  /** Which entries of the sample tree the bounded branch keeps within two segments. */
  lemma SampleTreeKept(p: Path)
    ensures RecursiveKeeps(SampleTree, DepthOne, p, true) && |p| <= 2 <==>
              p == ["a"] || p == ["a", "b"] || p == ["a", "d.txt"]
  {
    var fs := SampleTree;
    if p == [".git"] || p == [".git", "config"] {
      assert IgnoredPart((fs.rootParts + p)[1], true);
    } else if p == ["a"] || p == ["a", "b"] || p == ["a", "d.txt"] {
      forall i | 0 <= i < |fs.rootParts + p| ensures !IgnoredPart((fs.rootParts + p)[i], true) {
        assert (fs.rootParts + p)[i] in ["root", "a", "b", "d.txt"];
      }
    } else if p != ["a", "b", "c.txt"] {
      assert p !in fs.entries;
    }
  }

  /** A listing is pinned down by its members and the order. */
  lemma ListingIs(fs: FileSystem, q: ListQuery, want: seq<Path>)
    requires GetFileList(fs, q).Ok?
    requires forall p :: p in GetFileList(fs, q).value <==> p in want
    requires StrictlySorted(want)
    ensures GetFileList(fs, q) == Ok(want)
  {
    StrictlySortedDetermined(GetFileList(fs, q).value, want);
  }

  /** The expected listing is in sorted order. */
  lemma SampleListingSorted()
    ensures StrictlySorted([["a"], ["a", "b"], ["a", "d.txt"]])
  {
    assert PathLess(["a"], ["a", "b"]);
    assert PathLess(["a", "b"], ["a", "d.txt"]);
    assert PathLess(["a"], ["a", "d.txt"]);
  }

  /**
   * The sample tree listed recursively with `max_depth = 1` gives `a`, `a/b`
   * and `a/d.txt`: `.git` is skipped and `a/b/c.txt` lies too deep.
   */
  lemma DepthOneTree(fs: FileSystem, q: ListQuery)
    requires fs == SampleTree && q == DepthOne
    ensures GetFileList(fs, q) == Ok([["a"], ["a", "b"], ["a", "d.txt"]])
  {
    DepthOneMembers(fs, q);
    SampleListingSorted();
    ListingIs(fs, q, [["a"], ["a", "b"], ["a", "d.txt"]]);
  }

  /** Which paths the depth-one listing of the sample tree holds. */
  lemma DepthOneMembers(fs: FileSystem, q: ListQuery)
    requires fs == SampleTree && q == DepthOne
    ensures GetFileList(fs, q).Ok?
    ensures forall p :: p in GetFileList(fs, q).value <==>
              p == ["a"] || p == ["a", "b"] || p == ["a", "d.txt"]
  {
    BoundedListing(fs, q, 1);
    forall p ensures p in GetFileList(fs, q).value <==>
                       p == ["a"] || p == ["a", "b"] || p == ["a", "d.txt"] {
      SampleTreeKept(p);
    }
  }

  /**
   * Listing the root "/" holding the one file `ab`, without recursion and
   * under a budget of one token: the line "/ab" costs one token, so it is
   * shown in full and the exit code is 0.
   */
  lemma AnchoredRootFitsOneToken(fs: FileSystem, q: ListQuery)
    requires fs == FileSystem(true, true, ["/"], "/", map[["ab"] := File])
    requires q == ListQuery("/", false, None, false, false, None, None)
    ensures Main(fs, q, 1).code == 0
  {
    var want: seq<Path> := [["ab"]];
    AnchoredRootListing(fs, q);
    var lines := RenderLines(fs, want);
    AnchoredRootRendersOnce(fs.entries);
    assert lines[0] == RenderPath(fs, ["ab"]) == "/ab";
    assert lines[..0] == [] && lines[..1] == lines;
    assert Budget.TotalCost(lines) == 1;
  }

  /** The flat listing of that root is the one file. */
  lemma AnchoredRootListing(fs: FileSystem, q: ListQuery)
    requires fs == FileSystem(true, true, ["/"], "/", map[["ab"] := File])
    requires q == ListQuery("/", false, None, false, false, None, None)
    ensures GetFileList(fs, q) == Ok([["ab"]])
  {
    var want: seq<Path> := [["ab"]];
    assert forall p :: p in GetFileList(fs, q).value <==> p in want by {
      FlatListing(fs, q);
    }
    ListingIs(fs, q, want);
  }

  /**
   * `list-files foo/ --no-recursive` where `foo` is a file: `iterdir` fails,
   * and the error names the root as pathlib renders it, without the
   * trailing separator the user typed.
   */
  lemma FileRootNamedAsRendered(fs: FileSystem, q: ListQuery)
    requires fs == FileSystem(true, false, ["foo"], "foo", map[])
    requires q == ListQuery("foo/", false, None, false, false, None, None)
    ensures Main(fs, q, 100) == Budget.Exit(2, "Error: " + ErrorMessage(NotADirectory("foo")))
  {
    assert GetFileList(fs, q) == Err(NotADirectory("foo"));
    MainReportsListingError(fs, q, 100);
  }
}
