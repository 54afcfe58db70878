/** The layout of the ripgrep argument vector, stated position by position. */
module SearchProperties {
  import opened Wrappers
  import opened Text
  import opened Numerals
  import opened SearchFiles

  /** Where the user globs start: after the fixed prefix and `--files`, if any. */
  function GlobStart(q: SearchQuery): nat
  {
    |FixedPrefix| + |ModeArgs(q)|
  }

  /** Where the extension globs start: after the user globs and the content-mode part. */
  function ExtStart(q: SearchQuery): nat
  {
    GlobStart(q) + 2 * |UserGlobs(q)| + |ContentArgs(q)|
  }

  /** The strings a caller supplies besides the search term. */
  function UserValues(q: SearchQuery): seq<string>
  {
    UserGlobs(q) + ExtGlobs(q.ext) + MaxCountArgs(q.maxResults) + [q.directory]
  }

  /** The option names the builder itself writes. */
  const Vocabulary: seq<string> := FixedPrefix + ["--files", "--glob", "--max-count"]

  /** A part `x` that follows `pre` at the front of `r` sits at offsets |pre| .. |pre| + |x|. */
  lemma PartAt<T>(r: seq<T>, pre: seq<T>, x: seq<T>)
    requires pre + x <= r
    ensures r[..|pre|] == pre
    ensures r[|pre|..|pre| + |x|] == x
  {
    assert r[..|pre| + |x|] == pre + x;
    assert (pre + x)[|pre|..] == x;
  }

  /** A non-empty part `c` after `pre` in `r`: its front and its last element, by position. */
  lemma LastOfPart<T>(r: seq<T>, pre: seq<T>, c: seq<T>)
    requires pre + c <= r
    requires |c| >= 1
    ensures r[|pre|..|pre| + |c| - 1] == c[..|c| - 1]
    ensures r[|pre| + |c| - 1] == c[|c| - 1]
  {
    PartAt(r, pre, c);
    assert r[|pre|..|pre| + |c| - 1] == r[|pre|..|pre| + |c|][..|c| - 1];
  }

  /** A prefix of `r` is a prefix of anything `r` is extended to. */
  lemma PrefixExtends<T>(p: seq<T>, r: seq<T>, s: seq<T>)
    requires p <= r
    ensures p <= r + s
  {
  }

  /** Every left part of the argument vector is a prefix of it. */
  lemma ArgsPrefixes(q: SearchQuery)
    ensures var p1 := FixedPrefix + ModeArgs(q);
            var p2 := p1 + GlobArgs(UserGlobs(q));
            var p3 := p2 + ContentArgs(q);
            var p4 := p3 + GlobArgs(ExtGlobs(q.ext));
            var p5 := p4 + MaxCountArgs(q.maxResults);
            && p1 <= BuildArgs(q) && p2 <= BuildArgs(q) && p3 <= BuildArgs(q)
            && p4 <= BuildArgs(q) && p5 <= BuildArgs(q)
  {
    var p1 := FixedPrefix + ModeArgs(q);
    var p2 := p1 + GlobArgs(UserGlobs(q));
    var p3 := p2 + ContentArgs(q);
    var p4 := p3 + GlobArgs(ExtGlobs(q.ext));
    var p5 := p4 + MaxCountArgs(q.maxResults);
    var d := [q.directory];
    PrefixExtends(p5, p5, d);
    PrefixExtends(p4, p4, MaxCountArgs(q.maxResults));
    PrefixExtends(p4, p5, d);
    PrefixExtends(p3, p3, GlobArgs(ExtGlobs(q.ext)));
    PrefixExtends(p3, p4, MaxCountArgs(q.maxResults));
    PrefixExtends(p3, p5, d);
    PrefixExtends(p2, p2, ContentArgs(q));
    PrefixExtends(p2, p3, GlobArgs(ExtGlobs(q.ext)));
    PrefixExtends(p2, p4, MaxCountArgs(q.maxResults));
    PrefixExtends(p2, p5, d);
    PrefixExtends(p1, p1, GlobArgs(UserGlobs(q)));
    PrefixExtends(p1, p2, ContentArgs(q));
    PrefixExtends(p1, p3, GlobArgs(ExtGlobs(q.ext)));
    PrefixExtends(p1, p4, MaxCountArgs(q.maxResults));
    PrefixExtends(p1, p5, d);
  }

  /**
   * Every argument vector opens with the engine and its fixed options,
   * including the three exclusions, and closes with the directory.
   */
  lemma ArgsFrame(q: SearchQuery)
    ensures |BuildArgs(q)| >= 12
    ensures BuildArgs(q)[..11] == ["rg.exe", "--color=never", "--no-heading", "--with-filename", "--line-number",
                                   "--glob", "!**/.llm/**", "--glob", "!**/.git/**", "--glob", "!**/.aider*/**"]
    ensures BuildArgs(q)[|BuildArgs(q)| - 1] == q.directory
  {
    ArgsPrefixes(q);
    PartAt(BuildArgs(q), FixedPrefix, ModeArgs(q));
  }

  /** Pairs `tag, v` laid out from offset |pre| of `r`. */
  lemma PairsAt<T>(r: seq<T>, pre: seq<T>, x: seq<T>, tag: T, vs: seq<T>)
    requires pre + x <= r
    requires |x| == 2 * |vs|
    requires forall j :: 0 <= j < |vs| ==> x[2 * j] == tag && x[2 * j + 1] == vs[j]
    ensures forall j :: 0 <= j < |vs| ==> r[|pre| + 2 * j] == tag && r[|pre| + 2 * j + 1] == vs[j]
  {
    forall j | 0 <= j < |vs| ensures r[|pre| + 2 * j] == tag && r[|pre| + 2 * j + 1] == vs[j] {
      assert r[|pre| + 2 * j] == (pre + x)[|pre| + 2 * j];
      assert r[|pre| + 2 * j + 1] == (pre + x)[|pre| + 2 * j + 1];
    }
  }

  /** A pair list placed after `pre` puts pattern `j` at offset |pre| + 2j + 1, after a `--glob`. */
  lemma GlobPairsAt(r: seq<string>, pre: seq<string>, gs: seq<string>)
    requires pre + GlobArgs(gs) <= r
    ensures forall j :: 0 <= j < |gs| ==> r[|pre| + 2 * j] == "--glob" && r[|pre| + 2 * j + 1] == gs[j]
  {
    GlobArgsPairs(gs);
    PairsAt(r, pre, GlobArgs(gs), "--glob", gs);
  }

  /** Each user glob `g` appears as the pair `--glob g`, in the given order, before the mode options. */
  lemma UserGlobPairs(q: SearchQuery)
    ensures var r := BuildArgs(q);
            var g := GlobStart(q);
            var gs := UserGlobs(q);
            g + 2 * |gs| <= |r|
            && forall j :: 0 <= j < |gs| ==> r[g + 2 * j] == "--glob" && r[g + 2 * j + 1] == gs[j]
  {
    ArgsPrefixes(q);
    GlobPairsAt(BuildArgs(q), FixedPrefix + ModeArgs(q), UserGlobs(q));
  }

  /** The content-mode part: the two optional flags, then the term. */
  lemma ContentArgsShape(q: SearchQuery)
    requires !q.filesMode
    ensures var c := ContentArgs(q);
            && |c| >= 1 && c[|c| - 1] == q.searchTerm
            && ("--files-with-matches" in c[..|c| - 1] <==> q.filesOnly)
            && ("--fixed-strings" in c[..|c| - 1] <==> q.fixedStrings)
            && |c| - 1 == (if q.filesOnly then 1 else 0) + (if q.fixedStrings then 1 else 0)
            && (q.filesOnly && q.fixedStrings ==> c[0] == "--files-with-matches" && c[1] == "--fixed-strings")
  {
    var flags := (if q.filesOnly then ["--files-with-matches"] else []) + (if q.fixedStrings then ["--fixed-strings"] else []);
    assert ContentArgs(q)[..|ContentArgs(q)| - 1] == flags;
  }

  /**
   * Content mode: the options `--files-with-matches` and `--fixed-strings`
   * sit right after the user globs, each present exactly when its flag is
   * set, and the search term follows them.
   */
  lemma ContentModeLayout(q: SearchQuery)
    requires !q.filesMode
    ensures var r := BuildArgs(q);
            var b := GlobStart(q) + 2 * |UserGlobs(q)|;
            var t := ExtStart(q) - 1;
            && b <= t < |r|
            && r[t] == q.searchTerm
            && ("--files-with-matches" in r[b..t] <==> q.filesOnly)
            && ("--fixed-strings" in r[b..t] <==> q.fixedStrings)
            && |r[b..t]| == (if q.filesOnly then 1 else 0) + (if q.fixedStrings then 1 else 0)
            && (q.filesOnly && q.fixedStrings ==> r[b] == "--files-with-matches" && r[b + 1] == "--fixed-strings")
  {
    var r := BuildArgs(q);
    var pre := FixedPrefix + ModeArgs(q) + GlobArgs(UserGlobs(q));
    var c := ContentArgs(q);
    ArgsPrefixes(q);
    ContentArgsShape(q);
    LastOfPart(r, pre, c);
    var b := GlobStart(q) + 2 * |UserGlobs(q)|;
    var t := ExtStart(q) - 1;
    assert |pre| == b && |pre| + |c| - 1 == t;
    assert r[b..t] == c[..|c| - 1] && r[t] == c[|c| - 1];
    if q.filesOnly && q.fixedStrings {
      assert r[b] == r[b..t][0] && r[b + 1] == r[b..t][1];
    }
  }

  /** A glob pair list holds only `--glob` and the patterns. */
  lemma GlobArgsValues(gs: seq<string>)
    ensures forall a :: a in GlobArgs(gs) ==> a == "--glob" || a in gs
  {
    GlobArgsPairs(gs);
    forall a | a in GlobArgs(gs) ensures a == "--glob" || a in gs {
      var i :| 0 <= i < |GlobArgs(gs)| && GlobArgs(gs)[i] == a;
      if i % 2 == 0 {
        assert a == GlobArgs(gs)[2 * (i / 2)];
      } else {
        assert a == GlobArgs(gs)[2 * (i / 2) + 1];
      }
    }
  }

  /**
   * Files mode: `--files` follows the fixed prefix, and every argument is one
   * the builder writes itself or one the caller supplied as a glob, an
   * extension, the count or the directory: the search term is not passed.
   */
  lemma FilesModeLayout(q: SearchQuery)
    requires q.filesMode
    ensures BuildArgs(q)[11] == "--files"
    ensures forall a :: a in BuildArgs(q) ==> a in Vocabulary || a in UserValues(q)
  {
    var gs := UserGlobs(q);
    var es := ExtGlobs(q.ext);
    var m := MaxCountArgs(q.maxResults);
    GlobArgsValues(gs);
    GlobArgsValues(es);
    ArgsPrefixes(q);
    PartAt(BuildArgs(q), FixedPrefix, ModeArgs(q));
    assert ContentArgs(q) == [];
    forall a | a in BuildArgs(q) ensures a in Vocabulary || a in UserValues(q) {
      assert a in FixedPrefix || a in ModeArgs(q) || a in GlobArgs(gs) || a in ContentArgs(q)
             || a in GlobArgs(es) || a in m || a == q.directory;
      if a in m {
        assert a == "--max-count" || a in UserValues(q);
      }
    }
  }

  /** In files mode, a term, `--files-with-matches` or `--fixed-strings` reaches the engine only as a caller-supplied value. */
  lemma FilesModeOmitsContentOptions(q: SearchQuery)
    requires q.filesMode
    ensures q.searchTerm !in Vocabulary && q.searchTerm !in UserValues(q) ==> q.searchTerm !in BuildArgs(q)
    ensures "--files-with-matches" !in UserValues(q) ==> "--files-with-matches" !in BuildArgs(q)
    ensures "--fixed-strings" !in UserValues(q) ==> "--fixed-strings" !in BuildArgs(q)
  {
    assert "--files-with-matches" !in Vocabulary && "--fixed-strings" !in Vocabulary;
    FilesModeLayout(q);
  }

  /** An element not in a sequence occurs there zero times. */
  lemma Absent<T>(s: seq<T>, t: T)
    requires t !in s
    ensures multiset(s)[t] == 0
  {
  }

  /** Occurrences in a seven-part concatenation add up part by part. */
  lemma CountChain<T>(a: seq<T>, b: seq<T>, c: seq<T>, d: seq<T>, e: seq<T>, f: seq<T>, g: seq<T>, t: T)
    ensures multiset(a + b + c + d + e + f + g)[t]
            == multiset(a)[t] + multiset(b)[t] + multiset(c)[t] + multiset(d)[t]
               + multiset(e)[t] + multiset(f)[t] + multiset(g)[t]
  {
  }

  /**
   * Content mode: a search term distinct from every option name and every
   * caller-supplied value appears exactly once.
   */
  lemma ContentModeTermOnce(q: SearchQuery)
    requires !q.filesMode
    requires q.searchTerm !in FixedPrefix
    requires q.searchTerm !in ["--glob", "--files-with-matches", "--fixed-strings", "--max-count"]
    requires q.searchTerm !in UserValues(q)
    ensures multiset(BuildArgs(q))[q.searchTerm] == 1
  {
    var t := q.searchTerm;
    var gs := UserGlobs(q);
    var es := ExtGlobs(q.ext);
    var m := MaxCountArgs(q.maxResults);
    var c := ContentArgs(q);
    assert t !in gs && t !in es && t !in m && t != q.directory;
    assert t !in GlobArgs(gs) by { GlobArgsValues(gs); }
    assert t !in GlobArgs(es) by { GlobArgsValues(es); }
    assert multiset(c)[t] == 1 by {
      ContentArgsShape(q);
      assert c == c[..|c| - 1] + [t];
      Absent(c[..|c| - 1], t);
    }
    Absent(FixedPrefix, t);
    Absent(GlobArgs(gs), t);
    Absent(GlobArgs(es), t);
    Absent(m, t);
    Absent([q.directory], t);
    assert ModeArgs(q) == [];
    CountChain(FixedPrefix, ModeArgs(q), GlobArgs(gs), c, GlobArgs(es), m, [q.directory], t);
  }

  /**
   * The extension globs: for any comma-free pieces that join with commas
   * into a non-empty `ext`, one glob `*.<piece>` per piece, stripped, in
   * order; none for an absent or empty `ext`.
   */
  lemma ExtGlobsOfPieces(ext: Option<string>, pieces: seq<string>)
    requires |pieces| >= 1 && forall j :: 0 <= j < |pieces| ==> ',' !in pieces[j]
    requires ext.Some? ==> Join(pieces, ",") == ext.value
    ensures !Truthy(ext) ==> ExtGlobs(ext) == []
    ensures Truthy(ext) ==> |ExtGlobs(ext)| == |pieces|
    ensures Truthy(ext) ==> forall j :: 0 <= j < |pieces| ==> ExtGlobs(ext)[j] == "*." + Strip(pieces[j])
  {
    if Truthy(ext) {
      SplitJoin(pieces, ',');
    }
  }

  /**
   * A non-empty `ext` contributes one `--glob *.<piece>` per comma-separated
   * piece, stripped, right after the term (or the user globs in files mode);
   * an absent or empty one contributes nothing.
   */
  lemma ExtGlobPairs(q: SearchQuery)
    ensures var r := BuildArgs(q);
            var e := ExtStart(q);
            var es := ExtGlobs(q.ext);
            && e + 2 * |es| < |r|
            && forall j :: 0 <= j < |es| ==> r[e + 2 * j] == "--glob" && r[e + 2 * j + 1] == es[j]
  {
    ArgsPrefixes(q);
    GlobPairsAt(BuildArgs(q), FixedPrefix + ModeArgs(q) + GlobArgs(UserGlobs(q)) + ContentArgs(q), ExtGlobs(q.ext));
  }

  /** The pieces the extension globs are made from join back into `ext`. */
  lemma ExtPiecesRejoin(ext: string)
    ensures Join(Split(ext, ','), ",") == ext
  {
    JoinSplit(ext, ',');
  }

  /** `--max-count n` sits just before the directory exactly when `max_results` is present and non-zero. */
  lemma MaxCountPlacement(q: SearchQuery)
    ensures var r := BuildArgs(q);
            var x := ExtStart(q) + 2 * |ExtGlobs(q.ext)|;
            && (q.maxResults.Some? && q.maxResults.value != 0 ==>
                  |r| == x + 3 && r[x] == "--max-count" && r[x + 1] == IntToString(q.maxResults.value))
            && (q.maxResults.None? || q.maxResults.value == 0 ==> |r| == x + 1)
  {
    var pre := FixedPrefix + ModeArgs(q) + GlobArgs(UserGlobs(q)) + ContentArgs(q) + GlobArgs(ExtGlobs(q.ext));
    var m := MaxCountArgs(q.maxResults);
    ArgsPrefixes(q);
    PartAt(BuildArgs(q), pre, m);
    if m != [] {
      assert BuildArgs(q)[|pre|] == m[0];
      assert BuildArgs(q)[|pre| + 1] == m[1];
    }
  }

  /** A missing directory fails before the engine could be consulted, whatever it would answer. */
  lemma MissingDirectoryIgnoresEngine(q: SearchQuery, exec1: seq<string> -> ExecResult, exec2: seq<string> -> ExecResult)
    ensures RunRipgrepSearch(q, false, exec1) == RunRipgrepSearch(q, false, exec2) == Err(DirectoryMissing(q.directory))
  {
  }

  /** An output within budget is shown unchanged apart from a final newline. */
  lemma UnderBudgetOutputUnchanged(output: string, maxTokens: int, filesOnly: bool)
    requires Budget.TotalCost(SplitLines(output)) <= maxTokens
    ensures var r := FormatOutput(Some(output), maxTokens, filesOnly);
            !r.1 && r.0 + (if output != "" && output[|output| - 1] == '\n' then "\n" else "") == output
  {
    SplitLinesJoin(output);
  }
}
