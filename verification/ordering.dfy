/**
 * The order Python's `sorted` puts paths in: a path compares as the list of
 * its segments, lists compare element by element (a proper prefix first),
 * and segments compare as strings, character code by character code.
 */
module Ordering {

  /** A path relative to some root, as its sequence of segments. */
  type Path = seq<string>

  /** Lexicographic extension of an element order to sequences. */
  predicate LexLess<T(==)>(a: seq<T>, b: seq<T>, less: (T, T) -> bool)
  {
    if |a| == 0 then |b| > 0
    else if |b| == 0 then false
    else if a[0] != b[0] then less(a[0], b[0])
    else LexLess(a[1..], b[1..], less)
  }

  ghost predicate Irreflexive<T(!new)>(less: (T, T) -> bool)
  {
    forall x :: !less(x, x)
  }

  ghost predicate Transitive<T(!new)>(less: (T, T) -> bool)
  {
    forall x, y, z :: less(x, y) && less(y, z) ==> less(x, z)
  }

  ghost predicate Connected<T(!new)>(less: (T, T) -> bool)
  {
    forall x, y :: x != y ==> less(x, y) || less(y, x)
  }

  ghost predicate StrictTotalOrder<T(!new)>(less: (T, T) -> bool)
  {
    Irreflexive(less) && Transitive(less) && Connected(less)
  }

  lemma {:induction false} LexIrreflexive<T(!new)>(a: seq<T>, less: (T, T) -> bool)
    requires Irreflexive(less)
    ensures !LexLess(a, a, less)
    decreases |a|
  {
    if |a| > 0 {
      LexIrreflexive(a[1..], less);
    }
  }

  lemma {:induction false} LexTransitive<T(!new)>(a: seq<T>, b: seq<T>, c: seq<T>, less: (T, T) -> bool)
    requires Irreflexive(less) && Transitive(less)
    requires LexLess(a, b, less) && LexLess(b, c, less)
    ensures LexLess(a, c, less)
    decreases |a|
  {
    if |a| > 0 && |c| > 0 && a[0] == b[0] && b[0] == c[0] {
      LexTransitive(a[1..], b[1..], c[1..], less);
    }
  }

  lemma {:induction false} LexConnected<T(!new)>(a: seq<T>, b: seq<T>, less: (T, T) -> bool)
    requires Connected(less)
    requires a != b
    ensures LexLess(a, b, less) || LexLess(b, a, less)
    decreases |a|
  {
    if |a| > 0 && |b| > 0 && a[0] == b[0] {
      assert a == [a[0]] + a[1..] && b == [b[0]] + b[1..];
      LexConnected(a[1..], b[1..], less);
    }
  }

  function CharLess(x: char, y: char): bool
  {
    x < y
  }

  /** Python's `<` on strings. */
  predicate StrLess(a: string, b: string)
  {
    LexLess(a, b, CharLess)
  }

  /** Python's `<` on relative POSIX paths. */
  predicate PathLess(a: Path, b: Path)
  {
    LexLess(a, b, StrLess)
  }

  /** String comparison is a strict total order. */
  lemma StrLessIsStrictTotalOrder()
    ensures StrictTotalOrder(StrLess)
  {
    assert Irreflexive(CharLess) && Transitive(CharLess) && Connected(CharLess);
    forall a: string ensures !StrLess(a, a) {
      LexIrreflexive(a, CharLess);
    }
    forall a: string, b: string, c: string | StrLess(a, b) && StrLess(b, c) ensures StrLess(a, c) {
      LexTransitive(a, b, c, CharLess);
    }
    forall a: string, b: string | a != b ensures StrLess(a, b) || StrLess(b, a) {
      LexConnected(a, b, CharLess);
    }
  }

  /** Path comparison is a strict total order. */
  lemma PathLessIsStrictTotalOrder()
    ensures StrictTotalOrder(PathLess)
  {
    StrLessIsStrictTotalOrder();
    forall a: Path ensures !PathLess(a, a) {
      LexIrreflexive(a, StrLess);
    }
    forall a: Path, b: Path, c: Path | PathLess(a, b) && PathLess(b, c) ensures PathLess(a, c) {
      LexTransitive(a, b, c, StrLess);
    }
    forall a: Path, b: Path | a != b ensures PathLess(a, b) || PathLess(b, a) {
      LexConnected(a, b, StrLess);
    }
  }

  /** Strictly increasing: sorted and free of duplicates at once. */
  predicate StrictlySorted(r: seq<Path>)
  {
    forall i, j :: 0 <= i < j < |r| ==> PathLess(r[i], r[j])
  }

  predicate IsLeast(m: Path, s: set<Path>)
  {
    m in s && forall x :: x in s && x != m ==> PathLess(m, x)
  }

  lemma {:induction false} LeastExists(s: set<Path>)
    requires s != {}
    ensures exists m :: IsLeast(m, s)
    decreases |s|
  {
    var x :| x in s;
    if s != {x} {
      var rest := s - {x};
      LeastExists(rest);
      var m :| IsLeast(m, rest);
      PathLessIsStrictTotalOrder();
      if PathLess(x, m) {
        forall y | y in s && y != x ensures PathLess(x, y) {
          if y != m {
            assert PathLess(m, y);
          }
        }
        assert IsLeast(x, s);
      } else {
        assert IsLeast(m, s);
      }
    } else {
      assert IsLeast(x, s);
    }
  }

  /** Python's `sorted(s)` for a set of paths. */
  function SortPaths(s: set<Path>): (r: seq<Path>)
    ensures StrictlySorted(r)
    ensures forall p :: p in r <==> p in s
    ensures |r| == |s|
    decreases |s|
  {
    if s == {} then []
    else
      LeastExists(s);
      LeastUnique(s);
      var m :| IsLeast(m, s);
      var rest := SortPaths(s - {m});
      LeastBeforeSorted(m, s, rest);
      [m] + rest
  }

  /** A set has at most one least element. */
  lemma LeastUnique(s: set<Path>)
    ensures forall m, m' :: IsLeast(m, s) && IsLeast(m', s) ==> m == m'
  {
    forall m, m' | IsLeast(m, s) && IsLeast(m', s) ensures m == m' {
      PathLessIsStrictTotalOrder();
      assert !(PathLess(m, m') && PathLess(m', m));
    }
  }

  /** The least element put in front of a sorted listing of the others keeps it sorted. */
  lemma LeastBeforeSorted(m: Path, s: set<Path>, rest: seq<Path>)
    requires IsLeast(m, s)
    requires StrictlySorted(rest)
    requires forall p :: p in rest ==> p in s - {m}
    ensures StrictlySorted([m] + rest)
  {
    var r := [m] + rest;
    forall i, j | 0 <= i < j < |r| ensures PathLess(r[i], r[j]) {
      assert r[j] == rest[j - 1] && rest[j - 1] in rest;
      if i > 0 {
        assert r[i] == rest[i - 1];
      }
    }
  }

  /** A strictly sorted sequence never lists the same path twice. */
  lemma StrictlySortedHasNoDuplicates(r: seq<Path>)
    requires StrictlySorted(r)
    ensures forall i, j :: 0 <= i < |r| && 0 <= j < |r| && i != j ==> r[i] != r[j]
  {
    PathLessIsStrictTotalOrder();
    forall i, j | 0 <= i < |r| && 0 <= j < |r| && i != j ensures r[i] != r[j] {
      if i < j {
        assert PathLess(r[i], r[j]);
      } else {
        assert PathLess(r[j], r[i]);
      }
    }
  }

  /** The head of a strictly sorted sequence precedes every other member. */
  lemma HeadPrecedesRest(a: seq<Path>)
    requires StrictlySorted(a) && a != []
    ensures forall x :: x in a ==> x == a[0] || PathLess(a[0], x)
  {
    forall x | x in a ensures x == a[0] || PathLess(a[0], x) {
      var i :| 0 <= i < |a| && a[i] == x;
      assert i == 0 || PathLess(a[0], a[i]);
    }
  }

  /**
   * Sorting is determined by the members: two strictly sorted sequences with
   * the same members are equal, so `SortPaths` is the only such listing.
   */
  lemma {:induction false} StrictlySortedDetermined(a: seq<Path>, b: seq<Path>)
    requires StrictlySorted(a) && StrictlySorted(b)
    requires forall p :: p in a <==> p in b
    ensures a == b
    decreases |a|
  {
    assert forall i :: 0 <= i < |a| ==> a[i] in b;
    assert forall i :: 0 <= i < |b| ==> b[i] in a;
    if a != [] && b != [] {
      PathLessIsStrictTotalOrder();
      HeadPrecedesRest(a);
      HeadPrecedesRest(b);
      assert a[0] in b && b[0] in a;
      assert a[0] == b[0];
      forall p ensures p in a[1..] <==> p in b[1..] {
        if p in a[1..] {
          var i :| 0 <= i < |a[1..]| && a[1..][i] == p;
          assert PathLess(a[0], a[i + 1]);
        }
        if p in b[1..] {
          var i :| 0 <= i < |b[1..]| && b[1..][i] == p;
          assert PathLess(b[0], b[i + 1]);
        }
      }
      StrictlySortedDetermined(a[1..], b[1..]);
      assert a == [a[0]] + a[1..] && b == [b[0]] + b[1..];
    }
  }
}
