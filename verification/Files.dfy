/** Logical files and the order of their relative paths. */
module Files {
  import opened Common

  type Component = string

  /** A relative path, as its components. */
  type Path = seq<Component>

  datatype HashAlgorithm = Sha256 | XxHash3 | Blake3

  datatype FileRecord = FileRecord(
    id: nat,
    path: Path,
    size: u64,
    algorithm: HashAlgorithm,
    digest: string)

  /** Bytewise order of components, from position `i` on. */
  predicate ComponentLe(a: Component, b: Component, i: nat)
    requires i <= |a| && i <= |b|
    decreases |a| - i
  {
    if i == |a| then true
    else if i == |b| then false
    else if a[i] == b[i] then ComponentLe(a, b, i + 1)
    else a[i] < b[i]
  }

  /** Paths compare component by component, from position `i` on. */
  predicate PathLeFrom(a: Path, b: Path, i: nat)
    requires i <= |a| && i <= |b|
    decreases |a| - i
  {
    if i == |a| then true
    else if i == |b| then false
    else if a[i] == b[i] then PathLeFrom(a, b, i + 1)
    else ComponentLe(a[i], b[i], 0)
  }

  predicate PathLe(a: Path, b: Path) {
    PathLeFrom(a, b, 0)
  }

  lemma {:induction false} ComponentTotal(a: Component, b: Component, i: nat)
    requires i <= |a| && i <= |b|
    ensures ComponentLe(a, b, i) || ComponentLe(b, a, i)
    decreases |a| - i
  {
    if i < |a| && i < |b| && a[i] == b[i] {
      ComponentTotal(a, b, i + 1);
    }
  }

  lemma {:induction false} ComponentAntisymmetric(a: Component, b: Component, i: nat)
    requires i <= |a| && i <= |b| && a[..i] == b[..i]
    requires ComponentLe(a, b, i) && ComponentLe(b, a, i)
    ensures a == b
    decreases |a| - i
  {
    if i < |a| && i < |b| {
      assert a[..i + 1] == a[..i] + [a[i]] == b[..i] + [b[i]] == b[..i + 1];
      ComponentAntisymmetric(a, b, i + 1);
    } else {
      assert a == a[..i] && b == b[..i];
    }
  }

  lemma {:induction false} ComponentTransitive(a: Component, b: Component, c: Component, i: nat)
    requires i <= |a| && i <= |b| && i <= |c|
    requires ComponentLe(a, b, i) && ComponentLe(b, c, i)
    ensures ComponentLe(a, c, i)
    decreases |a| - i
  {
    if i < |a| && i < |b| && i < |c| && a[i] == b[i] == c[i] {
      ComponentTransitive(a, b, c, i + 1);
    }
  }

  lemma {:induction false} PathFromTotal(a: Path, b: Path, i: nat)
    requires i <= |a| && i <= |b|
    ensures PathLeFrom(a, b, i) || PathLeFrom(b, a, i)
    decreases |a| - i
  {
    if i < |a| && i < |b| {
      if a[i] == b[i] {
        PathFromTotal(a, b, i + 1);
      } else {
        ComponentTotal(a[i], b[i], 0);
      }
    }
  }

  lemma {:induction false} PathFromAntisymmetric(a: Path, b: Path, i: nat)
    requires i <= |a| && i <= |b| && a[..i] == b[..i]
    requires PathLeFrom(a, b, i) && PathLeFrom(b, a, i)
    ensures a == b
    decreases |a| - i
  {
    if i < |a| && i < |b| {
      if a[i] != b[i] {
        ComponentAntisymmetric(a[i], b[i], 0);
      }
      assert a[..i + 1] == a[..i] + [a[i]] == b[..i] + [b[i]] == b[..i + 1];
      PathFromAntisymmetric(a, b, i + 1);
    } else {
      assert a == a[..i] && b == b[..i];
    }
  }

  lemma {:induction false} PathFromTransitive(a: Path, b: Path, c: Path, i: nat)
    requires i <= |a| && i <= |b| && i <= |c|
    requires PathLeFrom(a, b, i) && PathLeFrom(b, c, i)
    ensures PathLeFrom(a, c, i)
    decreases |a| - i
  {
    if i < |a| && i < |b| && i < |c| {
      if a[i] == b[i] == c[i] {
        PathFromTransitive(a, b, c, i + 1);
      } else if a[i] != b[i] && b[i] != c[i] {
        ComponentTransitive(a[i], b[i], c[i], 0);
        if a[i] == c[i] {
          ComponentAntisymmetric(a[i], b[i], 0);
        }
      }
    }
  }

  /** Paths are totally ordered. */
  lemma PathOrder(a: Path, b: Path, c: Path)
    ensures PathLe(a, b) || PathLe(b, a)
    ensures PathLe(a, b) && PathLe(b, a) ==> a == b
    ensures PathLe(a, b) && PathLe(b, c) ==> PathLe(a, c)
  {
    PathFromTotal(a, b, 0);
    if PathLe(a, b) && PathLe(b, a) {
      PathFromAntisymmetric(a, b, 0);
    }
    if PathLe(a, b) && PathLe(b, c) {
      PathFromTransitive(a, b, c, 0);
    }
  }

  ghost predicate SortedByPath(files: seq<FileRecord>) {
    forall i, j :: 0 <= i < j < |files| ==> PathLe(files[i].path, files[j].path)
  }

  /** Inserts a file behind every file whose path is not greater. */
  function Insert(sorted: seq<FileRecord>, file: FileRecord): seq<FileRecord> {
    if sorted == [] || PathLe(sorted[|sorted| - 1].path, file.path) then sorted + [file]
    else Insert(sorted[..|sorted| - 1], file) + [sorted[|sorted| - 1]]
  }

  /** The stable sort by path of the first `n` files. */
  function SortUpTo(files: seq<FileRecord>, n: nat): seq<FileRecord>
    requires n <= |files|
  {
    if n == 0 then [] else Insert(SortUpTo(files, n - 1), files[n - 1])
  }

  function SortByPath(files: seq<FileRecord>): seq<FileRecord> {
    SortUpTo(files, |files|)
  }

  lemma {:induction false} InsertPermutes(sorted: seq<FileRecord>, file: FileRecord)
    ensures multiset(Insert(sorted, file)) == multiset(sorted) + multiset{file}
  {
    if sorted != [] && !PathLe(sorted[|sorted| - 1].path, file.path) {
      InsertPermutes(sorted[..|sorted| - 1], file);
      assert sorted == sorted[..|sorted| - 1] + [sorted[|sorted| - 1]];
    }
  }

  lemma {:induction false} InsertSorts(sorted: seq<FileRecord>, file: FileRecord)
    requires SortedByPath(sorted)
    ensures SortedByPath(Insert(sorted, file))
  {
    if sorted == [] {
    } else {
      var last := sorted[|sorted| - 1];
      if PathLe(last.path, file.path) {
        forall i | 0 <= i < |sorted|
          ensures PathLe(sorted[i].path, file.path)
        {
          PathOrder(sorted[i].path, last.path, file.path);
        }
      } else {
        var front := sorted[..|sorted| - 1];
        InsertSorts(front, file);
        InsertPermutes(front, file);
        var inserted := Insert(front, file);
        PathOrder(last.path, file.path, file.path);
        forall i | 0 <= i < |inserted|
          ensures PathLe(inserted[i].path, last.path)
        {
          assert inserted[i] in multiset(front) + multiset{file};
          assert inserted[i] in front || inserted[i] == file;
        }
      }
    }
  }

  lemma {:induction false} SortUpToCorrect(files: seq<FileRecord>, n: nat)
    requires n <= |files|
    ensures SortedByPath(SortUpTo(files, n))
    ensures multiset(SortUpTo(files, n)) == multiset(files[..n])
  {
    hide SortedByPath, Insert;
    if n == 0 {
      NothingSorted();
    } else {
      SortUpToCorrect(files, n - 1);
      InsertSorts(SortUpTo(files, n - 1), files[n - 1]);
      InsertPermutes(SortUpTo(files, n - 1), files[n - 1]);
      TakeOneMore(files, n);
    }
  }

  lemma TakeOneMore<T>(s: seq<T>, n: nat)
    requires 0 < n <= |s|
    ensures multiset(s[..n]) == multiset(s[..n - 1]) + multiset{s[n - 1]}
  {
    assert s[..n] == s[..n - 1] + [s[n - 1]];
  }

  lemma NothingSorted()
    ensures SortedByPath([])
  {
  }

  lemma SortCorrect(files: seq<FileRecord>)
    ensures SortedByPath(SortByPath(files))
    ensures multiset(SortByPath(files)) == multiset(files)
    ensures |SortByPath(files)| == |files|
  {
    SortUpToCorrect(files, |files|);
    assert files[..|files|] == files;
    assert |multiset(SortByPath(files))| == |multiset(files)|;
  }

  ghost predicate DistinctPaths(files: seq<FileRecord>) {
    forall i, j :: 0 <= i < j < |files| ==> files[i].path != files[j].path
  }

  lemma LastIsGreatest(a: seq<FileRecord>, y: FileRecord)
    requires SortedByPath(a) && y in a
    ensures PathLe(y.path, a[|a| - 1].path)
  {
    var i :| 0 <= i < |a| && a[i] == y;
    PathOrder(y.path, y.path, y.path);
    assert i < |a| - 1 ==> PathLe(a[i].path, a[|a| - 1].path);
  }

  lemma SamePathSameFile(a: seq<FileRecord>, x: FileRecord, y: FileRecord)
    requires DistinctPaths(a) && x in a && y in a && x.path == y.path
    ensures x == y
  {
    var i :| 0 <= i < |a| && a[i] == x;
    var j :| 0 <= j < |a| && a[j] == y;
    assert !(i < j) && !(j < i);
  }

  lemma FrontOf(a: seq<FileRecord>)
    requires a != []
    ensures var front := a[..|a| - 1];
      && a == front + [a[|a| - 1]]
      && multiset(front) == multiset(a) - multiset{a[|a| - 1]}
      && (SortedByPath(a) ==> SortedByPath(front))
      && (DistinctPaths(a) ==> DistinctPaths(front))
  {
    assert a == a[..|a| - 1] + [a[|a| - 1]];
  }

  /** Distinct paths leave only one sorted arrangement. */
  lemma {:induction false} SortedUnique(a: seq<FileRecord>, b: seq<FileRecord>)
    requires SortedByPath(a) && SortedByPath(b) && multiset(a) == multiset(b)
    requires DistinctPaths(a)
    ensures a == b
    decreases |a|
  {
    hide SortedByPath, DistinctPaths, PathLe;
    assert |multiset(a)| == |multiset(b)|;
    if a == [] {
    } else {
      var x, y := a[|a| - 1], b[|b| - 1];
      assert x in multiset(b) && y in multiset(a);
      LastIsGreatest(a, y);
      LastIsGreatest(b, x);
      PathOrder(x.path, y.path, y.path);
      SamePathSameFile(a, x, y);
      FrontOf(a);
      FrontOf(b);
      SortedUnique(a[..|a| - 1], b[..|b| - 1]);
    }
  }
}
