/** The client's restore of a verified dataset into an empty folder. */
module Restore {
  import opened Common
  import opened Files
  import opened PackFormat
  import opened PackCodec
  import opened TransportPlan
  import opened Manifest
  import opened ObjectContents
  import opened Names
  import ManifestLaws

  // ---- The client's folder ----

  /** `inner` lies below `outer`, so that both cannot be files. */
  predicate Below(outer: string, inner: string) {
    |outer| < |inner| && inner[..|outer|] == outer && inner[|outer|] == '/'
  }

  ghost predicate NoClash(names: set<string>) {
    forall a, b :: a in names && b in names ==> !Below(a, b)
  }

  class Folder {
    var files: map<string, seq<byte>>

    constructor ()
      ensures files == map[]
    {
      files := map[];
    }

    /** Creates or replaces a file, unless a file stands where one of its folders must be or it
        is itself a folder. */
    method Write(path: string, content: seq<byte>) returns (ok: bool)
      modifies this
      ensures ok <==> forall q :: q in old(files) ==> !Below(q, path) && !Below(path, q)
      ensures files == if ok then old(files)[path := content] else old(files)
    {
      if exists q :: q in files.Keys && (Below(q, path) || Below(path, q)) {
        return false;
      }
      files := files[path := content];
      return true;
    }
  }

  /** The client's path check; unlike the Registry's it takes drive letters and any length. */
  predicate SafePath(value: string) {
    && value != "" && '\\' !in value && '\0' !in value
    && forall k :: 0 <= k < |Split(value)| ==> Split(value)[k] != "" && Split(value)[k] != "." && Split(value)[k] != ".."
  }

  /** The client writes exactly to names that go one folder down with every component, and so never
      outside the folder it restores into. */
  lemma SafePathDescends(value: string)
    ensures SafePath(value) <==> Descends(value) && '\\' !in value && '\0' !in value
  {
    ManifestLaws.SplitDescends(value);
    hide SplitFrom;
    if value == "" {
      assert Walk(value, 0, "", 0) == Some(0);
    }
    assert forall k :: 0 <= k < |Split(value)| ==>
      (ManifestLaws.Proper(Split(value)[k]) <==> Split(value)[k] != "" && Split(value)[k] != "." && Split(value)[k] != "..");
  }

  function PathsOf(files: seq<ManifestFile>, n: nat): set<string>
    requires n <= |files|
  {
    set i | 0 <= i < n :: files[i].path
  }

  /** `after` is `before` with the pieces of these files written. */
  ghost predicate Wrote(before: map<string, seq<byte>>, after: map<string, seq<byte>>,
                        files: seq<ManifestFile>, pieces: seq<Piece>) {
    && after.Keys == before.Keys + PathsOf(files, |files|)
    && (forall q :: q in before && q !in PathsOf(files, |files|) ==> after[q] == before[q])
    && (forall j :: 0 <= j < |files| ==>
          files[j].memberIndex < |pieces| && files[j].path in after
          && after[files[j].path] == pieces[files[j].memberIndex].content)
  }

  ghost predicate AllSafe(files: seq<ManifestFile>) {
    forall i :: 0 <= i < |files| ==> SafePath(files[i].path)
  }

  // ---- Restoring one object ----

  /** Checks and writes one file; the content is verified after it is written. */
  method RestoreFile(hash: Hash, piece: Piece, file: ManifestFile, seen: nat, folder: Folder) returns (ok: bool)
    requires NoClash(folder.files.Keys)
    modifies folder
    ensures ok <==>
      && PieceFits(hash, piece, file) && file.memberIndex == seen && SafePath(file.path)
      && NoClash(old(folder.files).Keys + {file.path})
    ensures ok ==> folder.files == old(folder.files)[file.path := piece.content]
  {
    if piece.header.Some? && !HeaderFits(piece.header.value, file) {
      return false;
    }
    if file.memberIndex != seen || !SafePath(file.path) {
      return false;
    }
    var written := folder.Write(file.path, piece.content);
    if !written {
      return false;
    }
    return ContentFits(hash, piece.content, file);
  }

  /** Restores the files of one object, which stand in member order. */
  method RestoreObject(hash: Hash, parse: Parser, kind: Kind, sorted: seq<ManifestFile>, bytes: seq<byte>,
                       folder: Folder, ghost files: seq<ManifestFile>)
    returns (ok: bool)
    requires Arranged(sorted, files) && DistinctEntries(files) && NoClash(folder.files.Keys)
    modifies folder
    ensures ok <==>
      && ObjectFits(hash, parse, NO_LIMITS, kind, files, bytes) && AllSafe(files)
      && NoClash(old(folder.files).Keys + PathsOf(files, |files|))
    ensures ok ==>
      && Pieces(parse, NO_LIMITS, kind, bytes).Some?
      && Wrote(old(folder.files), folder.files, files, Pieces(parse, NO_LIMITS, kind, bytes).value)
  {
    hide Decode, PieceFits, SafePath;
    ghost var before := folder.files;
    var pieces: seq<Piece> := [Piece(None, bytes)];
    if kind == PackObject {
      var members := DecodePack(parse, bytes);
      if members.None? {
        return false;
      }
      pieces := PiecesOfPack(members.value);
    }
    assert Pieces(parse, NO_LIMITS, kind, bytes) == Some(pieces);
    EntriesStayDistinct(sorted, files);
    ok := RestorePieces(hash, pieces, sorted, folder);
    RestoreRearranged(hash, before, folder.files, sorted, files, pieces);
  }

  /** All that the code demands of the pieces and the files in member order. */
  ghost predicate PiecesRestore(hash: Hash, pieces: seq<Piece>, sorted: seq<ManifestFile>, names: set<string>) {
    && |pieces| == |sorted| && InPlace(sorted)
    && (forall i :: 0 <= i < |sorted| ==> PieceFits(hash, pieces[i], sorted[i]))
    && AllSafe(sorted) && NoClash(names + PathsOf(sorted, |sorted|))
  }

  /** The first `n` files fit, stand in place and are safe. */
  ghost predicate FirstRestore(hash: Hash, pieces: seq<Piece>, sorted: seq<ManifestFile>, n: nat)
    requires n <= |pieces| && n <= |sorted|
  {
    forall i :: 0 <= i < n ==>
      PieceFits(hash, pieces[i], sorted[i]) && sorted[i].memberIndex == i && SafePath(sorted[i].path)
  }

  /** `after` is `before` with the first `n` files written, and clashes nowhere. */
  ghost predicate WroteFirst(before: map<string, seq<byte>>, after: map<string, seq<byte>>,
                             sorted: seq<ManifestFile>, pieces: seq<Piece>, n: nat)
    requires n <= |pieces| && n <= |sorted|
  {
    && after.Keys == before.Keys + PathsOf(sorted, n) && NoClash(after.Keys)
    && (forall q :: q in before && q !in PathsOf(sorted, n) ==> after[q] == before[q])
    && (forall j :: 0 <= j < n ==> sorted[j].path in after && after[sorted[j].path] == pieces[j].content)
  }

  lemma WroteOneMore(before: map<string, seq<byte>>, after: map<string, seq<byte>>,
                     sorted: seq<ManifestFile>, pieces: seq<Piece>, n: nat)
    requires n < |pieces| && n < |sorted| && DistinctEntries(sorted)
    requires WroteFirst(before, after, sorted, pieces, n) && NoClash(after.Keys + {sorted[n].path})
    ensures WroteFirst(before, after[sorted[n].path := pieces[n].content], sorted, pieces, n + 1)
  {
    PathsGrow(sorted, n);
    hide NoClash, PathsOf;
    var path, later := sorted[n].path, after[sorted[n].path := pieces[n].content];
    assert later.Keys == after.Keys + {path} == before.Keys + PathsOf(sorted, n + 1);
    forall q | q in before && q !in PathsOf(sorted, n + 1)
      ensures later[q] == before[q]
    {
      assert q != path && after[q] == before[q];
    }
    forall j | 0 <= j < n
      ensures sorted[j].path in later && later[sorted[j].path] == pieces[j].content
    {
      assert sorted[j].path != path;
    }
  }

  method RestorePieces(hash: Hash, pieces: seq<Piece>, sorted: seq<ManifestFile>, folder: Folder) returns (ok: bool)
    requires NoClash(folder.files.Keys) && DistinctEntries(sorted)
    modifies folder
    ensures ok <==> PiecesRestore(hash, pieces, sorted, old(folder.files).Keys)
    ensures ok ==> Wrote(old(folder.files), folder.files, sorted, pieces)
  {
    ghost var before := folder.files;
    assert WroteFirst(before, before, sorted, pieces, 0);
    hide PieceFits, SafePath, WroteFirst, FirstRestore, PiecesRestore, DistinctEntries, NoClash, PathsOf, Wrote;
    var seen := 0;
    FirstRestoreGrows(hash, pieces, sorted, 0);
    while seen < |pieces|
      invariant 0 <= seen <= |pieces| && seen <= |sorted|
      invariant WroteFirst(before, folder.files, sorted, pieces, seen)
      invariant FirstRestore(hash, pieces, sorted, seen)
    {
      if seen >= |sorted| {
        TooManyPieces(hash, pieces, sorted, before.Keys);
        return false;
      }
      KeysSoFar(before, folder.files, sorted, pieces, seen);
      ghost var soFar := folder.files;
      var restored := RestoreFile(hash, pieces[seen], sorted[seen], seen, folder);
      if !restored {
        StopsHere(hash, pieces, sorted, before, soFar, seen);
        return false;
      }
      WroteOneMore(before, soFar, sorted, pieces, seen);
      FirstRestoreGrows(hash, pieces, sorted, seen);
      seen := seen + 1;
    }
    if seen != |sorted| {
      TooManyPieces(hash, pieces, sorted, before.Keys);
      return false;
    }
    AllRestored(hash, pieces, sorted, before, folder.files);
    return true;
  }

  lemma FirstRestoreGrows(hash: Hash, pieces: seq<Piece>, sorted: seq<ManifestFile>, n: nat)
    requires n <= |pieces| && n <= |sorted|
    ensures FirstRestore(hash, pieces, sorted, 0)
    ensures FirstRestore(hash, pieces, sorted, n) && n < |pieces| && n < |sorted|
      && PieceFits(hash, pieces[n], sorted[n]) && sorted[n].memberIndex == n && SafePath(sorted[n].path)
      ==> FirstRestore(hash, pieces, sorted, n + 1)
  {
    hide PieceFits, SafePath;
  }

  lemma TooManyPieces(hash: Hash, pieces: seq<Piece>, sorted: seq<ManifestFile>, names: set<string>)
    requires |pieces| != |sorted|
    ensures !PiecesRestore(hash, pieces, sorted, names)
  {
  }

  lemma KeysSoFar(before: map<string, seq<byte>>, after: map<string, seq<byte>>,
                  sorted: seq<ManifestFile>, pieces: seq<Piece>, n: nat)
    requires n <= |pieces| && n <= |sorted| && WroteFirst(before, after, sorted, pieces, n)
    ensures NoClash(after.Keys)
  {
  }

  lemma StopsHere(hash: Hash, pieces: seq<Piece>, sorted: seq<ManifestFile>, before: map<string, seq<byte>>,
                  after: map<string, seq<byte>>, n: nat)
    requires n < |pieces| && n < |sorted| && WroteFirst(before, after, sorted, pieces, n)
    requires !(PieceFits(hash, pieces[n], sorted[n]) && sorted[n].memberIndex == n && SafePath(sorted[n].path)
               && NoClash(after.Keys + {sorted[n].path}))
    ensures !PiecesRestore(hash, pieces, sorted, before.Keys)
  {
    hide PieceFits, SafePath;
    PathsGrow(sorted, n);
    MoreNamesClash(after.Keys + {sorted[n].path}, before.Keys + PathsOf(sorted, |sorted|));
  }

  lemma AllRestored(hash: Hash, pieces: seq<Piece>, sorted: seq<ManifestFile>, before: map<string, seq<byte>>,
                    after: map<string, seq<byte>>)
    requires |pieces| == |sorted| && WroteFirst(before, after, sorted, pieces, |sorted|)
    requires FirstRestore(hash, pieces, sorted, |sorted|)
    ensures PiecesRestore(hash, pieces, sorted, before.Keys) && Wrote(before, after, sorted, pieces)
  {
    hide PieceFits, SafePath, NoClash;
  }

  lemma PathsGrow(files: seq<ManifestFile>, n: nat)
    requires n < |files|
    ensures PathsOf(files, n + 1) == PathsOf(files, n) + {files[n].path}
    ensures PathsOf(files, n + 1) <= PathsOf(files, |files|)
  {
  }

  lemma MoreNamesClash(some: set<string>, all: set<string>)
    requires some <= all
    ensures NoClash(all) ==> NoClash(some)
  {
  }

  /** What holds in member order holds in any order. */
  lemma RestoreRearranged(hash: Hash, before: map<string, seq<byte>>, after: map<string, seq<byte>>,
                          sorted: seq<ManifestFile>, files: seq<ManifestFile>, pieces: seq<Piece>)
    requires Arranged(sorted, files) && DistinctEntries(files)
    ensures PiecesRestore(hash, pieces, sorted, before.Keys) <==>
      && Contiguous(files) && AllPiecesFit(hash, pieces, files) && AllSafe(files)
      && NoClash(before.Keys + PathsOf(files, |files|))
    ensures Wrote(before, after, sorted, pieces) ==> Wrote(before, after, files, pieces)
  {
    hide PieceFits, SafePath, NoClash;
    SameElements(sorted, files);
    ArrangedInPlace(sorted, files);
    if InPlace(sorted) {
      FitInPlace(hash, pieces, sorted, files);
    }
    SamePaths(sorted, files);
    SameSafety(sorted, files);
    WroteRearranged(before, after, sorted, files, pieces);
  }

  lemma SamePaths(a: seq<ManifestFile>, b: seq<ManifestFile>)
    requires forall x :: x in a <==> x in b
    ensures PathsOf(a, |a|) == PathsOf(b, |b|)
  {
    forall p
      ensures p in PathsOf(a, |a|) <==> p in PathsOf(b, |b|)
    {
      if p in PathsOf(a, |a|) {
        var i :| 0 <= i < |a| && a[i].path == p;
        assert a[i] in b;
      }
      if p in PathsOf(b, |b|) {
        var i :| 0 <= i < |b| && b[i].path == p;
        assert b[i] in a;
      }
    }
  }

  lemma SameSafety(a: seq<ManifestFile>, b: seq<ManifestFile>)
    requires forall x :: x in a <==> x in b
    ensures AllSafe(a) <==> AllSafe(b)
  {
    hide SafePath;
    if AllSafe(a) {
      forall i | 0 <= i < |b|
        ensures SafePath(b[i].path)
      {
        assert b[i] in a;
      }
    }
    if AllSafe(b) {
      forall i | 0 <= i < |a|
        ensures SafePath(a[i].path)
      {
        assert a[i] in b;
      }
    }
  }

  lemma {:induction false} EntryCountsOne(files: seq<ManifestFile>, file: ManifestFile)
    requires DistinctEntries(files)
    ensures multiset(files)[file] <= 1
  {
    if files == [] {
    } else {
      var last, front := files[|files| - 1], files[..|files| - 1];
      assert files == front + [last];
      EntryCountsOne(front, file);
      assert last !in front;
    }
  }

  lemma SamePathSameEntry(files: seq<ManifestFile>, x: ManifestFile, y: ManifestFile)
    requires DistinctEntries(files) && x in files && y in files && x.path == y.path
    ensures x == y
  {
    var i :| 0 <= i < |files| && files[i] == x;
    var j :| 0 <= j < |files| && files[j] == y;
    assert !(i < j) && !(j < i);
  }

  lemma EntriesStayDistinct(sorted: seq<ManifestFile>, files: seq<ManifestFile>)
    requires multiset(sorted) == multiset(files) && DistinctEntries(files)
    ensures DistinctEntries(sorted)
  {
    SameElements(sorted, files);
    forall i, j | 0 <= i < j < |sorted|
      ensures sorted[i].path != sorted[j].path
    {
      if sorted[i].path == sorted[j].path {
        SamePathSameEntry(files, sorted[i], sorted[j]);
        assert sorted == sorted[..i] + [sorted[i]] + sorted[i + 1..j] + [sorted[j]] + sorted[j + 1..];
        assert multiset(sorted)[sorted[i]] >= 2;
        EntryCountsOne(files, sorted[i]);
      }
    }
  }

  lemma WroteRearranged(before: map<string, seq<byte>>, after: map<string, seq<byte>>,
                        sorted: seq<ManifestFile>, files: seq<ManifestFile>, pieces: seq<Piece>)
    requires Arranged(sorted, files)
    ensures Wrote(before, after, sorted, pieces) ==> Wrote(before, after, files, pieces)
  {
    SameElements(sorted, files);
    SamePaths(sorted, files);
    if Wrote(before, after, sorted, pieces) {
      forall j | 0 <= j < |files|
        ensures files[j].memberIndex < |pieces| && files[j].path in after
        ensures after[files[j].path] == pieces[files[j].memberIndex].content
      {
        assert files[j] in sorted;
      }
    }
  }

  // ---- Restoring a dataset ----

  type Lowercase = string -> string

  ghost predicate DistinctLower(lower: Lowercase, files: seq<ManifestFile>) {
    forall i, j :: 0 <= i < j < |files| ==> lower(files[i].path) != lower(files[j].path)
  }

  type Store = map<ObjectId, seq<byte>>

  /** Object `k` has files, was downloaded, and fits them. */
  ghost predicate ObjectRestorable(hash: Hash, parse: Parser, m: TransferManifest, store: Store, k: nat)
    requires k < |m.objects|
  {
    && FilesOf(m, k) != [] && m.objects[k].id in store
    && ObjectFits(hash, parse, NO_LIMITS, m.objects[k].kind, FilesOf(m, k), store[m.objects[k].id])
  }

  /** What the client demands of the objects. */
  ghost predicate ObjectsRestorable(hash: Hash, parse: Parser, m: TransferManifest, store: Store) {
    && DistinctObjects(m.objects) && AllKnown(m.objects, m.files)
    && (forall k :: 0 <= k < |m.objects| ==> ObjectRestorable(hash, parse, m, store, k))
    && NoClash(PathsOf(m.files, |m.files|))
  }

  /** Exactly what the client demands of the manifest and of the downloaded objects. */
  ghost predicate Restorable(hash: Hash, parse: Parser, lower: Lowercase, m: TransferManifest, fileCount: nat, store: Store) {
    && |m.files| == fileCount && AllSafe(m.files) && DistinctLower(lower, m.files)
    && ObjectsRestorable(hash, parse, m, store)
  }

  /** The files of object `k` hold its pieces. */
  ghost predicate Holds(files: map<string, seq<byte>>, parse: Parser, m: TransferManifest, store: Store, k: nat)
    requires k < |m.objects| && m.objects[k].id in store
    requires Pieces(parse, NO_LIMITS, m.objects[k].kind, store[m.objects[k].id]).Some?
  {
    var pieces := Pieces(parse, NO_LIMITS, m.objects[k].kind, store[m.objects[k].id]).value;
    forall j :: 0 <= j < |FilesOf(m, k)| ==>
      var file := FilesOf(m, k)[j];
      file.memberIndex < |pieces| && file.path in files && files[file.path] == pieces[file.memberIndex].content
  }

  /** The names of the files of the first `k` objects. */
  function NamesUpTo(m: TransferManifest, k: nat): set<string>
    requires k <= |m.objects|
  {
    if k == 0 then {} else NamesUpTo(m, k - 1) + PathsOf(FilesOf(m, k - 1), |FilesOf(m, k - 1)|)
  }

  /** The first `k` objects are restored and nothing else is in the folder. */
  ghost predicate RestoredUpTo(files: map<string, seq<byte>>, hash: Hash, parse: Parser, m: TransferManifest,
                               store: Store, k: nat)
    requires k <= |m.objects|
  {
    && files.Keys == NamesUpTo(m, k) && NoClash(files.Keys)
    && forall j :: 0 <= j < k ==> ObjectRestorable(hash, parse, m, store, j) && Holds(files, parse, m, store, j)
  }

  /** The manifest's files, each with the content its object holds for it. */
  ghost predicate IsRestored(files: map<string, seq<byte>>, hash: Hash, parse: Parser, m: TransferManifest, store: Store) {
    && files.Keys == PathsOf(m.files, |m.files|)
    && forall k :: 0 <= k < |m.objects| ==> ObjectRestorable(hash, parse, m, store, k) && Holds(files, parse, m, store, k)
  }

  lemma LowerImpliesDistinct(lower: Lowercase, files: seq<ManifestFile>)
    requires DistinctLower(lower, files)
    ensures DistinctEntries(files)
  {
  }

  method RestoreDataset(hash: Hash, parse: Parser, lower: Lowercase, m: TransferManifest, fileCount: nat,
                        store: Store, folder: Folder)
    returns (ok: bool)
    requires folder.files == map[]
    modifies folder
    ensures ok <==> Restorable(hash, parse, lower, m, fileCount, store)
    ensures ok ==> IsRestored(folder.files, hash, parse, m, store)
  {
    hide AllSafe, DistinctLower, ObjectsRestorable, IsRestored;
    if |m.files| != fileCount {
      return false;
    }
    var checked := CheckPaths(lower, m.files);
    if !checked {
      return false;
    }
    LowerImpliesDistinct(lower, m.files);
    var byObject := GroupFiles(m.files);
    ok := RestoreObjects(hash, parse, m, byObject, store, folder);
  }

  method CheckPaths(lower: Lowercase, files: seq<ManifestFile>) returns (ok: bool)
    ensures ok <==> AllSafe(files) && DistinctLower(lower, files)
  {
    hide SafePath;
    var paths: set<string> := {};
    for i := 0 to |files|
      invariant forall p :: p in paths <==> exists j :: 0 <= j < i && lower(files[j].path) == p
      invariant forall j :: 0 <= j < i ==> SafePath(files[j].path)
      invariant forall j, k :: 0 <= j < k < i ==> lower(files[j].path) != lower(files[k].path)
    {
      if !SafePath(files[i].path) || lower(files[i].path) in paths {
        return false;
      }
      paths := paths + {lower(files[i].path)};
    }
    return true;
  }

  /** The files by object: exactly the objects that have files. */
  ghost predicate ByObject(byObject: map<ObjectId, seq<ManifestFile>>, files: seq<ManifestFile>, n: nat)
    requires n <= |files|
  {
    && (forall id :: id in byObject ==> byObject[id] == Filed(files, id, n))
    && (forall id :: id in byObject <==> Filed(files, id, n) != [])
  }

  lemma NothingGrouped(files: seq<ManifestFile>)
    ensures ByObject(map[], files, 0)
  {
  }

  lemma GroupOneMore(byObject: map<ObjectId, seq<ManifestFile>>, files: seq<ManifestFile>, n: nat)
    requires n < |files| && ByObject(byObject, files, n)
    ensures var id := files[n].objectId;
      var group := if id in byObject then byObject[id] else [];
      ByObject(byObject[id := group + [files[n]]], files, n + 1)
  {
  }

  method GroupFiles(files: seq<ManifestFile>) returns (byObject: map<ObjectId, seq<ManifestFile>>)
    ensures ByObject(byObject, files, |files|)
  {
    hide *;
    byObject := map[];
    NothingGrouped(files);
    for i := 0 to |files|
      invariant ByObject(byObject, files, i)
    {
      GroupOneMore(byObject, files, i);
      var id := files[i].objectId;
      var group := if id in byObject then byObject[id] else [];
      byObject := byObject[id := group + [files[i]]];
    }
  }

  /** The groups of the objects from the `k`-th on are left; those before were distinct. */
  ghost predicate Remaining(left: map<ObjectId, seq<ManifestFile>>, byObject: map<ObjectId, seq<ManifestFile>>,
                            m: TransferManifest, k: nat)
    requires k <= |m.objects|
  {
    && (forall id :: id in left <==> id in byObject && forall j :: 0 <= j < k ==> m.objects[j].id != id)
    && (forall id :: id in left ==> left[id] == byObject[id])
    && (forall i, j :: 0 <= i < j < k ==> m.objects[i].id != m.objects[j].id)
    && (forall j :: 0 <= j < k ==> m.objects[j].id in byObject)
  }

  function Removed(left: map<ObjectId, seq<ManifestFile>>, id: ObjectId): map<ObjectId, seq<ManifestFile>> {
    map other | other in left && other != id :: left[other]
  }

  lemma RemoveOne(left: map<ObjectId, seq<ManifestFile>>, byObject: map<ObjectId, seq<ManifestFile>>,
                  m: TransferManifest, k: nat)
    requires k < |m.objects| && Remaining(left, byObject, m, k) && m.objects[k].id in left
    ensures Remaining(Removed(left, m.objects[k].id), byObject, m, k + 1)
  {
  }

  /** Nothing is left exactly when every file's object is in the plan. */
  lemma NothingLeft(left: map<ObjectId, seq<ManifestFile>>, byObject: map<ObjectId, seq<ManifestFile>>, m: TransferManifest)
    requires Remaining(left, byObject, m, |m.objects|) && ByObject(byObject, m.files, |m.files|)
    ensures DistinctObjects(m.objects)
    ensures left == map[] <==> AllKnown(m.objects, m.files)
  {
    if left == map[] {
      forall i | 0 <= i < |m.files|
        ensures KnownObject(m.objects, m.files[i].objectId)
      {
        var id := m.files[i].objectId;
        FiledAre(m.files, id, |m.files|);
        assert id in byObject && id !in left;
      }
    }
    if AllKnown(m.objects, m.files) {
      forall id | id in byObject
        ensures KnownObject(m.objects, id)
      {
        GroupKnown(byObject, m, id);
      }
      assert forall id :: id !in left;
    }
  }

  lemma GroupKnown(byObject: map<ObjectId, seq<ManifestFile>>, m: TransferManifest, id: ObjectId)
    requires ByObject(byObject, m.files, |m.files|) && AllKnown(m.objects, m.files) && id in byObject
    ensures KnownObject(m.objects, id)
  {
    FiledAre(m.files, id, |m.files|);
    var x := Filed(m.files, id, |m.files|)[0];
    assert x in m.files;
    var i :| 0 <= i < |m.files| && m.files[i] == x;
    assert KnownObject(m.objects, m.files[i].objectId);
  }

  /** The object is new and has files, or else the plan is refused. */
  lemma MissingGroup(left: map<ObjectId, seq<ManifestFile>>, byObject: map<ObjectId, seq<ManifestFile>>,
                     m: TransferManifest, k: nat)
    requires k < |m.objects| && Remaining(left, byObject, m, k) && ByObject(byObject, m.files, |m.files|)
    requires m.objects[k].id !in left
    ensures !DistinctObjects(m.objects) || FilesOf(m, k) == []
  {
  }

  lemma NamesWithinAll(m: TransferManifest, k: nat)
    requires k < |m.objects|
    ensures PathsOf(FilesOf(m, k), |FilesOf(m, k)|) <= PathsOf(m.files, |m.files|)
  {
    FiledAre(m.files, m.objects[k].id, |m.files|);
    forall p | p in PathsOf(FilesOf(m, k), |FilesOf(m, k)|)
      ensures p in PathsOf(m.files, |m.files|)
    {
      var j :| 0 <= j < |FilesOf(m, k)| && FilesOf(m, k)[j].path == p;
      assert FilesOf(m, k)[j] in m.files;
    }
  }

  lemma {:induction false} NamesUpToWithinAll(m: TransferManifest, k: nat)
    requires k <= |m.objects|
    ensures NamesUpTo(m, k) <= PathsOf(m.files, |m.files|)
  {
    if k == 0 {
    } else {
      NamesUpToWithinAll(m, k - 1);
      NamesWithinAll(m, k - 1);
    }
  }

  lemma {:induction false} NameOfObject(m: TransferManifest, k: nat, n: nat, j: nat)
    requires k < n <= |m.objects| && j < |FilesOf(m, k)|
    ensures FilesOf(m, k)[j].path in NamesUpTo(m, n)
    decreases n
  {
    if k < n - 1 {
      NameOfObject(m, k, n - 1, j);
    }
  }

  lemma AllNames(m: TransferManifest)
    requires AllKnown(m.objects, m.files)
    ensures NamesUpTo(m, |m.objects|) == PathsOf(m.files, |m.files|)
  {
    NamesUpToWithinAll(m, |m.objects|);
    forall p | p in PathsOf(m.files, |m.files|)
      ensures p in NamesUpTo(m, |m.objects|)
    {
      var i :| 0 <= i < |m.files| && m.files[i].path == p;
      assert KnownObject(m.objects, m.files[i].objectId);
      var k :| 0 <= k < |m.objects| && m.objects[k].id == m.files[i].objectId;
      FiledAre(m.files, m.objects[k].id, |m.files|);
      var j :| 0 <= j < |FilesOf(m, k)| && FilesOf(m, k)[j] == m.files[i];
      NameOfObject(m, k, |m.objects|, j);
    }
  }

  /** Different objects write different files. */
  lemma NamesApart(m: TransferManifest, j: nat, k: nat, i: nat)
    requires DistinctEntries(m.files) && j < |m.objects| && k < |m.objects| && m.objects[j].id != m.objects[k].id
    requires i < |FilesOf(m, j)|
    ensures FilesOf(m, j)[i].path !in PathsOf(FilesOf(m, k), |FilesOf(m, k)|)
  {
    FiledAre(m.files, m.objects[j].id, |m.files|);
    FiledAre(m.files, m.objects[k].id, |m.files|);
    var x := FilesOf(m, j)[i];
    assert x in FilesOf(m, j);
    forall i' | 0 <= i' < |FilesOf(m, k)|
      ensures FilesOf(m, k)[i'].path != x.path
    {
      var y := FilesOf(m, k)[i'];
      assert y in FilesOf(m, k);
      if y.path == x.path {
        SamePathSameEntry(m.files, x, y);
      }
    }
  }

  lemma RestoredOneMore(before: map<string, seq<byte>>, after: map<string, seq<byte>>, hash: Hash, parse: Parser,
                        m: TransferManifest, store: Store, k: nat)
    requires k < |m.objects| && RestoredUpTo(before, hash, parse, m, store, k) && DistinctEntries(m.files)
    requires forall j :: 0 <= j < k ==> m.objects[j].id != m.objects[k].id
    requires ObjectRestorable(hash, parse, m, store, k)
    requires NoClash(before.Keys + PathsOf(FilesOf(m, k), |FilesOf(m, k)|))
    requires Wrote(before, after, FilesOf(m, k), Pieces(parse, NO_LIMITS, m.objects[k].kind, store[m.objects[k].id]).value)
    ensures RestoredUpTo(after, hash, parse, m, store, k + 1)
  {
    hide Pieces, AllPiecesFit, NoClash, PathsOf, DistinctEntries, FilesOf;
    forall j | 0 <= j < k
      ensures ObjectRestorable(hash, parse, m, store, j) && Holds(after, parse, m, store, j)
    {
      assert ObjectRestorable(hash, parse, m, store, j);
      assert Holds(before, parse, m, store, j);
      forall i | 0 <= i < |FilesOf(m, j)|
        ensures FilesOf(m, j)[i].path in after && after[FilesOf(m, j)[i].path] == before[FilesOf(m, j)[i].path]
      {
        NamesApart(m, j, k, i);
      }
    }
  }

  /** Restores object `k`, whose files are given in manifest order. */
  method RestoreGroup(hash: Hash, parse: Parser, m: TransferManifest, k: nat, group: seq<ManifestFile>,
                      store: Store, folder: Folder)
    returns (ok: bool)
    requires k < |m.objects| && group == FilesOf(m, k) != []
    requires AllSafe(m.files) && DistinctEntries(m.files) && NoClash(folder.files.Keys)
    modifies folder
    ensures ok <==>
      && ObjectRestorable(hash, parse, m, store, k)
      && NoClash(old(folder.files).Keys + PathsOf(FilesOf(m, k), |FilesOf(m, k)|))
    ensures ok ==>
      && m.objects[k].id in store && Pieces(parse, NO_LIMITS, m.objects[k].kind, store[m.objects[k].id]).Some?
      && Wrote(old(folder.files), folder.files, FilesOf(m, k),
               Pieces(parse, NO_LIMITS, m.objects[k].kind, store[m.objects[k].id]).value)
  {
    hide *;
    var item := m.objects[k];
    EmptyNotRestorable(hash, parse, m, store, k);
    if item.id !in store {
      return false;
    }
    FilesOfSafe(m, k);
    RestorableParts(hash, parse, m, store, k);
    var sorted := SortByIndex(group);
    ok := RestoreObject(hash, parse, item.kind, sorted, store[item.id], folder, FilesOf(m, k));
  }

  method RestoreObjects(hash: Hash, parse: Parser, m: TransferManifest, byObject: map<ObjectId, seq<ManifestFile>>,
                        store: Store, folder: Folder)
    returns (ok: bool)
    requires folder.files == map[] && ByObject(byObject, m.files, |m.files|)
    requires AllSafe(m.files) && DistinctEntries(m.files)
    modifies folder
    ensures ok <==> ObjectsRestorable(hash, parse, m, store)
    ensures ok ==> IsRestored(folder.files, hash, parse, m, store)
  {
    hide *;
    var left: map<ObjectId, seq<ManifestFile>> := byObject;
    StartRemaining(byObject, m, hash, parse, store);
    for k := 0 to |m.objects|
      invariant Remaining(left, byObject, m, k)
      invariant RestoredUpTo(folder.files, hash, parse, m, store, k)
    {
      var item := m.objects[k];
      if item.id !in left {
        MissingGroup(left, byObject, m, k);
        EmptyNotRestorable(hash, parse, m, store, k);
        StopsAt(hash, parse, m, store, k);
        return false;
      }
      GroupOf(left, byObject, m, k);
      ghost var before := folder.files;
      ClashUpTo(before, hash, parse, m, store, k);
      var restored := RestoreGroup(hash, parse, m, k, left[item.id], store, folder);
      if !restored {
        StopsAt(hash, parse, m, store, k);
        return false;
      }
      RemainingApart(left, byObject, m, k);
      RestoredOneMore(before, folder.files, hash, parse, m, store, k);
      RemoveOne(left, byObject, m, k);
      left := Removed(left, item.id);
    }
    NothingLeft(left, byObject, m);
    if left != map[] {
      UnknownNotRestorable(hash, parse, m, store);
      return false;
    }
    AllNames(m);
    RestoredAll(folder.files, hash, parse, m, store);
    return true;
  }

  lemma StopsAt(hash: Hash, parse: Parser, m: TransferManifest, store: Store, k: nat)
    requires k < |m.objects|
    ensures !ObjectRestorable(hash, parse, m, store, k) || !DistinctObjects(m.objects) || !NoClash(PathsOf(m.files, |m.files|))
      ==> !ObjectsRestorable(hash, parse, m, store)
  {
    hide ObjectRestorable, DistinctObjects, NoClash;
  }

  lemma UnknownNotRestorable(hash: Hash, parse: Parser, m: TransferManifest, store: Store)
    requires !AllKnown(m.objects, m.files)
    ensures !ObjectsRestorable(hash, parse, m, store)
  {
  }

  lemma StartRemaining(byObject: map<ObjectId, seq<ManifestFile>>, m: TransferManifest, hash: Hash, parse: Parser, store: Store)
    ensures Remaining(byObject, byObject, m, 0) && RestoredUpTo(map[], hash, parse, m, store, 0)
  {
  }

  lemma EmptyNotRestorable(hash: Hash, parse: Parser, m: TransferManifest, store: Store, k: nat)
    requires k < |m.objects|
    ensures FilesOf(m, k) == [] || m.objects[k].id !in store ==> !ObjectRestorable(hash, parse, m, store, k)
  {
  }

  lemma GroupOf(left: map<ObjectId, seq<ManifestFile>>, byObject: map<ObjectId, seq<ManifestFile>>,
                m: TransferManifest, k: nat)
    requires k < |m.objects| && Remaining(left, byObject, m, k) && ByObject(byObject, m.files, |m.files|)
    requires m.objects[k].id in left
    ensures left[m.objects[k].id] == FilesOf(m, k) != []
  {
  }

  lemma FilesOfSafe(m: TransferManifest, k: nat)
    requires k < |m.objects| && AllSafe(m.files) && DistinctEntries(m.files)
    ensures AllSafe(FilesOf(m, k)) && DistinctEntries(FilesOf(m, k))
  {
    hide SafePath;
    FiledAre(m.files, m.objects[k].id, |m.files|);
    forall i | 0 <= i < |FilesOf(m, k)|
      ensures SafePath(FilesOf(m, k)[i].path)
    {
      assert FilesOf(m, k)[i] in m.files;
    }
  }

  lemma ClashUpTo(files: map<string, seq<byte>>, hash: Hash, parse: Parser, m: TransferManifest, store: Store, k: nat)
    requires k < |m.objects| && RestoredUpTo(files, hash, parse, m, store, k)
    ensures NoClash(files.Keys)
    ensures NoClash(PathsOf(m.files, |m.files|)) ==> NoClash(files.Keys + PathsOf(FilesOf(m, k), |FilesOf(m, k)|))
  {
    NamesUpToWithinAll(m, k);
    NamesWithinAll(m, k);
    MoreNamesClash(files.Keys + PathsOf(FilesOf(m, k), |FilesOf(m, k)|), PathsOf(m.files, |m.files|));
  }

  lemma RestorableParts(hash: Hash, parse: Parser, m: TransferManifest, store: Store, k: nat)
    requires k < |m.objects| && FilesOf(m, k) != [] && m.objects[k].id in store
    ensures ObjectRestorable(hash, parse, m, store, k) <==>
      ObjectFits(hash, parse, NO_LIMITS, m.objects[k].kind, FilesOf(m, k), store[m.objects[k].id])
  {
    hide ObjectFits;
  }

  lemma RemainingApart(left: map<ObjectId, seq<ManifestFile>>, byObject: map<ObjectId, seq<ManifestFile>>,
                       m: TransferManifest, k: nat)
    requires k < |m.objects| && Remaining(left, byObject, m, k) && m.objects[k].id in left
    ensures forall j :: 0 <= j < k ==> m.objects[j].id != m.objects[k].id
  {
  }

  lemma RestoredAll(files: map<string, seq<byte>>, hash: Hash, parse: Parser, m: TransferManifest, store: Store)
    requires RestoredUpTo(files, hash, parse, m, store, |m.objects|)
    requires DistinctObjects(m.objects) && AllKnown(m.objects, m.files)
    requires NamesUpTo(m, |m.objects|) == PathsOf(m.files, |m.files|)
    ensures IsRestored(files, hash, parse, m, store) && ObjectsRestorable(hash, parse, m, store)
  {
  }
}
