/** The manifest that the client builds from a transport plan, and the Registry's validator. */
module Manifest {
  import opened Common
  import opened Files
  import opened PackCodec
  import opened TransportPlan

  datatype ManifestObject = ManifestObject(
    id: ObjectId,
    kind: Kind,
    compression: Compression,
    encodingVersion: nat,
    originalBytes: u64)

  datatype ManifestFile = ManifestFile(
    path: string,
    size: u64,
    algorithm: HashAlgorithm,
    digest: string,
    objectId: ObjectId,
    memberIndex: u32)

  datatype TransferManifest = TransferManifest(
    fileCount: nat,
    originalBytes: nat,
    objects: seq<ManifestObject>,
    files: seq<ManifestFile>)

  datatype SnapshotError = OmittedFile(id: nat) | PathNotRelative

  // ---- Building ----

  /** The manifest's spelling of a path; unlike a pack header it accepts the empty path. */
  function ManifestPath(path: Path): Option<string> {
    if path == [] then Some("") else PortablePath(path)
  }

  /** The last of the first `n` members that is for this file. */
  function Location(members: seq<TransportMember>, fileId: nat, n: nat): Option<TransportMember>
    requires n <= |members|
  {
    if n == 0 then None
    else if members[n - 1].fileId == fileId then Some(members[n - 1])
    else Location(members, fileId, n - 1)
  }

  function Place(members: seq<TransportMember>, fileId: nat): Option<TransportMember> {
    Location(members, fileId, |members|)
  }

  function EntryFor(file: FileRecord, path: string, member: TransportMember): ManifestFile {
    ManifestFile(path, file.size, file.algorithm, file.digest, member.objectId, member.memberIndex)
  }

  predicate Describable(file: FileRecord, members: seq<TransportMember>) {
    Place(members, file.id).Some? && ManifestPath(file.path).Some?
  }

  function Entry(file: FileRecord, members: seq<TransportMember>): ManifestFile
    requires Describable(file, members)
  {
    EntryFor(file, ManifestPath(file.path).value, Place(members, file.id).value)
  }

  function ObjectEntry(item: TransportObject): ManifestObject {
    ManifestObject(item.id, item.kind, item.compression, item.encodingVersion, item.originalBytes)
  }

  ghost predicate IsSnapshot(manifest: TransferManifest, fileCount: nat, originalBytes: nat,
                             files: seq<FileRecord>, prepared: Prepared) {
    && manifest.fileCount == fileCount && manifest.originalBytes == originalBytes
    && |manifest.objects| == |prepared.objects|
    && (forall k :: 0 <= k < |manifest.objects| ==> manifest.objects[k] == ObjectEntry(prepared.objects[k]))
    && |manifest.files| == |files|
    && (forall i :: 0 <= i < |files| ==>
          Describable(files[i], prepared.members) && manifest.files[i] == Entry(files[i], prepared.members))
  }

  method BuildManifestSnapshot(fileCount: nat, originalBytes: nat, files: seq<FileRecord>, prepared: Prepared)
    returns (r: Result<TransferManifest, SnapshotError>)
    ensures r.Success? <==> forall i :: 0 <= i < |files| ==> Describable(files[i], prepared.members)
    ensures r.Success? ==> IsSnapshot(r.value, fileCount, originalBytes, files, prepared)
  {
    var memberByFile: map<nat, TransportMember> := map[];
    for k := 0 to |prepared.members|
      invariant forall id: nat ::
        if id in memberByFile then Location(prepared.members, id, k) == Some(memberByFile[id])
        else Location(prepared.members, id, k) == None
    {
      memberByFile := memberByFile[prepared.members[k].fileId := prepared.members[k]];
    }
    var entries: seq<ManifestFile> := [];
    for i := 0 to |files|
      invariant |entries| == i
      invariant forall j :: 0 <= j < i ==>
        Describable(files[j], prepared.members) && entries[j] == Entry(files[j], prepared.members)
    {
      if files[i].id !in memberByFile {
        return Failure(OmittedFile(files[i].id));
      }
      var path := ManifestPath(files[i].path);
      if path.None? {
        return Failure(PathNotRelative);
      }
      entries := entries + [EntryFor(files[i], path.value, memberByFile[files[i].id])];
    }
    var objects: seq<ManifestObject> := [];
    for k := 0 to |prepared.objects|
      invariant |objects| == k
      invariant forall j :: 0 <= j < k ==> objects[j] == ObjectEntry(prepared.objects[j])
    {
      objects := objects + [ObjectEntry(prepared.objects[k])];
    }
    return Success(TransferManifest(fileCount, originalBytes, objects, entries));
  }

  // ---- Validating ----

  /** The pieces of `value` between slashes, from position `i` on; `piece` is the current one. */
  function SplitFrom(value: string, i: nat, piece: string): seq<string>
    requires i <= |value|
    decreases |value| - i
  {
    if i == |value| then [piece]
    else if value[i] == '/' then [piece] + SplitFrom(value, i + 1, "")
    else SplitFrom(value, i + 1, piece + [value[i]])
  }

  function Split(value: string): seq<string> {
    SplitFrom(value, 0, "")
  }

  predicate IsLetter(c: char) {
    'a' <= c <= 'z' || 'A' <= c <= 'Z'
  }

  /** A normalized relative path, with no drive letter. */
  predicate SafeRelativePath(value: string) {
    && 1 <= |value| <= 4096
    && '\\' !in value && '\0' !in value
    && (forall k :: 0 <= k < |Split(value)| ==> Split(value)[k] != "" && Split(value)[k] != "." && Split(value)[k] != "..")
    && !(2 <= |value| && IsLetter(value[0]) && value[1] == ':')
  }

  predicate IsHex(c: char) {
    '0' <= c <= '9' || 'a' <= c <= 'f'
  }

  predicate DigestOk(algorithm: HashAlgorithm, digest: string) {
    && |digest| == (if algorithm == XxHash3 then 32 else 64)
    && forall k :: 0 <= k < |digest| ==> IsHex(digest[k])
  }

  predicate FieldsOk(file: ManifestFile) {
    SafeRelativePath(file.path) && DigestOk(file.algorithm, file.digest)
  }

  /** Which of the first `n` files travel in an object. */
  function Filed(files: seq<ManifestFile>, id: ObjectId, n: nat): seq<ManifestFile>
    requires n <= |files|
  {
    if n == 0 then []
    else Filed(files, id, n - 1) + if files[n - 1].objectId == id then [files[n - 1]] else []
  }

  /** The files that travel in object `k`. */
  function FilesOf(m: TransferManifest, k: nat): seq<ManifestFile>
    requires k < |m.objects|
  {
    Filed(m.files, m.objects[k].id, |m.files|)
  }

  function SizeUpTo(files: seq<ManifestFile>, n: nat): nat
    requires n <= |files|
  {
    if n == 0 then 0 else SizeUpTo(files, n - 1) + files[n - 1].size
  }

  ghost predicate HasIndex(members: seq<ManifestFile>, index: nat) {
    exists j :: 0 <= j < |members| && members[j].memberIndex == index
  }

  /** The member indexes are zero up to the number of members, each once. */
  ghost predicate Contiguous(members: seq<ManifestFile>) {
    forall index: nat :: index < |members| ==> HasIndex(members, index)
  }

  predicate KindOk(item: ManifestObject, count: nat) {
    match item.kind
    case FileObject => count == 1 && item.compression == Uncompressed && item.encodingVersion == 1
    case PackObject => item.compression == Zstd && item.encodingVersion == 2
  }

  ghost predicate ObjectOk(item: ManifestObject, members: seq<ManifestFile>) {
    && members != [] && Contiguous(members)
    && SizeUpTo(members, |members|) == item.originalBytes
    && KindOk(item, |members|)
  }

  ghost predicate DistinctEntries(files: seq<ManifestFile>) {
    forall i, j :: 0 <= i < j < |files| ==> files[i].path != files[j].path
  }

  ghost predicate DistinctObjects(objects: seq<ManifestObject>) {
    forall i, j :: 0 <= i < j < |objects| ==> objects[i].id != objects[j].id
  }

  lemma {:induction false} FiledAre(files: seq<ManifestFile>, id: ObjectId, n: nat)
    requires n <= |files|
    ensures forall x :: x in Filed(files, id, n) ==> x in files[..n] && x in files && x.objectId == id
    ensures forall i :: 0 <= i < n && files[i].objectId == id ==> files[i] in Filed(files, id, n)
    ensures DistinctEntries(files) ==> DistinctEntries(Filed(files, id, n))
  {
    if n == 0 {
    } else {
      FiledAre(files, id, n - 1);
      assert files[..n] == files[..n - 1] + [files[n - 1]];
      var before := Filed(files, id, n - 1);
      forall j | 0 <= j < |before| && DistinctEntries(files)
        ensures before[j].path != files[n - 1].path
      {
        assert before[j] in files[..n - 1];
      }
    }
  }

  ghost predicate KnownObject(objects: seq<ManifestObject>, id: ObjectId) {
    exists k :: 0 <= k < |objects| && objects[k].id == id
  }

  ghost predicate AllFieldsOk(files: seq<ManifestFile>) {
    forall i :: 0 <= i < |files| ==> FieldsOk(files[i])
  }

  ghost predicate AllKnown(objects: seq<ManifestObject>, files: seq<ManifestFile>) {
    forall i :: 0 <= i < |files| ==> KnownObject(objects, files[i].objectId)
  }

  ghost predicate AllObjectsOk(objects: seq<ManifestObject>, files: seq<ManifestFile>) {
    forall k :: 0 <= k < |objects| ==> ObjectOk(objects[k], Filed(files, objects[k].id, |files|))
  }

  /** What the Registry accepts. */
  ghost predicate ValidManifest(m: TransferManifest) {
    && AllFieldsOk(m.files)
    && |m.files| == m.fileCount && SizeUpTo(m.files, |m.files|) == m.originalBytes
    && DistinctEntries(m.files) && DistinctObjects(m.objects)
    && AllKnown(m.objects, m.files)
    && AllObjectsOk(m.objects, m.files)
  }

  method ValidateManifest(m: TransferManifest) returns (ok: bool)
    ensures ok <==> ValidManifest(m)
  {
    hide AllFieldsOk, DistinctEntries, DistinctObjects, AllKnown, AllObjectsOk, SizeUpTo;
    var fields := CheckFields(m.files);
    var total := TotalSize(m.files);
    if !fields || |m.files| != m.fileCount || total != m.originalBytes {
      return false;
    }
    var paths := PathsUnique(m.files);
    var ids := IdsUnique(m.objects);
    if !paths || !ids {
      return false;
    }
    var members := GroupByObject(m.objects, m.files);
    if members.None? {
      return false;
    }
    ok := CheckObjects(m.objects, m.files, members.value);
  }

  method CheckFields(files: seq<ManifestFile>) returns (ok: bool)
    ensures ok <==> AllFieldsOk(files)
  {
    for i := 0 to |files|
      invariant forall j :: 0 <= j < i ==> FieldsOk(files[j])
    {
      if !FieldsOk(files[i]) {
        return false;
      }
    }
    return true;
  }

  method TotalSize(files: seq<ManifestFile>) returns (total: nat)
    ensures total == SizeUpTo(files, |files|)
  {
    total := 0;
    for i := 0 to |files|
      invariant total == SizeUpTo(files, i)
    {
      total := total + files[i].size;
    }
  }

  method PathsUnique(files: seq<ManifestFile>) returns (distinct: bool)
    ensures distinct <==> DistinctEntries(files)
  {
    var seen: set<string> := {};
    for i := 0 to |files|
      invariant forall p :: p in seen <==> exists j :: 0 <= j < i && files[j].path == p
      invariant forall j, k :: 0 <= j < k < i ==> files[j].path != files[k].path
    {
      if files[i].path in seen {
        return false;
      }
      seen := seen + {files[i].path};
    }
    return true;
  }

  method IdsUnique(objects: seq<ManifestObject>) returns (distinct: bool)
    ensures distinct <==> DistinctObjects(objects)
  {
    var seen: set<ObjectId> := {};
    for i := 0 to |objects|
      invariant forall id :: id in seen <==> exists j :: 0 <= j < i && objects[j].id == id
      invariant forall j, k :: 0 <= j < k < i ==> objects[j].id != objects[k].id
    {
      if objects[i].id in seen {
        return false;
      }
      seen := seen + {objects[i].id};
    }
    return true;
  }

  /** Every object has its group, holding its files among the first `i`. */
  ghost predicate Grouped(members: map<ObjectId, seq<ManifestFile>>, objects: seq<ManifestObject>,
                          files: seq<ManifestFile>, i: nat)
    requires i <= |files|
  {
    && (forall id :: id in members <==> KnownObject(objects, id))
    && (forall id :: id in members ==> members[id] == Filed(files, id, i))
  }

  lemma GroupOneMore(members: map<ObjectId, seq<ManifestFile>>, objects: seq<ManifestObject>,
                     files: seq<ManifestFile>, i: nat)
    requires i < |files| && Grouped(members, objects, files, i) && files[i].objectId in members
    ensures var id := files[i].objectId;
      Grouped(members[id := members[id] + [files[i]]], objects, files, i + 1)
  {
    hide KnownObject;
  }

  method EmptyGroups(objects: seq<ManifestObject>) returns (members: map<ObjectId, seq<ManifestFile>>)
    ensures forall id :: id in members <==> KnownObject(objects, id)
    ensures forall id :: id in members ==> members[id] == []
  {
    members := map[];
    for k := 0 to |objects|
      invariant forall id :: id in members <==> exists j :: 0 <= j < k && objects[j].id == id
      invariant forall id :: id in members ==> members[id] == []
    {
      members := members[objects[k].id := []];
    }
  }

  /** Each object's files, unless a file names an unknown object. */
  method GroupByObject(objects: seq<ManifestObject>, files: seq<ManifestFile>)
    returns (r: Option<map<ObjectId, seq<ManifestFile>>>)
    ensures r.Some? <==> AllKnown(objects, files)
    ensures r.Some? ==> Grouped(r.value, objects, files, |files|)
  {
    var members := EmptyGroups(objects);
    assert Grouped(members, objects, files, 0);
    hide Grouped, KnownObject, Filed;
    for i := 0 to |files|
      invariant Grouped(members, objects, files, i)
      invariant forall j :: 0 <= j < i ==> KnownObject(objects, files[j].objectId)
    {
      var id := files[i].objectId;
      GroupsAreKnown(members, objects, files, i, id);
      if id !in members {
        return None;
      }
      GroupOneMore(members, objects, files, i);
      members := members[id := members[id] + [files[i]]];
    }
    return Some(members);
  }

  lemma GroupsAreKnown(members: map<ObjectId, seq<ManifestFile>>, objects: seq<ManifestObject>,
                       files: seq<ManifestFile>, i: nat, id: ObjectId)
    requires i <= |files| && Grouped(members, objects, files, i)
    ensures id in members <==> KnownObject(objects, id)
    ensures id in members ==> members[id] == Filed(files, id, i)
  {
  }

  method CheckObjects(objects: seq<ManifestObject>, files: seq<ManifestFile>, members: map<ObjectId, seq<ManifestFile>>)
    returns (ok: bool)
    requires Grouped(members, objects, files, |files|)
    ensures ok <==> AllObjectsOk(objects, files)
  {
    hide ObjectOk, Grouped, Filed;
    for k := 0 to |objects|
      invariant forall j :: 0 <= j < k ==> ObjectOk(objects[j], Filed(files, objects[j].id, |files|))
    {
      assert KnownObject(objects, objects[k].id);
      GroupsAreKnown(members, objects, files, |files|, objects[k].id);
      var accepted := CheckObject(objects[k], members[objects[k].id]);
      if !accepted {
        return false;
      }
    }
    return true;
  }

  method CheckObject(item: ManifestObject, members: seq<ManifestFile>) returns (ok: bool)
    ensures ok <==> ObjectOk(item, members)
  {
    if members == [] {
      return false;
    }
    var indexes := SortedIndexes(members);
    var contiguous := IsCountUp(indexes);
    SortedIsCountUp(indexes, members);
    if !contiguous {
      return false;
    }
    var total := TotalSize(members);
    return total == item.originalBytes && KindOk(item, |members|);
  }

  // ---- Sorting member indexes ----

  ghost predicate SortedNats(s: seq<nat>) {
    forall i, j :: 0 <= i < j < |s| ==> s[i] <= s[j]
  }

  ghost predicate SameIndexes(indexes: seq<nat>, members: seq<ManifestFile>) {
    && |indexes| == |members|
    && forall index: nat :: index in indexes <==> HasIndex(members, index)
  }

  /** The member indexes in ascending order. */
  method SortedIndexes(members: seq<ManifestFile>) returns (indexes: seq<nat>)
    ensures SortedNats(indexes) && SameIndexes(indexes, members)
  {
    indexes := [];
    for i := 0 to |members|
      invariant |indexes| == i && SortedNats(indexes)
      invariant forall index: nat :: index in indexes <==> HasIndex(members[..i], index)
    {
      var x: nat := members[i].memberIndex;
      var at := InsertionPoint(indexes, x);
      ghost var before := indexes;
      indexes := indexes[..at] + [x] + indexes[at..];
      forall index: nat
        ensures index in indexes <==> HasIndex(members[..i + 1], index)
      {
        assert before == before[..at] + before[at..];
        assert index in indexes <==> index in before || index == x;
        assert forall j :: 0 <= j < i ==> members[..i + 1][j] == members[..i][j];
        assert members[..i + 1][i].memberIndex == x;
      }
    }
    assert members[..|members|] == members;
  }

  method InsertionPoint(sorted: seq<nat>, x: nat) returns (at: nat)
    requires SortedNats(sorted)
    ensures at <= |sorted| && (forall j :: 0 <= j < at ==> sorted[j] <= x) && (forall j :: at <= j < |sorted| ==> x <= sorted[j])
  {
    at := 0;
    while at < |sorted| && sorted[at] <= x
      invariant at <= |sorted| && forall j :: 0 <= j < at ==> sorted[j] <= x
    {
      at := at + 1;
    }
  }

  method IsCountUp(s: seq<nat>) returns (ok: bool)
    ensures ok <==> forall i :: 0 <= i < |s| ==> s[i] == i
  {
    for i := 0 to |s|
      invariant forall j :: 0 <= j < i ==> s[j] == j
    {
      if s[i] != i {
        return false;
      }
    }
    return true;
  }

  lemma {:induction false} AtMostItsPlace(s: seq<nat>, i: nat)
    requires SortedNats(s) && (forall k: nat :: k < |s| ==> k in s) && i < |s|
    ensures s[i] <= i
  {
    assert i in s;
    var j :| 0 <= j < |s| && s[j] == i;
    if 0 < i {
      AtMostItsPlace(s, i - 1);
    }
    assert i <= j;
  }

  lemma {:induction false} ExactlyItsPlace(s: seq<nat>, i: nat)
    requires SortedNats(s) && (forall k: nat :: k < |s| ==> k in s) && i < |s|
    ensures s[i] == i
    decreases |s| - i
  {
    AtMostItsPlace(s, i);
    assert i in s;
    var j :| 0 <= j < |s| && s[j] == i;
    AtMostItsPlace(s, j);
    if i < j {
      ExactlyItsPlace(s, j);
    }
  }

  /** Sorted, the indexes count up from zero exactly when each index below the count occurs. */
  lemma SortedIsCountUp(indexes: seq<nat>, members: seq<ManifestFile>)
    requires SortedNats(indexes) && SameIndexes(indexes, members)
    ensures Contiguous(members) <==> forall i :: 0 <= i < |indexes| ==> indexes[i] == i
  {
    if Contiguous(members) {
      forall i | 0 <= i < |indexes|
        ensures indexes[i] == i
      {
        assert forall k: nat :: k < |indexes| ==> HasIndex(members, k);
        ExactlyItsPlace(indexes, i);
      }
    }
    if forall i :: 0 <= i < |indexes| ==> indexes[i] == i {
      forall index: nat | index < |members|
        ensures HasIndex(members, index)
      {
        assert indexes[index] == index;
      }
    }
  }
}
