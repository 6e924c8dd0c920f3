/** When the Registry accepts the manifest of a plan that the client prepared. */
module ManifestLaws {
  import opened Common
  import opened Files
  import opened PackCodec
  import opened PackPlan
  import opened TransportPlan
  import opened Manifest
  import opened Names

  // ---- Digests and names ----

  /** The digests that the Registry accepts are those that are written in hexadecimal. */
  lemma DigestsExactly(algorithm: HashAlgorithm, digest: string)
    ensures DigestOk(algorithm, digest) <==> IsDigest(algorithm, digest)
  {
    forall c: char
      ensures IsHex(c) <==> c in "0123456789abcdef"
    {
      HexChars(c);
    }
    hide IsHex;
    if DigestOk(algorithm, digest) {
      var bytes := BytesOf(digest, DigestBytes(algorithm));
    }
    if IsDigest(algorithm, digest) {
      var bytes: seq<byte> :| |bytes| == DigestBytes(algorithm) && digest == Hex(bytes);
      HexLength(bytes);
    }
  }

  lemma HexChars(c: char)
    ensures IsHex(c) <==> c in "0123456789abcdef"
  {
    var digits := "0123456789abcdef";
    if IsHex(c) {
      var n := if '0' <= c <= '9' then c as int - '0' as int else 10 + c as int - 'a' as int;
      assert digits[n] == c;
    }
  }

  predicate Proper(component: string) {
    component != "" && component != "." && component != ".."
  }

  /** A walk goes down with every component exactly when each is proper, and never further. */
  lemma {:induction false} WalkDescends(value: string, i: nat, piece: string, depth: nat)
    requires i <= |value|
    ensures var pieces := SplitFrom(value, i, piece);
      && |pieces| == Slashes(value, i) + 1
      && (if forall k :: 0 <= k < |pieces| ==> Proper(pieces[k]) then Walk(value, i, piece, depth) == Some(depth + |pieces|)
          else Walk(value, i, piece, depth).None? || Walk(value, i, piece, depth).value < depth + |pieces|)
    decreases |value| - i
  {
    var pieces := SplitFrom(value, i, piece);
    if i == |value| {
      assert pieces == [piece] && pieces[0] == piece;
    } else if value[i] == '/' {
      var rest := SplitFrom(value, i + 1, "");
      assert pieces == [piece] + rest && pieces[0] == piece && pieces[1..] == rest;
      assert forall k :: 1 <= k < |pieces| ==> pieces[k] == rest[k - 1];
      assert forall k :: 0 <= k < |rest| ==> rest[k] == pieces[k + 1];
      if Enter(piece, depth).Some? {
        WalkDescends(value, i + 1, "", Enter(piece, depth).value);
      } else {
        WalkDescends(value, i + 1, "", depth);
      }
    } else {
      WalkDescends(value, i + 1, piece + [value[i]], depth);
    }
  }

  /** Every component of a split name is proper exactly when the name only descends. */
  lemma SplitDescends(value: string)
    ensures Descends(value) <==> forall k :: 0 <= k < |Split(value)| ==> Proper(Split(value)[k])
  {
    WalkDescends(value, 0, "", 0);
    assert Split(value) == SplitFrom(value, 0, "");
    hide SplitFrom, Walk;
  }

  /** The paths that the Registry accepts are the portable names. */
  lemma NamesExactly(value: string)
    ensures SafeRelativePath(value) <==> IsPortable(value)
  {
    SplitDescends(value);
    hide SplitFrom;
    if value == "" {
      assert Walk(value, 0, "", 0) == Some(0);
    }
    assert forall k :: 0 <= k < |Split(value)| ==>
      (Proper(Split(value)[k]) <==> Split(value)[k] != "" && Split(value)[k] != "." && Split(value)[k] != "..");
  }

  /** A portable name and a written digest: what the fields of a file are accepted for. */
  ghost predicate GoodEntry(file: ManifestFile) {
    IsPortable(file.path) && IsDigest(file.algorithm, file.digest)
  }

  lemma FieldsExactly(file: ManifestFile)
    ensures FieldsOk(file) <==> GoodEntry(file)
  {
    NamesExactly(file.path);
    DigestsExactly(file.algorithm, file.digest);
    hide SafeRelativePath, DigestOk, IsPortable, IsDigest;
  }

  lemma AllFieldsExactly(files: seq<ManifestFile>)
    ensures AllFieldsOk(files) <==> forall i :: 0 <= i < |files| ==> GoodEntry(files[i])
  {
    forall i | 0 <= i < |files|
      ensures FieldsOk(files[i]) <==> GoodEntry(files[i])
    {
      FieldsExactly(files[i]);
    }
    hide FieldsOk, GoodEntry;
  }

  // ---- What acceptance guarantees ----

  /** An object of an accepted manifest that is a file is one uncompressed file; a pack is compressed. */
  lemma AcceptedKinds(m: TransferManifest, k: nat)
    requires ValidManifest(m) && k < |m.objects|
    ensures var item, files := m.objects[k], FilesOf(m, k);
      if item.kind == FileObject then
        |files| == 1 && files[0].memberIndex == 0 && item.compression == Uncompressed && item.encodingVersion == 1
      else 0 < |files| && item.compression == Zstd && item.encodingVersion == 2
  {
    assert ObjectOk(m.objects[k], FilesOf(m, k));
    if m.objects[k].kind == FileObject {
      assert HasIndex(FilesOf(m, k), 0);
    }
    hide Filed, AllFieldsOk, AllKnown, AllObjectsOk, DistinctEntries, DistinctObjects, SizeUpTo;
  }

  function ObjectBytes(objects: seq<ManifestObject>, k: nat): nat
    requires k <= |objects|
  {
    if k == 0 then 0 else ObjectBytes(objects, k - 1) + objects[k - 1].originalBytes
  }

  /** The bytes of the first `n` files in the first `k` objects. */
  function BytesIn(m: TransferManifest, k: nat, n: nat): nat
    requires k <= |m.objects| && n <= |m.files|
  {
    if k == 0 then 0
    else BytesIn(m, k - 1, n) + SizeUpTo(Filed(m.files, m.objects[k - 1].id, n), |Filed(m.files, m.objects[k - 1].id, n)|)
  }

  lemma {:induction false} SizeAppend(files: seq<ManifestFile>, file: ManifestFile, n: nat)
    requires n <= |files|
    ensures SizeUpTo(files + [file], n) == SizeUpTo(files, n)
    ensures SizeUpTo(files + [file], |files| + 1) == SizeUpTo(files + [file], |files|) + file.size
  {
    if n == 0 {
      assert SizeUpTo(files, n) == 0;
    } else {
      SizeAppend(files, file, n - 1);
    }
  }

  ghost predicate AmongFirst(objects: seq<ManifestObject>, k: nat, id: ObjectId)
    requires k <= |objects|
  {
    exists j :: 0 <= j < k && objects[j].id == id
  }

  lemma FiledOneMore(files: seq<ManifestFile>, id: ObjectId, n: nat)
    requires n < |files|
    ensures var before, after := Filed(files, id, n), Filed(files, id, n + 1);
      SizeUpTo(after, |after|) == SizeUpTo(before, |before|) + if files[n].objectId == id then files[n].size else 0
  {
    var before, after := Filed(files, id, n), Filed(files, id, n + 1);
    SizeAppend(before, files[n], |before|);
    hide SizeUpTo;
    assert after == if files[n].objectId == id then before + [files[n]] else before;
  }

  /** One more file adds its bytes to the one object it is in. */
  lemma {:induction false} BytesOneMore(m: TransferManifest, k: nat, n: nat)
    requires k <= |m.objects| && n < |m.files| && DistinctObjects(m.objects)
    ensures BytesIn(m, k, n + 1) == BytesIn(m, k, n)
      + if AmongFirst(m.objects, k, m.files[n].objectId) then m.files[n].size else 0
  {
    if k == 0 {
      assert BytesIn(m, k, n + 1) == 0;
    } else {
      BytesOneMore(m, k - 1, n);
      var id := m.objects[k - 1].id;
      FiledOneMore(m.files, id, n);
      hide SizeUpTo, Filed;
      assert id == m.files[n].objectId ==> !AmongFirst(m.objects, k - 1, id);
      assert AmongFirst(m.objects, k, m.files[n].objectId)
        <==> AmongFirst(m.objects, k - 1, m.files[n].objectId) || id == m.files[n].objectId;
    }
  }

  lemma {:induction false} BytesInAll(m: TransferManifest, n: nat)
    requires n <= |m.files| && DistinctObjects(m.objects) && AllKnown(m.objects, m.files)
    ensures BytesIn(m, |m.objects|, n) == SizeUpTo(m.files, n)
  {
    if n == 0 {
      NoBytes(m, |m.objects|);
    } else {
      BytesInAll(m, n - 1);
      BytesOneMore(m, |m.objects|, n - 1);
      assert KnownObject(m.objects, m.files[n - 1].objectId);
    }
  }

  lemma {:induction false} NoBytes(m: TransferManifest, k: nat)
    requires k <= |m.objects|
    ensures BytesIn(m, k, 0) == 0
  {
    if k == 0 {
      assert BytesIn(m, k, 0) == 0;
    } else {
      NoBytes(m, k - 1);
    }
  }

  lemma {:induction false} ObjectBytesAre(m: TransferManifest, k: nat)
    requires AllObjectsOk(m.objects, m.files) && k <= |m.objects|
    ensures ObjectBytes(m.objects, k) == BytesIn(m, k, |m.files|)
  {
    if k == 0 {
      assert ObjectBytes(m.objects, k) == 0;
    } else {
      ObjectBytesAre(m, k - 1);
      assert ObjectOk(m.objects[k - 1], Filed(m.files, m.objects[k - 1].id, |m.files|));
      hide Contiguous, SizeUpTo, Filed, KindOk;
    }
  }

  /** In an accepted manifest the objects hold together exactly the bytes of the data set. */
  lemma AcceptedBytes(m: TransferManifest)
    requires ValidManifest(m)
    ensures ObjectBytes(m.objects, |m.objects|) == m.originalBytes
  {
    ObjectBytesAre(m, |m.objects|);
    BytesInAll(m, |m.files|);
    hide AllFieldsOk, AllKnown, AllObjectsOk, DistinctEntries, DistinctObjects, SizeUpTo;
  }

  // ---- Paths ----

  lemma {:induction false} LastPiece(value: string, i: nat, piece: string)
    requires i <= |value| && '/' !in value[i..]
    ensures SplitFrom(value, i, piece) == [piece + value[i..]]
    decreases |value| - i
  {
    if i < |value| {
      var rest := value[i + 1..];
      assert value[i..] == [value[i]] + rest;
      assert value[i] in value[i..] && forall c :: c in rest ==> c in value[i..];
      LastPiece(value, i + 1, piece + [value[i]]);
      assert piece + [value[i]] + rest == piece + value[i..];
    } else {
      assert piece + value[i..] == piece;
    }
  }

  lemma {:induction false} SplitBehind(value: string, front: string, last: string, i: nat, piece: string)
    requires value == front + "/" + last && '/' !in last && i <= |front|
    ensures SplitFrom(value, i, piece) == SplitFrom(front, i, piece) + [last]
    decreases |front| - i
  {
    if i == |front| {
      assert value[i] == '/' && value[i + 1..] == last;
      LastPiece(value, i + 1, "");
      assert "" + last == last;
    } else if front[i] == '/' {
      SplitBehind(value, front, last, i + 1, "");
    } else {
      SplitBehind(value, front, last, i + 1, piece + [front[i]]);
    }
  }

  ghost predicate AllNormal(path: Path) {
    path != [] && forall i :: 0 <= i < |path| ==> Normal(path[i])
  }

  /** Splitting a joined path gives its components back. */
  lemma {:induction false} SplitJoin(path: Path, k: nat)
    requires AllNormal(path) && 0 < k <= |path|
    ensures Split(Join(path, k)) == path[..k]
  {
    if k == 1 {
      LastPiece(path[0], 0, "");
      assert "" + path[0][0..] == path[0];
      assert path[..1] == [path[0]];
    } else {
      SplitJoin(path, k - 1);
      SplitBehind(Join(path, k), Join(path, k - 1), path[k - 1], 0, "");
      assert path[..k] == path[..k - 1] + [path[k - 1]];
    }
  }

  /** Different paths have different names. */
  lemma {:induction false} JoinInjective(a: Path, b: Path)
    requires AllNormal(a) && AllNormal(b) && Join(a, |a|) == Join(b, |b|)
    ensures a == b
  {
    SplitJoin(a, |a|);
    SplitJoin(b, |b|);
    assert a[..|a|] == a && b[..|b|] == b;
  }

  // ---- Parcels as one sequence of files ----

  ghost predicate DistinctIds(files: seq<FileRecord>) {
    forall i, j :: 0 <= i < j < |files| ==> files[i].id != files[j].id
  }

  function Flat(parcels: seq<Parcel>, k: nat): seq<FileRecord>
    requires k <= |parcels|
  {
    if k == 0 then [] else Flat(parcels, k - 1) + parcels[k - 1].files
  }

  lemma {:induction false} FlatAt(parcels: seq<Parcel>, k: nat, i: nat, n: nat)
    requires k < n <= |parcels| && i < |parcels[k].files|
    ensures |Flat(parcels, k)| + i < |Flat(parcels, n)|
    ensures Flat(parcels, n)[|Flat(parcels, k)| + i] == parcels[k].files[i]
    decreases n
  {
    if k < n - 1 {
      FlatAt(parcels, k, i, n - 1);
    }
  }

  lemma {:induction false} FlatFind(parcels: seq<Parcel>, n: nat, x: nat) returns (k: nat, i: nat)
    requires n <= |parcels| && x < |Flat(parcels, n)|
    ensures k < n && i < |parcels[k].files| && parcels[k].files[i] == Flat(parcels, n)[x]
  {
    if x < |Flat(parcels, n - 1)| {
      k, i := FlatFind(parcels, n - 1, x);
    } else {
      k, i := n - 1, x - |Flat(parcels, n - 1)|;
    }
  }

  lemma {:induction false} FlatGrows(parcels: seq<Parcel>, k: nat, n: nat)
    requires k < n <= |parcels|
    ensures |Flat(parcels, k)| + |parcels[k].files| <= |Flat(parcels, n)|
    decreases n
  {
    if k < n - 1 {
      FlatGrows(parcels, k, n - 1);
    }
  }

  /** Files at different places have different ids. */
  lemma PlacesApart(parcels: seq<Parcel>, k: nat, i: nat, k': nat, i': nat)
    requires DistinctIds(Flat(parcels, |parcels|))
    requires k < |parcels| && i < |parcels[k].files| && k' < |parcels| && i' < |parcels[k'].files|
    requires k != k' || i != i'
    ensures parcels[k].files[i].id != parcels[k'].files[i'].id
  {
    FlatAt(parcels, k, i, |parcels|);
    FlatAt(parcels, k', i', |parcels|);
    if k < k' {
      FlatGrows(parcels, k, k');
    } else if k' < k {
      FlatGrows(parcels, k', k);
    }
  }

  lemma SameIdSameFile(files: seq<FileRecord>, x: FileRecord, y: FileRecord)
    requires DistinctIds(files) && x in files && y in files && x.id == y.id
    ensures x == y
  {
    var i :| 0 <= i < |files| && files[i] == x;
    var j :| 0 <= j < |files| && files[j] == y;
    assert !(i < j) && !(j < i);
  }

  lemma {:induction false} IdCountsOne(files: seq<FileRecord>, file: FileRecord)
    requires DistinctIds(files)
    ensures multiset(files)[file] <= 1
  {
    if files == [] {
    } else {
      var last, front := files[|files| - 1], files[..|files| - 1];
      assert files == front + [last];
      IdCountsOne(front, file);
      assert last !in front;
    }
  }

  lemma IdsInherited(a: seq<FileRecord>, b: seq<FileRecord>)
    requires multiset(b) <= multiset(a) && DistinctIds(a)
    ensures DistinctIds(b)
  {
    forall i, j | 0 <= i < j < |b|
      ensures b[i].id != b[j].id
    {
      if b[i].id == b[j].id {
        assert b[i] in multiset(a) && b[j] in multiset(a);
        SameIdSameFile(a, b[i], b[j]);
        assert b == b[..i] + [b[i]] + b[i + 1..j] + [b[j]] + b[j + 1..];
        assert multiset(b)[b[i]] >= 2;
        IdCountsOne(a, b[i]);
      }
    }
  }

  // ---- Where a file is placed ----

  lemma {:induction false} LocationAppend(a: seq<TransportMember>, b: seq<TransportMember>, id: nat, n: nat)
    requires n <= |b|
    ensures Location(a + b, id, |a| + n) ==
      if Location(b, id, n).Some? then Location(b, id, n) else Location(a, id, |a|)
  {
    if n == 0 {
      LocationPrefix(a, b, id, |a|);
    } else {
      LocationAppend(a, b, id, n - 1);
    }
  }

  lemma {:induction false} LocationPrefix(a: seq<TransportMember>, b: seq<TransportMember>, id: nat, n: nat)
    requires n <= |a|
    ensures Location(a + b, id, n) == Location(a, id, n)
  {
    if n == 0 {
    } else {
      LocationPrefix(a, b, id, n - 1);
    }
  }

  lemma {:induction false} MembersLength(parcel: Parcel, n: nat)
    requires n <= |parcel.files|
    ensures |ParcelMembers(parcel, n)| == n
  {
    if n == 0 {
    } else {
      MembersLength(parcel, n - 1);
    }
  }

  function MemberAt(parcel: Parcel, i: nat): TransportMember
    requires i < |parcel.files|
  {
    TransportMember(parcel.item.id, parcel.files[i].id, Truncate32(i))
  }

  /** Where the members of one parcel put a file: its place there, or nowhere. */
  lemma {:induction false} LocationInParcel(parcel: Parcel, n: nat, id: nat)
    requires n <= |parcel.files| && DistinctIds(parcel.files)
    ensures |ParcelMembers(parcel, n)| == n
    ensures forall i :: 0 <= i < n && parcel.files[i].id == id ==>
      Location(ParcelMembers(parcel, n), id, n) == Some(MemberAt(parcel, i))
    ensures (forall i :: 0 <= i < n ==> parcel.files[i].id != id) ==> Location(ParcelMembers(parcel, n), id, n) == None
  {
    MembersLength(parcel, n);
    if n == 0 {
    } else {
      LocationInParcel(parcel, n - 1, id);
      LocationPrefix(ParcelMembers(parcel, n - 1), [MemberAt(parcel, n - 1)], id, n - 1);
    }
  }

  lemma ParcelIdsDistinct(parcels: seq<Parcel>, k: nat)
    requires DistinctIds(Flat(parcels, |parcels|)) && k < |parcels|
    ensures DistinctIds(parcels[k].files)
  {
    forall i, j | 0 <= i < j < |parcels[k].files|
      ensures parcels[k].files[i].id != parcels[k].files[j].id
    {
      PlacesApart(parcels, k, i, k, j);
    }
  }

  /** Every file is placed where its parcel has it. */
  lemma {:induction false} PlacedByParcel(parcels: seq<Parcel>, n: nat, k: nat, i: nat)
    requires DistinctIds(Flat(parcels, |parcels|)) && k < n <= |parcels| && i < |parcels[k].files|
    ensures Place(PreparedFrom(parcels, n).members, parcels[k].files[i].id) == Some(MemberAt(parcels[k], i))
    decreases n
  {
    hide DistinctIds, Flat, Location, ParcelMembers;
    var id := parcels[k].files[i].id;
    var last := parcels[n - 1];
    var before := PreparedFrom(parcels, n - 1).members;
    ParcelIdsDistinct(parcels, n - 1);
    LocationInParcel(last, |last.files|, id);
    LocationAppend(before, ParcelMembers(last, |last.files|), id, |last.files|);
    if k < n - 1 {
      forall j | 0 <= j < |last.files|
        ensures last.files[j].id != id
      {
        PlacesApart(parcels, n - 1, j, k, i);
      }
      PlacedByParcel(parcels, n - 1, k, i);
    }
  }

  // ---- An object's files, as records ----

  predicate PlacedIn(members: seq<TransportMember>, id: ObjectId, file: FileRecord) {
    Place(members, file.id).Some? && Place(members, file.id).value.objectId == id
  }

  function FiledRecords(files: seq<FileRecord>, members: seq<TransportMember>, id: ObjectId, n: nat): seq<FileRecord>
    requires n <= |files|
  {
    if n == 0 then []
    else FiledRecords(files, members, id, n - 1) + if PlacedIn(members, id, files[n - 1]) then [files[n - 1]] else []
  }

  lemma {:induction false} FiledCounts(files: seq<FileRecord>, members: seq<TransportMember>, id: ObjectId, n: nat, file: FileRecord)
    requires n <= |files|
    ensures multiset(FiledRecords(files, members, id, n))[file]
         == if PlacedIn(members, id, file) then multiset(files[..n])[file] else 0
  {
    if n == 0 {
    } else {
      FiledCounts(files, members, id, n - 1, file);
      TakeOneMore(files, n);
      hide PlacedIn;
      var before := FiledRecords(files, members, id, n - 1);
      assert multiset(before + [files[n - 1]]) == multiset(before) + multiset{files[n - 1]};
    }
  }

  /** The manifest's files of an object are the entries of its records. */
  lemma {:induction false} FiledParallel(m: TransferManifest, files: seq<FileRecord>, prepared: Prepared, id: ObjectId, n: nat)
    requires IsSnapshot(m, m.fileCount, m.originalBytes, files, prepared) && n <= |files|
    ensures var entries, records := Filed(m.files, id, n), FiledRecords(files, prepared.members, id, n);
      && |entries| == |records|
      && forall j :: 0 <= j < |records| ==>
           Describable(records[j], prepared.members) && entries[j] == Entry(records[j], prepared.members)
  {
    if n == 0 {
    } else {
      FiledParallel(m, files, prepared, id, n - 1);
      assert Describable(files[n - 1], prepared.members);
      hide Place, ManifestPath;
    }
  }

  lemma {:induction false} SizesParallel(entries: seq<ManifestFile>, records: seq<FileRecord>, n: nat)
    requires n <= |entries| == |records|
    requires forall j :: 0 <= j < |records| ==> entries[j].size == records[j].size
    ensures SizeUpTo(entries, n) == Sum(records, 0, n)
  {
    if n == 0 {
    } else {
      SizesParallel(entries, records, n - 1);
    }
  }

  // ---- Sizes ----

  lemma {:induction false} SumAppend(a: seq<FileRecord>, b: seq<FileRecord>, n: nat)
    requires n <= |b|
    ensures Sum(a + b, 0, |a| + n) == Total(a) + Sum(b, 0, n)
  {
    if n == 0 {
      SumPrefix(a, b, |a|);
    } else {
      SumAppend(a, b, n - 1);
    }
  }

  lemma {:induction false} SumPrefix(a: seq<FileRecord>, b: seq<FileRecord>, n: nat)
    requires n <= |a|
    ensures Sum(a + b, 0, n) == Sum(a, 0, n)
  {
    if n == 0 {
    } else {
      SumPrefix(a, b, n - 1);
    }
  }

  lemma TotalAppend(a: seq<FileRecord>, b: seq<FileRecord>)
    ensures Total(a + b) == Total(a) + Total(b)
  {
    SumAppend(a, b, |b|);
  }

  /** Files sum up the same in any order. */
  lemma {:induction false} TotalPermutes(a: seq<FileRecord>, b: seq<FileRecord>)
    requires multiset(a) == multiset(b)
    ensures Total(a) == Total(b)
    decreases |a|
  {
    assert |multiset(a)| == |multiset(b)|;
    if a == [] {
    } else {
      var last, front := a[|a| - 1], a[..|a| - 1];
      assert a == front + [last];
      assert last in multiset(b);
      var i :| 0 <= i < |b| && b[i] == last;
      var left, right := b[..i], b[i + 1..];
      assert b == left + ([last] + right);
      assert multiset(front) == multiset(a) - multiset{last} == multiset(b) - multiset{last} == multiset(left + right);
      TotalPermutes(front, left + right);
      TotalAppend(front, [last]);
      TotalAppend([last], right);
      TotalAppend(left, [last] + right);
      TotalAppend(left, right);
    }
  }

  lemma {:induction false} ParcelWithinTotal(parcels: seq<Parcel>, k: nat, n: nat)
    requires k < n <= |parcels|
    ensures Total(parcels[k].files) <= Total(Flat(parcels, n))
    decreases n
  {
    TotalAppend(Flat(parcels, n - 1), parcels[n - 1].files);
    if k < n - 1 {
      ParcelWithinTotal(parcels, k, n - 1);
    }
  }

  // ---- One object ----

  /** The parcels carry each file once, under distinct object ids. */
  ghost predicate Ships(parcels: seq<Parcel>, files: seq<FileRecord>) {
    && DistinctIds(files) && multiset(Flat(parcels, |parcels|)) == multiset(files)
    && (forall j, k :: 0 <= j < k < |parcels| ==> parcels[j].item.id != parcels[k].item.id)
  }

  lemma {:induction false} RecordsOfParcel(parcels: seq<Parcel>, files: seq<FileRecord>, k: nat)
    requires Ships(parcels, files) && k < |parcels|
    ensures var members := PreparedFrom(parcels, |parcels|).members;
      multiset(FiledRecords(files, members, parcels[k].item.id, |files|)) == multiset(parcels[k].files)
  {
    var members := PreparedFrom(parcels, |parcels|).members;
    var id := parcels[k].item.id;
    IdsInherited(files, Flat(parcels, |parcels|));
    ParcelIdsDistinct(parcels, k);
    forall file: FileRecord
      ensures multiset(FiledRecords(files, members, id, |files|))[file] == multiset(parcels[k].files)[file]
    {
      CountInParcel(parcels, files, k, file);
    }
  }

  lemma {:induction false} MemberOfParcelCounted(parcels: seq<Parcel>, files: seq<FileRecord>, k: nat, i: nat)
    requires Ships(parcels, files) && DistinctIds(Flat(parcels, |parcels|))
    requires k < |parcels| && i < |parcels[k].files|
    ensures var file := parcels[k].files[i];
      && PlacedIn(PreparedFrom(parcels, |parcels|).members, parcels[k].item.id, file)
      && multiset(files)[file] == 1
  {
    var file := parcels[k].files[i];
    IdCountsOne(files, file);
    FlatAt(parcels, k, i, |parcels|);
    assert file in multiset(Flat(parcels, |parcels|));
    PlacedByParcel(parcels, |parcels|, k, i);
  }

  lemma {:induction false} OtherFilePlacedElsewhere(parcels: seq<Parcel>, files: seq<FileRecord>, k: nat, file: FileRecord)
    requires Ships(parcels, files) && DistinctIds(Flat(parcels, |parcels|)) && k < |parcels|
    requires file in files && file !in parcels[k].files
    ensures !PlacedIn(PreparedFrom(parcels, |parcels|).members, parcels[k].item.id, file)
  {
    assert file in multiset(Flat(parcels, |parcels|));
    var x :| 0 <= x < |Flat(parcels, |parcels|)| && Flat(parcels, |parcels|)[x] == file;
    var k', i := FlatFind(parcels, |parcels|, x);
    assert parcels[k'].item.id != parcels[k].item.id;
    PlacedByParcel(parcels, |parcels|, k', i);
  }

  lemma {:induction false} CountInParcel(parcels: seq<Parcel>, files: seq<FileRecord>, k: nat, file: FileRecord)
    requires Ships(parcels, files) && k < |parcels|
    requires DistinctIds(Flat(parcels, |parcels|)) && DistinctIds(parcels[k].files)
    ensures var members := PreparedFrom(parcels, |parcels|).members;
      multiset(FiledRecords(files, members, parcels[k].item.id, |files|))[file] == multiset(parcels[k].files)[file]
  {
    var members := PreparedFrom(parcels, |parcels|).members;
    FiledCounts(files, members, parcels[k].item.id, |files|, file);
    assert files[..|files|] == files;
    hide *;
    if file in parcels[k].files {
      var i :| 0 <= i < |parcels[k].files| && parcels[k].files[i] == file;
      MemberOfParcelCounted(parcels, files, k, i);
      IdCountsOne(parcels[k].files, file);
    } else if file in files {
      OtherFilePlacedElsewhere(parcels, files, k, file);
    }
  }

  /** Every index fits in the 32 bits that the plan stores. */
  const MEMBER_LIMIT: nat := 0x1_0000_0000

  /** The manifest's entries of a parcel's object add up to the parcel, and their indexes are
      right exactly when they fit in 32 bits. */
  lemma EntriesOfParcel(m: TransferManifest, parcels: seq<Parcel>, files: seq<FileRecord>, k: nat)
    requires Ships(parcels, files) && k < |parcels|
    requires IsSnapshot(m, m.fileCount, m.originalBytes, files, PreparedFrom(parcels, |parcels|))
    ensures var entries := Filed(m.files, parcels[k].item.id, |m.files|);
      && |entries| == |parcels[k].files|
      && SizeUpTo(entries, |entries|) == Total(parcels[k].files)
      && (Contiguous(entries) <==> |parcels[k].files| <= MEMBER_LIMIT)
  {
    var prepared := PreparedFrom(parcels, |parcels|);
    var id := parcels[k].item.id;
    var entries := Filed(m.files, id, |m.files|);
    var records := FiledRecords(files, prepared.members, id, |files|);
    FiledParallel(m, files, prepared, id, |files|);
    RecordsOfParcel(parcels, files, k);
    assert |multiset(records)| == |multiset(parcels[k].files)|;
    hide *;
    EntriesSize(entries, records, prepared.members);
    TotalPermutes(records, parcels[k].files);
    EntriesContiguous(m, entries, records, parcels, files, k);
  }

  ghost predicate EntriesOf(entries: seq<ManifestFile>, records: seq<FileRecord>, members: seq<TransportMember>) {
    && |entries| == |records|
    && forall j :: 0 <= j < |records| ==> Describable(records[j], members) && entries[j] == Entry(records[j], members)
  }

  lemma EntriesSize(entries: seq<ManifestFile>, records: seq<FileRecord>, members: seq<TransportMember>)
    requires EntriesOf(entries, records, members)
    ensures SizeUpTo(entries, |entries|) == Total(records)
  {
    SizesParallel(entries, records, |entries|);
  }

  lemma EntriesContiguous(m: TransferManifest, entries: seq<ManifestFile>, records: seq<FileRecord>,
                          parcels: seq<Parcel>, files: seq<FileRecord>, k: nat)
    requires Ships(parcels, files) && k < |parcels|
    requires EntriesOf(entries, records, PreparedFrom(parcels, |parcels|).members)
    requires multiset(records) == multiset(parcels[k].files) && |entries| == |parcels[k].files|
    ensures Contiguous(entries) <==> |parcels[k].files| <= MEMBER_LIMIT
  {
    if |parcels[k].files| <= MEMBER_LIMIT {
      forall index: nat | index < |entries|
        ensures HasIndex(entries, index)
      {
        var file := parcels[k].files[index];
        assert file in multiset(records);
        var j :| 0 <= j < |records| && records[j] == file;
        IdsInherited(files, Flat(parcels, |parcels|));
        PlacedByParcel(parcels, |parcels|, k, index);
        assert entries[j].memberIndex == Truncate32(index) == index;
      }
    } else {
      var big: nat := MEMBER_LIMIT;
      assert !HasIndex(entries, big);
    }
  }

  // ---- The parcels of a plan ----

  /** New ids are like no other: not each other's, and no file's. */
  ghost predicate FreshIds(ids: seq<ObjectId>, files: seq<FileRecord>) {
    && (forall i, j :: 0 <= i < j < |ids| ==> ids[i] != ids[j])
    && (forall i, j :: 0 <= i < |ids| && 0 <= j < |files| ==> ids[i] != files[j].id)
  }

  lemma {:induction false} FlatOfPacks(encoder: Encoder, budget: u64, plan: Plan, ids: seq<ObjectId>, k: nat)
    requires |ids| == |plan.packs| + |plan.standalone| && k <= |plan.packs|
    ensures multiset(Flat(Parcels(encoder, budget, plan, ids), k)) == Packed(plan.packs, k)
  {
    hide *;
    var parcels := Parcels(encoder, budget, plan, ids);
    if k == 0 {
      NothingFlat(parcels, plan.packs);
    } else {
      FlatOfPacks(encoder, budget, plan, ids, k - 1);
      PackAt(encoder, budget, plan, ids, k - 1);
      FlatOneMore(parcels, k);
      PackedOneMore(plan.packs, k);
    }
  }

  lemma NothingFlat(parcels: seq<Parcel>, packs: seq<seq<FileRecord>>)
    ensures multiset(Flat(parcels, 0)) == Packed(packs, 0)
  {
  }

  lemma PackedOneMore(packs: seq<seq<FileRecord>>, k: nat)
    requires 0 < k <= |packs|
    ensures Packed(packs, k) == Packed(packs, k - 1) + multiset(packs[k - 1])
  {
  }

  lemma PackAt(encoder: Encoder, budget: u64, plan: Plan, ids: seq<ObjectId>, k: nat)
    requires |ids| == |plan.packs| + |plan.standalone| && k < |plan.packs|
    ensures Parcels(encoder, budget, plan, ids)[k].files == plan.packs[k]
  {
    hide PackSize, Load, UsesPack;
  }

  lemma {:induction false} FlatOfFiles(encoder: Encoder, budget: u64, plan: Plan, ids: seq<ObjectId>, k: nat)
    requires |ids| == |plan.packs| + |plan.standalone| && k <= |plan.standalone|
    ensures multiset(Flat(Parcels(encoder, budget, plan, ids), |plan.packs| + k))
         == Packed(plan.packs, |plan.packs|) + multiset(plan.standalone[..k])
  {
    hide *;
    if k == 0 {
      FlatOfPacks(encoder, budget, plan, ids, |plan.packs|);
      assert plan.standalone[..0] == [];
    } else {
      FlatOfFiles(encoder, budget, plan, ids, k - 1);
      TakeOneMore(plan.standalone, k);
      LargeFileAlone(encoder, budget, plan, ids, k - 1);
      FlatOneMore(Parcels(encoder, budget, plan, ids), |plan.packs| + k);
    }
  }

  lemma LargeFileAlone(encoder: Encoder, budget: u64, plan: Plan, ids: seq<ObjectId>, k: nat)
    requires |ids| == |plan.packs| + |plan.standalone| && k < |plan.standalone|
    ensures Parcels(encoder, budget, plan, ids)[|plan.packs| + k].files == [plan.standalone[k]]
  {
    hide PackSize, Load, UsesPack;
  }

  lemma FlatOneMore(parcels: seq<Parcel>, n: nat)
    requires 0 < n <= |parcels|
    ensures multiset(Flat(parcels, n)) == multiset(Flat(parcels, n - 1)) + multiset(parcels[n - 1].files)
  {
  }

  lemma StandaloneAmongFiles(files: seq<FileRecord>, options: PackOptions, plan: Plan)
    requires IsPlan(files, options, plan) && DistinctIds(files)
    ensures DistinctIds(plan.standalone)
    ensures forall i :: 0 <= i < |plan.standalone| ==> plan.standalone[i] in files
  {
    PlanPartitions(files, options, plan);
    hide IsPlan, Packed, DistinctIds;
    IdsInherited(files, plan.standalone);
    forall i | 0 <= i < |plan.standalone|
      ensures plan.standalone[i] in files
    {
      assert plan.standalone[i] in multiset(plan.standalone);
      assert plan.standalone[i] in multiset(files);
    }
  }

  lemma ParcelIdsApart(encoder: Encoder, budget: u64, plan: Plan, ids: seq<ObjectId>, files: seq<FileRecord>, j: nat, k: nat)
    requires |ids| == |plan.packs| + |plan.standalone| && FreshIds(ids, files) && j < k < |ids|
    requires DistinctIds(plan.standalone)
    requires forall i :: 0 <= i < |plan.standalone| ==> plan.standalone[i] in files
    ensures var parcels := Parcels(encoder, budget, plan, ids); parcels[j].item.id != parcels[k].item.id
  {
    hide PackSize, Load, UsesPack;
  }

  /** The parcels of a plan carry each file exactly once. */
  lemma ParcelsShip(encoder: Encoder, budget: u64, files: seq<FileRecord>, options: PackOptions, plan: Plan, ids: seq<ObjectId>)
    requires IsPlan(files, options, plan) && DistinctIds(files)
    requires |ids| == |plan.packs| + |plan.standalone| && FreshIds(ids, files)
    ensures Ships(Parcels(encoder, budget, plan, ids), files)
  {
    hide *;
    var parcels := Parcels(encoder, budget, plan, ids);
    PlanPartitions(files, options, plan);
    FlatOfFiles(encoder, budget, plan, ids, |plan.standalone|);
    assert plan.standalone[..|plan.standalone|] == plan.standalone;
    StandaloneAmongFiles(files, options, plan);
    forall j, k | 0 <= j < k < |parcels|
      ensures parcels[j].item.id != parcels[k].item.id
    {
      ParcelIdsApart(encoder, budget, plan, ids, files, j, k);
    }
    ShipsParts(parcels, files);
  }

  lemma {:induction false} ShipsParts(parcels: seq<Parcel>, files: seq<FileRecord>)
    requires DistinctIds(files) && multiset(Flat(parcels, |parcels|)) == multiset(files)
    requires forall j, k :: 0 <= j < k < |parcels| ==> parcels[j].item.id != parcels[k].item.id
    ensures Ships(parcels, files)
  {
  }

  /** The object of a parcel is of the right kind and adds up its files' sizes, saturating. */
  ghost predicate Shaped(parcel: Parcel) {
    && parcel.files != [] && parcel.item.originalBytes == Load(parcel.files)
    && KindOk(ObjectEntry(parcel.item), |parcel.files|)
  }

  lemma ParcelsShaped(encoder: Encoder, budget: u64, files: seq<FileRecord>, options: PackOptions, plan: Plan, ids: seq<ObjectId>, k: nat)
    requires IsPlan(files, options, plan) && |ids| == |plan.packs| + |plan.standalone| && k < |ids|
    ensures Shaped(Parcels(encoder, budget, plan, ids)[k])
    ensures k < |plan.packs| ==> Parcels(encoder, budget, plan, ids)[k].files == plan.packs[k]
    ensures |plan.packs| <= k ==> |Parcels(encoder, budget, plan, ids)[k].files| == 1 <= MEMBER_LIMIT
  {
    hide PackSize, UsesPack;
    if k < |plan.packs| {
      assert plan.packs[k] != [];
    } else {
      var file := plan.standalone[k - |plan.packs|];
      assert Sum([file], 0, 1) == Sum([file], 0, 0) + file.size;
    }
  }

  lemma {:induction false} ObjectsOfParcels(parcels: seq<Parcel>, n: nat)
    requires n <= |parcels|
    ensures |PreparedFrom(parcels, n).objects| == n
    ensures forall k :: 0 <= k < n ==> PreparedFrom(parcels, n).objects[k] == parcels[k].item
  {
    if n == 0 {
    } else {
      ObjectsOfParcels(parcels, n - 1);
    }
  }

  // ---- Acceptance ----

  lemma {:induction false} NameNotEmpty(path: Path, k: nat)
    requires AllNormal(path) && 0 < k <= |path|
    ensures Join(path, k) != ""
  {
    if 1 < k {
      NameNotEmpty(path, k - 1);
    }
  }

  lemma SameNameSamePath(a: Path, b: Path)
    requires ManifestPath(a).Some? && ManifestPath(a) == ManifestPath(b)
    ensures a == b
  {
    if a != [] && b != [] {
      JoinInjective(a, b);
    } else if a != [] {
      NameNotEmpty(a, |a|);
    } else if b != [] {
      NameNotEmpty(b, |b|);
    }
  }

  lemma DistinctExactly(m: TransferManifest, files: seq<FileRecord>, prepared: Prepared)
    requires IsSnapshot(m, m.fileCount, m.originalBytes, files, prepared)
    ensures DistinctEntries(m.files) <==> DistinctPaths(files)
  {
    hide Place;
    if DistinctPaths(files) {
      forall i, j | 0 <= i < j < |m.files|
        ensures m.files[i].path != m.files[j].path
      {
        assert Describable(files[i], prepared.members) && Describable(files[j], prepared.members);
        if m.files[i].path == m.files[j].path {
          SameNameSamePath(files[i].path, files[j].path);
        }
      }
    }
    if DistinctEntries(m.files) {
      forall i, j | 0 <= i < j < |files|
        ensures files[i].path != files[j].path
      {
        assert m.files[i].path != m.files[j].path;
      }
    }
  }

  lemma {:induction false} EveryObjectKnown(m: TransferManifest, parcels: seq<Parcel>, files: seq<FileRecord>)
    requires Ships(parcels, files)
    requires IsSnapshot(m, m.fileCount, m.originalBytes, files, PreparedFrom(parcels, |parcels|))
    ensures AllKnown(m.objects, m.files)
  {
    ObjectsOfParcels(parcels, |parcels|);
    IdsInherited(files, Flat(parcels, |parcels|));
    forall i | 0 <= i < |m.files|
      ensures KnownObject(m.objects, m.files[i].objectId)
    {
      assert files[i] in multiset(Flat(parcels, |parcels|));
      var x :| 0 <= x < |Flat(parcels, |parcels|)| && Flat(parcels, |parcels|)[x] == files[i];
      var k, j := FlatFind(parcels, |parcels|, x);
      PlacedByParcel(parcels, |parcels|, k, j);
      assert m.objects[k] == ObjectEntry(parcels[k].item);
    }
  }

  lemma ObjectAccepted(m: TransferManifest, parcels: seq<Parcel>, files: seq<FileRecord>, k: nat)
    requires Ships(parcels, files) && k < |parcels| && Shaped(parcels[k])
    requires IsSnapshot(m, m.fileCount, m.originalBytes, files, PreparedFrom(parcels, |parcels|))
    ensures k < |m.objects| && m.objects[k].id == parcels[k].item.id
    ensures ObjectOk(m.objects[k], Filed(m.files, m.objects[k].id, |m.files|)) <==>
      Total(parcels[k].files) <= U64_MAX && |parcels[k].files| <= MEMBER_LIMIT
  {
    EntriesOfParcel(m, parcels, files, k);
    ObjectsOfParcels(parcels, |parcels|);
    hide Contiguous, SizeUpTo, Filed, Ships;
  }

  lemma TotalsAgree(m: TransferManifest, files: seq<FileRecord>, prepared: Prepared)
    requires IsSnapshot(m, m.fileCount, m.originalBytes, files, prepared)
    ensures SizeUpTo(m.files, |m.files|) == Total(files)
  {
    forall j | 0 <= j < |files|
      ensures m.files[j].size == files[j].size
    {
      assert Describable(files[j], prepared.members);
    }
    SizesParallel(m.files, files, |files|);
  }

  /** The Registry accepts the manifest of a prepared plan exactly when its paths and digests are
      well formed, the paths differ, the bytes fit in 64 bits, and each pack's members in 32. */
  lemma AcceptedExactly(m: TransferManifest, encoder: Encoder, budget: u64, files: seq<FileRecord>,
                        options: PackOptions, plan: Plan, ids: seq<ObjectId>)
    requires IsPlan(files, options, plan) && DistinctIds(files)
    requires |ids| == |plan.packs| + |plan.standalone| && FreshIds(ids, files)
    requires m.fileCount == |files| && m.originalBytes == Load(files)
    requires var parcels := Parcels(encoder, budget, plan, ids);
      IsSnapshot(m, m.fileCount, m.originalBytes, files, PreparedFrom(parcels, |parcels|))
    ensures ValidManifest(m) <==>
      && (forall i :: 0 <= i < |m.files| ==> GoodEntry(m.files[i]))
      && DistinctPaths(files) && Total(files) <= U64_MAX
      && forall k :: 0 <= k < |plan.packs| ==> |plan.packs[k]| <= MEMBER_LIMIT
  {
    var parcels := Parcels(encoder, budget, plan, ids);
    ParcelsShip(encoder, budget, files, options, plan, ids);
    DistinctExactly(m, files, PreparedFrom(parcels, |parcels|));
    EveryObjectKnown(m, parcels, files);
    ObjectIdsDistinct(m, parcels, files);
    TotalsAgree(m, files, PreparedFrom(parcels, |parcels|));
    ObjectsAccepted(m, encoder, budget, files, options, plan, ids);
    hide AllFieldsOk, AllKnown, AllObjectsOk, DistinctEntries, DistinctObjects, SizeUpTo, Total, Parcels, IsPlan, Ships,
         GoodEntry, DistinctPaths;
    AllFieldsExactly(m.files);
  }

  /** The Registry refuses the manifest of more than 2^32 empty files, although the client plans it. */
  lemma TooManyEmptyFiles(m: TransferManifest, encoder: Encoder, budget: u64, files: seq<FileRecord>,
                          options: PackOptions, plan: Plan, ids: seq<ObjectId>)
    requires IsPlan(files, options, plan) && DistinctIds(files)
    requires |ids| == |plan.packs| + |plan.standalone| && FreshIds(ids, files)
    requires m.fileCount == |files| && m.originalBytes == Load(files)
    requires var parcels := Parcels(encoder, budget, plan, ids);
      IsSnapshot(m, m.fileCount, m.originalBytes, files, PreparedFrom(parcels, |parcels|))
    requires MEMBER_LIMIT < |files| && forall i :: 0 <= i < |files| ==> files[i].size == 0
    ensures !ValidManifest(m)
  {
    hide *;
    AcceptedExactly(m, encoder, budget, files, options, plan, ids);
    EmptyFilesShareAPack(files, options, plan);
  }

  lemma {:induction false} ObjectIdsDistinct(m: TransferManifest, parcels: seq<Parcel>, files: seq<FileRecord>)
    requires Ships(parcels, files)
    requires IsSnapshot(m, m.fileCount, m.originalBytes, files, PreparedFrom(parcels, |parcels|))
    ensures DistinctObjects(m.objects)
  {
    ObjectsOfParcels(parcels, |parcels|);
  }

  lemma ObjectsAccepted(m: TransferManifest, encoder: Encoder, budget: u64, files: seq<FileRecord>,
                        options: PackOptions, plan: Plan, ids: seq<ObjectId>)
    requires IsPlan(files, options, plan) && DistinctIds(files)
    requires |ids| == |plan.packs| + |plan.standalone| && FreshIds(ids, files)
    requires m.fileCount == |files| && m.originalBytes == Load(files)
    requires var parcels := Parcels(encoder, budget, plan, ids);
      IsSnapshot(m, m.fileCount, m.originalBytes, files, PreparedFrom(parcels, |parcels|))
    ensures Total(files) <= U64_MAX ==>
      (AllObjectsOk(m.objects, m.files) <==> forall k :: 0 <= k < |plan.packs| ==> |plan.packs[k]| <= MEMBER_LIMIT)
  {
    hide *;
    var parcels := Parcels(encoder, budget, plan, ids);
    ParcelsShip(encoder, budget, files, options, plan, ids);
    forall k | 0 <= k < |parcels|
      ensures k < |m.objects|
      ensures Total(files) <= U64_MAX ==>
        (ObjectOk(m.objects[k], Filed(m.files, m.objects[k].id, |m.files|)) <==> |parcels[k].files| <= MEMBER_LIMIT)
      ensures if k < |plan.packs| then parcels[k].files == plan.packs[k] else |parcels[k].files| <= MEMBER_LIMIT
    {
      ParcelsShaped(encoder, budget, files, options, plan, ids, k);
      ObjectAccepted(m, parcels, files, k);
      ParcelAtMostTotal(parcels, files, k);
    }
    ObjectCount(m, parcels, files);
    AllObjectsUnfold(m);
  }

  lemma ParcelAtMostTotal(parcels: seq<Parcel>, files: seq<FileRecord>, k: nat)
    requires Ships(parcels, files) && k < |parcels|
    ensures Total(parcels[k].files) <= Total(files)
  {
    ParcelWithinTotal(parcels, k, |parcels|);
    TotalPermutes(Flat(parcels, |parcels|), files);
  }

  lemma {:induction false} ObjectCount(m: TransferManifest, parcels: seq<Parcel>, files: seq<FileRecord>)
    requires IsSnapshot(m, m.fileCount, m.originalBytes, files, PreparedFrom(parcels, |parcels|))
    ensures |m.objects| == |parcels|
  {
    ObjectsOfParcels(parcels, |parcels|);
  }

  lemma AllObjectsUnfold(m: TransferManifest)
    ensures AllObjectsOk(m.objects, m.files) <==>
      forall k :: 0 <= k < |m.objects| ==> ObjectOk(m.objects[k], Filed(m.files, m.objects[k].id, |m.files|))
  {
  }
}
