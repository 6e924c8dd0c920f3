/** Plan, encode, verify and restore compose into the identity on a data set. */
module EndToEnd {
  import opened Common
  import opened Files
  import opened PackFormat
  import opened PackCodec
  import opened PackPlan
  import opened TransportPlan
  import opened Manifest
  import opened Names
  import opened ManifestLaws
  import opened ObjectContents
  import opened Restore
  import Verification
  import VerificationRuns

  // ---- What the Registry verified, the client restores ----

  /** Every object of the manifest is stored and verified by the Registry. */
  ghost predicate AllVerified(hash: Hash, parse: Parser, m: TransferManifest, store: Store) {
    forall k :: 0 <= k < |m.objects| ==>
      m.objects[k].id in store
      && ObjectFits(hash, parse, REGISTRY_LIMITS, m.objects[k].kind, FilesOf(m, k), store[m.objects[k].id])
  }

  lemma AcceptedPathsAreSafe(files: seq<ManifestFile>)
    requires AllFieldsOk(files)
    ensures AllSafe(files)
  {
    forall i | 0 <= i < |files|
      ensures SafePath(files[i].path)
    {
      assert FieldsOk(files[i]);
    }
  }

  /** An accepted and verified transfer is restorable, whoever uploaded it, when its paths differ
      by more than case and no file is below another. */
  lemma VerifiedIsRestorable(hash: Hash, parse: Parser, lower: Lowercase, m: TransferManifest, store: Store)
    requires ValidManifest(m) && AllVerified(hash, parse, m, store)
    requires DistinctLower(lower, m.files) && NoClash(PathsOf(m.files, |m.files|))
    ensures Restorable(hash, parse, lower, m, m.fileCount, store)
  {
    AcceptedPathsAreSafe(m.files);
    hide ObjectFits, SafePath, FieldsOk, NoClash, PathsOf, DistinctLower;
    forall k | 0 <= k < |m.objects|
      ensures ObjectRestorable(hash, parse, m, store, k)
    {
      assert ObjectOk(m.objects[k], Filed(m.files, m.objects[k].id, |m.files|));
      VerifiedFitsClient(hash, parse, m.objects[k].kind, FilesOf(m, k), store[m.objects[k].id]);
    }
  }

  /** The client downloads exactly what the store still holds. */
  ghost predicate Downloads(m: TransferManifest, w: VerificationRuns.World, store: Store) {
    forall k :: 0 <= k < |m.objects| && k in w.stored && w.stored[k].Content? ==>
      && (m.objects[k].id in store <==> k !in w.removed)
      && (m.objects[k].id in store ==> store[m.objects[k].id] == w.stored[k].bytes)
  }

  /** Whatever clients and workers did: a complete transfer's data set can be restored exactly when
      no object of it was removed by a delete. */
  lemma CompleteIsRestorable(reg: Verification.Registry, trace: seq<VerificationRuns.World>, k: nat,
                             lower: Lowercase, store: Store)
    requires VerificationRuns.Run(reg, trace) && k < |trace| && trace[k].rows.status.Complete?
    requires Downloads(reg.manifest, trace[k], store)
    requires DistinctLower(lower, reg.manifest.files) && NoClash(PathsOf(reg.manifest.files, |reg.manifest.files|))
    ensures Restorable(reg.hash, reg.parse, lower, reg.manifest, reg.manifest.fileCount, store)
       <==> forall i :: 0 <= i < |reg.manifest.objects| ==> i !in trace[k].removed
  {
    hide *;
    VerificationRuns.RunInv(reg, trace, k);
    InvAccepted(reg, trace[k]);
    VerificationRuns.CompleteFits(reg, trace[k]);
    if forall i :: 0 <= i < |reg.manifest.objects| ==> i !in trace[k].removed {
      FitIsVerified(reg, trace[k], store);
      VerifiedIsRestorable(reg.hash, reg.parse, lower, reg.manifest, store);
    } else {
      var i :| 0 <= i < |reg.manifest.objects| && i in trace[k].removed;
      RemovedIsMissing(reg, trace[k], store, i);
      MissingNotRestorable(reg, lower, store, i);
    }
  }

  lemma RemovedIsMissing(reg: Verification.Registry, w: VerificationRuns.World, store: Store, i: nat)
    requires VerificationRuns.AllFit(reg, w) && Downloads(reg.manifest, w, store)
    requires i < |reg.manifest.objects| && i in w.removed
    ensures reg.manifest.objects[i].id !in store
  {
    hide ObjectFits;
    assert Verification.Fits(reg, i, w.stored[i]);
  }

  lemma MissingNotRestorable(reg: Verification.Registry, lower: Lowercase, store: Store, i: nat)
    requires i < |reg.manifest.objects| && reg.manifest.objects[i].id !in store
    ensures !Restorable(reg.hash, reg.parse, lower, reg.manifest, reg.manifest.fileCount, store)
  {
    hide ObjectFits, NoClash, AllSafe, DistinctLower, AllKnown, DistinctObjects, FilesOf;
    assert !ObjectRestorable(reg.hash, reg.parse, reg.manifest, store, i);
  }

  lemma InvAccepted(reg: Verification.Registry, w: VerificationRuns.World)
    requires VerificationRuns.Inv(reg, w)
    ensures ValidManifest(reg.manifest)
  {
    hide ValidManifest;
  }

  lemma FitIsVerified(reg: Verification.Registry, w: VerificationRuns.World, store: Store)
    requires VerificationRuns.AllFit(reg, w) && Downloads(reg.manifest, w, store)
    requires forall i :: 0 <= i < |reg.manifest.objects| ==> i !in w.removed
    ensures AllVerified(reg.hash, reg.parse, reg.manifest, store)
  {
    hide ObjectFits;
    assert forall k :: 0 <= k < |reg.manifest.objects| ==> Verification.Fits(reg, k, w.stored[k]);
  }

  // ---- A data set ----

  type Contents = FileRecord -> seq<byte>

  function NameOf(file: FileRecord): string {
    if file.path == [] then "" else Join(file.path, |file.path|)
  }

  /** The inventory of a file is faithful and its path and header are within every limit. */
  ghost predicate GoodFile(hash: Hash, printer: Printer, contentOf: Contents, file: FileRecord) {
    && AllNormal(file.path) && IsPortable(NameOf(file)) && IsDigest(file.algorithm, file.digest)
    && ContentMatches(hash, contentOf, file)
    && |printer(HeaderOf(file, NameOf(file)))| <= MAXIMUM_HEADER_BYTES
  }

  ghost predicate ContentMatches(hash: Hash, contentOf: Contents, file: FileRecord) {
    |contentOf(file)| == file.size && hash(file.algorithm, contentOf(file)) == file.digest
  }

  function NamesOf(files: seq<FileRecord>): set<string> {
    set i | 0 <= i < |files| :: NameOf(files[i])
  }

  /** Good files with different ids, paths that differ by more than case, none below another,
      and fewer than 2^64 bytes. */
  ghost predicate GoodDataset(hash: Hash, printer: Printer, lower: Lowercase, contentOf: Contents, files: seq<FileRecord>) {
    && (forall i :: 0 <= i < |files| ==> GoodFile(hash, printer, contentOf, files[i]))
    && DistinctIds(files)
    && (forall i, j :: 0 <= i < j < |files| ==> lower(NameOf(files[i])) != lower(NameOf(files[j])))
    && NoClash(NamesOf(files))
    && Total(files) <= U64_MAX
  }

  /** No pack of the plan has more than 2^32 members. */
  ghost predicate PacksCountable(files: seq<FileRecord>, options: PackOptions) {
    forall plan :: IsPlan(files, options, plan) ==> CountablePacks(plan)
  }

  ghost predicate CountablePacks(plan: Plan) {
    forall k :: 0 <= k < |plan.packs| ==> |plan.packs[k]| <= MEMBER_LIMIT
  }

  /** The folder holds exactly the data set. */
  ghost predicate IsDataset(restored: map<string, seq<byte>>, contentOf: Contents, files: seq<FileRecord>) {
    && restored.Keys == NamesOf(files)
    && forall i :: 0 <= i < |files| ==> NameOf(files[i]) in restored && restored[NameOf(files[i])] == contentOf(files[i])
  }

  // ---- Encoding the objects ----

  function MemberFor(contentOf: Contents, file: FileRecord): Member {
    Member(HeaderOf(file, NameOf(file)), contentOf(file))
  }

  function MembersFor(contentOf: Contents, files: seq<FileRecord>): seq<Member> {
    seq(|files|, i requires 0 <= i < |files| => MemberFor(contentOf, files[i]))
  }

  /** The decompressed bytes of a parcel's object. */
  function StoredBytes(printer: Printer, contentOf: Contents, parcel: Parcel): seq<byte> {
    match parcel.item.kind
    case FileObject => if parcel.files == [] then [] else contentOf(parcel.files[0])
    case PackObject => Encoding(printer, MembersFor(contentOf, parcel.files))
  }

  function SourceOf(contentOf: Contents, file: FileRecord): Source {
    Source(file, |contentOf(file)|, true, contentOf(file))
  }

  ghost predicate AllGood(hash: Hash, printer: Printer, contentOf: Contents, files: seq<FileRecord>) {
    forall i :: 0 <= i < |files| ==> GoodFile(hash, printer, contentOf, files[i])
  }

  lemma PathIsName(file: FileRecord)
    requires AllNormal(file.path)
    ensures PortablePath(file.path) == Some(NameOf(file)) && ManifestPath(file.path) == Some(NameOf(file))
  {
  }

  lemma GoodIsReady(hash: Hash, printer: Printer, contentOf: Contents, file: FileRecord)
    requires GoodFile(hash, printer, contentOf, file)
    ensures Ready(printer, SourceOf(contentOf, file))
    ensures MemberOf(SourceOf(contentOf, file)) == MemberFor(contentOf, file)
    ensures Encodable(printer, REGISTRY_LIMITS, MemberFor(contentOf, file))
    ensures Encodable(printer, NO_LIMITS, MemberFor(contentOf, file))
  {
    PathIsName(file);
    assert contentOf(file)[..file.size] == contentOf(file);
  }

  method EncodeObject(hash: Hash, printer: Printer, contentOf: Contents, kind: Kind, files: seq<FileRecord>)
    returns (bytes: seq<byte>)
    requires AllGood(hash, printer, contentOf, files) && files != []
    ensures bytes == match kind
      case FileObject => contentOf(files[0])
      case PackObject => Encoding(printer, MembersFor(contentOf, files))
  {
    if kind == FileObject {
      return contentOf(files[0]);
    }
    var sources := seq(|files|, i requires 0 <= i < |files| => SourceOf(contentOf, files[i]));
    forall i | 0 <= i < |sources|
      ensures Ready(printer, sources[i]) && MemberOf(sources[i]) == MemberFor(contentOf, files[i])
    {
      GoodIsReady(hash, printer, contentOf, files[i]);
    }
    hide Ready, MemberOf, Encoding;
    var encoded := EncodePack(printer, sources);
    assert MembersOf(printer, sources) == MembersFor(contentOf, files);
    return encoded.value.0;
  }

  // ---- An object and its manifest entries ----

  /** Entry `j` of a parcel's object describes the parcel's file at that entry's member index. */
  lemma EntryOfParcel(m: TransferManifest, parcels: seq<Parcel>, files: seq<FileRecord>, k: nat, j: nat)
    returns (i: nat)
    requires Ships(parcels, files) && k < |parcels| && |parcels[k].files| <= MEMBER_LIMIT
    requires IsSnapshot(m, m.fileCount, m.originalBytes, files, PreparedFrom(parcels, |parcels|))
    requires j < |Filed(m.files, parcels[k].item.id, |m.files|)|
    ensures i < |parcels[k].files|
    ensures var entry, file := Filed(m.files, parcels[k].item.id, |m.files|)[j], parcels[k].files[i];
      && entry.memberIndex == i && ManifestPath(file.path) == Some(entry.path)
      && entry.size == file.size && entry.algorithm == file.algorithm && entry.digest == file.digest
  {
    var prepared := PreparedFrom(parcels, |parcels|);
    var id := parcels[k].item.id;
    var records := FiledRecords(files, prepared.members, id, |files|);
    FiledParallel(m, files, prepared, id, |files|);
    RecordsOfParcel(parcels, files, k);
    ShippedIdsDistinct(parcels, files);
    hide *;
    assert records[j] in multiset(parcels[k].files);
    i :| 0 <= i < |parcels[k].files| && parcels[k].files[i] == records[j];
    PlacedByParcel(parcels, |parcels|, k, i);
    EntryFields(records[j], prepared.members, parcels[k], i);
  }

  lemma ShippedIdsDistinct(parcels: seq<Parcel>, files: seq<FileRecord>)
    requires Ships(parcels, files)
    ensures DistinctIds(Flat(parcels, |parcels|))
  {
    IdsInherited(files, Flat(parcels, |parcels|));
  }

  lemma EntryFields(file: FileRecord, members: seq<TransportMember>, parcel: Parcel, i: nat)
    requires Describable(file, members) && i < |parcel.files| <= MEMBER_LIMIT
    requires Place(members, file.id) == Some(MemberAt(parcel, i))
    ensures var entry := Entry(file, members);
      && entry.memberIndex == i && ManifestPath(file.path) == Some(entry.path)
      && entry.size == file.size && entry.algorithm == file.algorithm && entry.digest == file.digest
  {
    hide Place, ManifestPath;
  }

  ghost function PiecesOf(contentOf: Contents, parcel: Parcel): seq<Piece> {
    match parcel.item.kind
    case FileObject => if parcel.files == [] then [] else [Piece(None, contentOf(parcel.files[0]))]
    case PackObject => PiecesOfPack(MembersFor(contentOf, parcel.files))
  }

  lemma PieceAt(contentOf: Contents, parcel: Parcel, i: nat)
    requires Shaped(parcel) && i < |parcel.files|
    ensures |PiecesOf(contentOf, parcel)| == |parcel.files|
    ensures var piece, file := PiecesOf(contentOf, parcel)[i], parcel.files[i];
      && piece.content == contentOf(file)
      && (piece.header.Some? ==> piece.header.value == HeaderOf(file, NameOf(file)))
  {
  }

  /** Both decoders read a parcel's own pieces out of its stored bytes. */
  lemma StoredPieces(hash: Hash, printer: Printer, parse: Parser, contentOf: Contents, parcel: Parcel)
    requires Inverts(printer, parse) && Shaped(parcel) && AllGood(hash, printer, contentOf, parcel.files)
    ensures var bytes := StoredBytes(printer, contentOf, parcel);
      && Pieces(parse, REGISTRY_LIMITS, parcel.item.kind, bytes) == Some(PiecesOf(contentOf, parcel))
      && Pieces(parse, NO_LIMITS, parcel.item.kind, bytes) == Some(PiecesOf(contentOf, parcel))
  {
    hide GoodFile, Inverts, Decode, Encoding, Encodable;
    if parcel.item.kind == PackObject {
      var members := MembersFor(contentOf, parcel.files);
      forall i | 0 <= i < |members|
        ensures Encodable(printer, REGISTRY_LIMITS, members[i]) && Encodable(printer, NO_LIMITS, members[i])
      {
        GoodIsReady(hash, printer, contentOf, parcel.files[i]);
      }
      RoundTrip(printer, parse, REGISTRY_LIMITS, members);
      RoundTrip(printer, parse, NO_LIMITS, members);
    }
  }

  lemma GoodPieceFits(hash: Hash, printer: Printer, contentOf: Contents, file: FileRecord, piece: Piece, entry: ManifestFile)
    requires GoodFile(hash, printer, contentOf, file) && piece.content == contentOf(file)
    requires piece.header.Some? ==> piece.header.value == HeaderOf(file, NameOf(file))
    requires ManifestPath(file.path) == Some(entry.path)
    requires entry.size == file.size && entry.algorithm == file.algorithm && entry.digest == file.digest
    ensures PieceFits(hash, piece, entry) && entry.path == NameOf(file)
  {
    PathIsName(file);
  }

  /** The Registry verifies every object that the client stored. */
  lemma ParcelFits(hash: Hash, printer: Printer, parse: Parser, contentOf: Contents,
                   m: TransferManifest, parcels: seq<Parcel>, files: seq<FileRecord>, k: nat)
    requires Inverts(printer, parse) && Ships(parcels, files) && k < |parcels| && |parcels[k].files| <= MEMBER_LIMIT
    requires Shaped(parcels[k]) && AllGood(hash, printer, contentOf, parcels[k].files)
    requires IsSnapshot(m, m.fileCount, m.originalBytes, files, PreparedFrom(parcels, |parcels|))
    ensures var entries := Filed(m.files, parcels[k].item.id, |m.files|);
      ObjectFits(hash, parse, REGISTRY_LIMITS, parcels[k].item.kind, entries, StoredBytes(printer, contentOf, parcels[k]))
  {
    var parcel := parcels[k];
    var entries := Filed(m.files, parcel.item.id, |m.files|);
    StoredPieces(hash, printer, parse, contentOf, parcel);
    EntriesOfParcel(m, parcels, files, k);
    hide Ships, IsSnapshot, Pieces, StoredBytes, PiecesOf, PieceFits, GoodFile, Contiguous, Filed, Inverts;
    var pieces := PiecesOf(contentOf, parcel);
    PieceAt(contentOf, parcel, 0);
    forall j | 0 <= j < |entries|
      ensures entries[j].memberIndex < |pieces| && PieceFits(hash, pieces[entries[j].memberIndex], entries[j])
    {
      var i := EntryOfParcel(m, parcels, files, k, j);
      PieceAt(contentOf, parcel, i);
      GoodPieceFits(hash, printer, contentOf, parcel.files[i], pieces[i], entries[j]);
    }
  }

  // ---- A shipment: the plan, its parcels and its manifest ----

  /** The parcels carry the data set, the manifest describes them, and each parcel is well formed. */
  ghost predicate Shipment(hash: Hash, printer: Printer, contentOf: Contents, files: seq<FileRecord>,
                           parcels: seq<Parcel>, m: TransferManifest) {
    && Ships(parcels, files)
    && IsSnapshot(m, m.fileCount, m.originalBytes, files, PreparedFrom(parcels, |parcels|))
    && AllGood(hash, printer, contentOf, files)
    && forall k :: 0 <= k < |parcels| ==> ParcelGood(hash, printer, contentOf, parcels[k])
  }

  ghost predicate ParcelGood(hash: Hash, printer: Printer, contentOf: Contents, parcel: Parcel) {
    && Shaped(parcel) && |parcel.files| <= MEMBER_LIMIT
    && AllGood(hash, printer, contentOf, parcel.files)
  }

  lemma ParcelIsGood(hash: Hash, printer: Printer, contentOf: Contents, files: seq<FileRecord>, parcels: seq<Parcel>, k: nat)
    requires Ships(parcels, files) && k < |parcels| && Shaped(parcels[k])
    requires AllGood(hash, printer, contentOf, files) && |parcels[k].files| <= MEMBER_LIMIT
    ensures ParcelGood(hash, printer, contentOf, parcels[k])
  {
    hide GoodFile, Shaped;
    forall i | 0 <= i < |parcels[k].files|
      ensures GoodFile(hash, printer, contentOf, parcels[k].files[i])
    {
      FlatAt(parcels, k, i, |parcels|);
      assert parcels[k].files[i] in multiset(Flat(parcels, |parcels|));
      assert parcels[k].files[i] in files;
    }
  }

  /** Where the objects of a shipment are stored. */
  ghost predicate Stored(printer: Printer, contentOf: Contents, parcels: seq<Parcel>, store: Store, n: nat)
    requires n <= |parcels|
  {
    forall k :: 0 <= k < n ==>
      parcels[k].item.id in store && store[parcels[k].item.id] == StoredBytes(printer, contentOf, parcels[k])
  }

  lemma ObjectOfParcel(hash: Hash, printer: Printer, contentOf: Contents, files: seq<FileRecord>,
                       parcels: seq<Parcel>, m: TransferManifest, k: nat)
    requires Shipment(hash, printer, contentOf, files, parcels, m) && k < |parcels|
    ensures |m.objects| == |parcels| && m.objects[k].id == parcels[k].item.id && m.objects[k].kind == parcels[k].item.kind
    ensures ParcelGood(hash, printer, contentOf, parcels[k])
  {
    hide Ships, AllGood, ParcelGood;
    ObjectsOfParcels(parcels, |parcels|);
  }

  /** Stored objects pass the Registry's verification. */
  lemma StoredVerifies(hash: Hash, printer: Printer, parse: Parser, contentOf: Contents, files: seq<FileRecord>,
                       parcels: seq<Parcel>, m: TransferManifest, store: Store, k: nat)
    requires Inverts(printer, parse) && Shipment(hash, printer, contentOf, files, parcels, m)
    requires Stored(printer, contentOf, parcels, store, |parcels|) && k < |parcels|
    ensures k < |m.objects| && m.objects[k].id in store
    ensures ObjectFits(hash, parse, REGISTRY_LIMITS, m.objects[k].kind, FilesOf(m, k), store[m.objects[k].id])
  {
    ObjectOfParcel(hash, printer, contentOf, files, parcels, m, k);
    hide Inverts, Ships, IsSnapshot, AllGood, ObjectFits, StoredBytes, Shaped, Filed;
    ParcelFits(hash, printer, parse, contentOf, m, parcels, files, k);
  }

  lemma ShippedNames(hash: Hash, printer: Printer, contentOf: Contents, files: seq<FileRecord>, m: TransferManifest, prepared: Prepared)
    requires IsSnapshot(m, m.fileCount, m.originalBytes, files, prepared) && AllGood(hash, printer, contentOf, files)
    ensures forall i :: 0 <= i < |files| ==> m.files[i].path == NameOf(files[i])
    ensures PathsOf(m.files, |m.files|) == NamesOf(files)
    ensures AllFieldsOk(m.files)
  {
    forall i | 0 <= i < |files|
      ensures m.files[i].path == NameOf(files[i]) && FieldsOk(m.files[i])
    {
      assert Describable(files[i], prepared.members) && GoodFile(hash, printer, contentOf, files[i]);
      PathIsName(files[i]);
      FieldsExactly(m.files[i]);
    }
  }

  /** Each file comes back with its own content. */
  lemma FileComesBack(hash: Hash, printer: Printer, parse: Parser, contentOf: Contents, files: seq<FileRecord>,
                      parcels: seq<Parcel>, m: TransferManifest, store: Store, restored: map<string, seq<byte>>, x: nat)
    requires Inverts(printer, parse) && Shipment(hash, printer, contentOf, files, parcels, m)
    requires Stored(printer, contentOf, parcels, store, |parcels|)
    requires IsRestored(restored, hash, parse, m, store) && x < |files|
    ensures NameOf(files[x]) in restored && restored[NameOf(files[x])] == contentOf(files[x])
  {
    var k, i := WhereIs(parcels, files, x);
    ObjectOfParcel(hash, printer, contentOf, files, parcels, m, k);
    ShippedNames(hash, printer, contentOf, files, m, PreparedFrom(parcels, |parcels|));
    EntryPlaced(m, parcels, files, x, k, i);
    StoredPieces(hash, printer, parse, contentOf, parcels[k]);
    PieceAt(contentOf, parcels[k], i);
    FiledAre(m.files, parcels[k].item.id, |m.files|);
    hide Ships, IsSnapshot, AllGood, GoodFile, Inverts, StoredBytes, Pieces, PiecesOf, Shaped, Filed, ObjectFits, AllFieldsOk;
    assert m.files[x] in FilesOf(m, k);
    var j :| 0 <= j < |FilesOf(m, k)| && FilesOf(m, k)[j] == m.files[x];
    assert ObjectRestorable(hash, parse, m, store, k) && Holds(restored, parse, m, store, k);
  }

  lemma {:induction false} WhereIs(parcels: seq<Parcel>, files: seq<FileRecord>, x: nat) returns (k: nat, i: nat)
    requires Ships(parcels, files) && x < |files|
    ensures k < |parcels| && i < |parcels[k].files| && parcels[k].files[i] == files[x]
  {
    assert files[x] in multiset(Flat(parcels, |parcels|));
    var y :| 0 <= y < |Flat(parcels, |parcels|)| && Flat(parcels, |parcels|)[y] == files[x];
    k, i := FlatFind(parcels, |parcels|, y);
  }

  lemma EntryPlaced(m: TransferManifest, parcels: seq<Parcel>, files: seq<FileRecord>, x: nat, k: nat, i: nat)
    requires Ships(parcels, files) && x < |files|
    requires IsSnapshot(m, m.fileCount, m.originalBytes, files, PreparedFrom(parcels, |parcels|))
    requires k < |parcels| && i < |parcels[k].files| <= MEMBER_LIMIT && parcels[k].files[i] == files[x]
    ensures |m.files| == |files| && m.files[x].objectId == parcels[k].item.id && m.files[x].memberIndex == i
  {
    ShippedIdsDistinct(parcels, files);
    PlacedByParcel(parcels, |parcels|, k, i);
    hide Place, Ships;
    assert Describable(files[x], PreparedFrom(parcels, |parcels|).members);
  }

  /** A restore of a stored shipment yields exactly the data set. */
  lemma RestoredIsDataset(hash: Hash, printer: Printer, parse: Parser, contentOf: Contents, files: seq<FileRecord>,
                          parcels: seq<Parcel>, m: TransferManifest, store: Store, restored: map<string, seq<byte>>)
    requires Inverts(printer, parse) && Shipment(hash, printer, contentOf, files, parcels, m)
    requires Stored(printer, contentOf, parcels, store, |parcels|) && IsRestored(restored, hash, parse, m, store)
    ensures IsDataset(restored, contentOf, files)
  {
    ShippedNames(hash, printer, contentOf, files, m, PreparedFrom(parcels, |parcels|));
    forall x | 0 <= x < |files|
      ensures NameOf(files[x]) in restored && restored[NameOf(files[x])] == contentOf(files[x])
    {
      FileComesBack(hash, printer, parse, contentOf, files, parcels, m, store, restored, x);
    }
  }

  // ---- The whole journey ----

  function FilesAt(plan: Plan, k: nat): seq<FileRecord>
    requires k < |plan.packs| + |plan.standalone|
  {
    if k < |plan.packs| then plan.packs[k] else [plan.standalone[k - |plan.packs|]]
  }

  lemma ParcelAt(encoder: Encoder, budget: u64, plan: Plan, ids: seq<ObjectId>, k: nat)
    requires |ids| == |plan.packs| + |plan.standalone| && k < |ids|
    ensures Parcels(encoder, budget, plan, ids)[k].files == FilesAt(plan, k)
  {
  }

  /** The prepared objects are those of the parcels, with distinct ids. */
  ghost predicate ToUpload(hash: Hash, printer: Printer, contentOf: Contents, parcels: seq<Parcel>, objects: seq<TransportObject>) {
    && |objects| == |parcels|
    && (forall k :: 0 <= k < |parcels| ==> ParcelGood(hash, printer, contentOf, parcels[k]) && objects[k] == parcels[k].item)
    && forall j, k :: 0 <= j < k < |parcels| ==> parcels[j].item.id != parcels[k].item.id
  }

  /** Encodes and stores the object of every parcel. */
  method UploadObjects(hash: Hash, printer: Printer, contentOf: Contents, encoder: Encoder, budget: u64,
                       plan: Plan, ids: seq<ObjectId>, objects: seq<TransportObject>)
    returns (store: Store)
    requires |ids| == |plan.packs| + |plan.standalone| == |objects|
    requires ToUpload(hash, printer, contentOf, Parcels(encoder, budget, plan, ids), objects)
    ensures Stored(printer, contentOf, Parcels(encoder, budget, plan, ids), store, |ids|)
  {
    hide Parcels, StoredBytes, ParcelGood;
    ghost var parcels := Parcels(encoder, budget, plan, ids);
    store := map[];
    for k := 0 to |objects|
      invariant Stored(printer, contentOf, parcels, store, k)
    {
      ParcelAt(encoder, budget, plan, ids, k);
      ParcelGoodParts(hash, printer, contentOf, parcels[k]);
      var bytes := EncodeObject(hash, printer, contentOf, objects[k].kind, FilesAt(plan, k));
      BytesStored(printer, contentOf, parcels[k], bytes);
      store := store[objects[k].id := bytes];
    }
  }

  lemma ParcelGoodParts(hash: Hash, printer: Printer, contentOf: Contents, parcel: Parcel)
    requires ParcelGood(hash, printer, contentOf, parcel)
    ensures AllGood(hash, printer, contentOf, parcel.files) && parcel.files != []
  {
    hide AllGood;
  }

  lemma BytesStored(printer: Printer, contentOf: Contents, parcel: Parcel, bytes: seq<byte>)
    requires parcel.files != []
    requires bytes == match parcel.item.kind
      case FileObject => contentOf(parcel.files[0])
      case PackObject => Encoding(printer, MembersFor(contentOf, parcel.files))
    ensures bytes == StoredBytes(printer, contentOf, parcel)
  {
    hide Encoding;
  }

  /** The Registry verifies one object after the other. */
  method VerifyTransfer(hash: Hash, parse: Parser, m: TransferManifest, store: Store) returns (verified: bool)
    requires ValidManifest(m) && forall k :: 0 <= k < |m.objects| ==> m.objects[k].id in store
    ensures verified <==> AllVerified(hash, parse, m, store)
  {
    hide ObjectFits, Filed, FieldsOk, Contiguous;
    for k := 0 to |m.objects|
      invariant forall j :: 0 <= j < k ==>
        ObjectFits(hash, parse, REGISTRY_LIMITS, m.objects[j].kind, FilesOf(m, j), store[m.objects[j].id])
    {
      assert ObjectOk(m.objects[k], Filed(m.files, m.objects[k].id, |m.files|));
      var fits := VerifyTransportObject(hash, parse, m.objects[k].kind, Filed(m.files, m.objects[k].id, |m.files|),
                                        store[m.objects[k].id]);
      if fits.None? {
        return false;
      }
    }
    return true;
  }

  /** New ids, one for each number, that no file has. */
  ghost predicate IsIdSource(newId: nat -> ObjectId, files: seq<FileRecord>) {
    && (forall i: nat, j: nat :: i != j ==> newId(i) != newId(j))
    && (forall i: nat, j: nat :: j < |files| ==> newId(i) != files[j].id)
  }

  lemma {:induction false} AllDescribable(hash: Hash, printer: Printer, contentOf: Contents, files: seq<FileRecord>, parcels: seq<Parcel>)
    requires Ships(parcels, files) && AllGood(hash, printer, contentOf, files)
    ensures forall x :: 0 <= x < |files| ==> Describable(files[x], PreparedFrom(parcels, |parcels|).members)
  {
    ShippedIdsDistinct(parcels, files);
    forall x | 0 <= x < |files|
      ensures Describable(files[x], PreparedFrom(parcels, |parcels|).members)
    {
      var k, i := WhereIs(parcels, files, x);
      PlacedByParcel(parcels, |parcels|, k, i);
      assert GoodFile(hash, printer, contentOf, files[x]);
      PathIsName(files[x]);
    }
  }

  /** The parcels of a plan of a good data set. */
  lemma PlanOfGoodDataset(hash: Hash, printer: Printer, lower: Lowercase, contentOf: Contents, encoder: Encoder, budget: u64,
                          files: seq<FileRecord>, options: PackOptions, plan: Plan, ids: seq<ObjectId>)
    requires GoodDataset(hash, printer, lower, contentOf, files) && IsPlan(files, options, plan) && CountablePacks(plan)
    requires |ids| == |plan.packs| + |plan.standalone| && FreshIds(ids, files)
    ensures var parcels := Parcels(encoder, budget, plan, ids);
      && Ships(parcels, files) && AllGood(hash, printer, contentOf, files)
      && forall k :: 0 <= k < |parcels| ==> ParcelGood(hash, printer, contentOf, parcels[k])
  {
    hide GoodFile, NoClash, IsPlan, FreshIds, ParcelGood, Shaped;
    var parcels := Parcels(encoder, budget, plan, ids);
    assert AllGood(hash, printer, contentOf, files);
    ParcelsShip(encoder, budget, files, options, plan, ids);
    hide Ships, AllGood;
    forall k | 0 <= k < |parcels|
      ensures ParcelGood(hash, printer, contentOf, parcels[k])
    {
      ParcelsShaped(encoder, budget, files, options, plan, ids, k);
      ParcelIsGood(hash, printer, contentOf, files, parcels, k);
    }
  }

  /** The Registry accepts the manifest of a good data set, and the client its names. */
  lemma GoodDatasetAccepted(hash: Hash, printer: Printer, lower: Lowercase, contentOf: Contents, encoder: Encoder, budget: u64,
                            files: seq<FileRecord>, options: PackOptions, plan: Plan, ids: seq<ObjectId>, m: TransferManifest)
    requires GoodDataset(hash, printer, lower, contentOf, files) && IsPlan(files, options, plan) && CountablePacks(plan)
    requires |ids| == |plan.packs| + |plan.standalone| && FreshIds(ids, files)
    requires m.fileCount == |files| && m.originalBytes == Load(files)
    requires var parcels := Parcels(encoder, budget, plan, ids);
      IsSnapshot(m, m.fileCount, m.originalBytes, files, PreparedFrom(parcels, |parcels|))
    ensures ValidManifest(m) && DistinctLower(lower, m.files) && NoClash(PathsOf(m.files, |m.files|))
    ensures Shipment(hash, printer, contentOf, files, Parcels(encoder, budget, plan, ids), m)
  {
    hide *;
    var parcels := Parcels(encoder, budget, plan, ids);
    PlanOfGoodDataset(hash, printer, lower, contentOf, encoder, budget, files, options, plan, ids);
    GoodDatasetParts(hash, printer, lower, contentOf, files);
    ShippedNames(hash, printer, contentOf, files, m, PreparedFrom(parcels, |parcels|));
    NamesDiffer(hash, printer, lower, contentOf, files, m, PreparedFrom(parcels, |parcels|));
    forall k | 0 <= k < |plan.packs|
      ensures |plan.packs[k]| <= MEMBER_LIMIT
    {
      ParcelsShaped(encoder, budget, files, options, plan, ids, k);
      ParcelGoodSize(hash, printer, contentOf, parcels[k]);
    }
    AllFieldsExactly(m.files);
    AcceptedExactly(m, encoder, budget, files, options, plan, ids);
    ShipmentParts(hash, printer, contentOf, files, parcels, m);
  }

  lemma GoodDatasetParts(hash: Hash, printer: Printer, lower: Lowercase, contentOf: Contents, files: seq<FileRecord>)
    requires GoodDataset(hash, printer, lower, contentOf, files)
    ensures DistinctIds(files) && Total(files) <= U64_MAX && NoClash(NamesOf(files)) && DistinctPaths(files)
    ensures AllGood(hash, printer, contentOf, files)
  {
    hide GoodFile, NoClash, DistinctIds, Total;
    forall i, j | 0 <= i < j < |files|
      ensures files[i].path != files[j].path
    {
      assert lower(NameOf(files[i])) != lower(NameOf(files[j]));
    }
  }

  lemma NamesDiffer(hash: Hash, printer: Printer, lower: Lowercase, contentOf: Contents, files: seq<FileRecord>,
                    m: TransferManifest, prepared: Prepared)
    requires GoodDataset(hash, printer, lower, contentOf, files)
    requires IsSnapshot(m, m.fileCount, m.originalBytes, files, prepared)
    requires forall i :: 0 <= i < |files| ==> m.files[i].path == NameOf(files[i])
    ensures DistinctLower(lower, m.files)
  {
    hide GoodFile, NoClash, DistinctIds, Total, NameOf, Describable;
  }

  lemma ParcelGoodSize(hash: Hash, printer: Printer, contentOf: Contents, parcel: Parcel)
    requires ParcelGood(hash, printer, contentOf, parcel)
    ensures |parcel.files| <= MEMBER_LIMIT
  {
  }

  lemma {:induction false} ShipmentParts(hash: Hash, printer: Printer, contentOf: Contents, files: seq<FileRecord>, parcels: seq<Parcel>, m: TransferManifest)
    requires Ships(parcels, files) && AllGood(hash, printer, contentOf, files)
    requires IsSnapshot(m, m.fileCount, m.originalBytes, files, PreparedFrom(parcels, |parcels|))
    requires forall k :: 0 <= k < |parcels| ==> ParcelGood(hash, printer, contentOf, parcels[k])
    ensures Shipment(hash, printer, contentOf, files, parcels, m)
  {
  }

  lemma FreshFromSource(newId: nat -> ObjectId, files: seq<FileRecord>, ids: seq<ObjectId>)
    requires IsIdSource(newId, files) && forall i: nat :: i < |ids| ==> ids[i] == newId(i)
    ensures FreshIds(ids, files)
  {
  }

  lemma ReadyToUpload(encoder: Encoder, budget: u64, plan: Plan, ids: seq<ObjectId>, files: seq<FileRecord>)
    requires |ids| == |plan.packs| + |plan.standalone|
    requires Ships(Parcels(encoder, budget, plan, ids), files)
    ensures var parcels := Parcels(encoder, budget, plan, ids);
      && |PreparedFrom(parcels, |parcels|).objects| == |parcels|
      && (forall k :: 0 <= k < |parcels| ==> PreparedFrom(parcels, |parcels|).objects[k] == parcels[k].item)
      && forall j, k :: 0 <= j < k < |parcels| ==> parcels[j].item.id != parcels[k].item.id
  {
    var parcels := Parcels(encoder, budget, plan, ids);
    ObjectsOfParcels(parcels, |parcels|);
  }

  lemma AllStoredVerified(hash: Hash, printer: Printer, parse: Parser, contentOf: Contents, files: seq<FileRecord>,
                          parcels: seq<Parcel>, m: TransferManifest, store: Store)
    requires Inverts(printer, parse) && Shipment(hash, printer, contentOf, files, parcels, m)
    requires Stored(printer, contentOf, parcels, store, |parcels|)
    ensures AllVerified(hash, parse, m, store) && forall k :: 0 <= k < |m.objects| ==> m.objects[k].id in store
  {
    hide Stored, Inverts, Ships, AllGood, ParcelGood;
    ObjectsOfParcels(parcels, |parcels|);
    assert |m.objects| == |parcels|;
    hide Shipment;
    forall k | 0 <= k < |m.objects|
      ensures m.objects[k].id in store
      ensures ObjectFits(hash, parse, REGISTRY_LIMITS, m.objects[k].kind, FilesOf(m, k), store[m.objects[k].id])
    {
      StoredVerifies(hash, printer, parse, contentOf, files, parcels, m, store, k);
    }
  }

  /** Plans and encodes a good data set and submits its manifest, which the Registry accepts. */
  method Register(hash: Hash, printer: Printer, lower: Lowercase, contentOf: Contents, encoder: Encoder,
                  newId: nat -> ObjectId, files: seq<FileRecord>, options: PackOptions, budget: u64)
    returns (accepted: bool, m: TransferManifest, plan: Plan, ids: seq<ObjectId>, objects: seq<TransportObject>)
    requires GoodDataset(hash, printer, lower, contentOf, files) && PacksCountable(files, options)
    requires Sane(encoder) && (forall members :: encoder(members).Some?) && IsIdSource(newId, files)
    requires 0 < options.maximumMemberSize && 0 < options.targetPackSize
    ensures accepted && ValidManifest(m) && m.fileCount == |files|
    ensures DistinctLower(lower, m.files) && NoClash(PathsOf(m.files, |m.files|))
    ensures |ids| == |plan.packs| + |plan.standalone| == |objects|
    ensures var parcels := Parcels(encoder, budget, plan, ids);
      Shipment(hash, printer, contentOf, files, parcels, m) && ToUpload(hash, printer, contentOf, parcels, objects)
  {
    hide *;
    var planned := PlanPacks(files, options);
    plan := planned.value;
    ids := seq(|plan.packs| + |plan.standalone|, i requires 0 <= i < |plan.packs| + |plan.standalone| => newId(i));
    FreshFromSource(newId, files, ids);
    ghost var parcels := Parcels(encoder, budget, plan, ids);
    PlanIsCountable(files, options, plan);
    PlanOfGoodDataset(hash, printer, lower, contentOf, encoder, budget, files, options, plan, ids);
    GoodDatasetParts(hash, printer, lower, contentOf, files);

    var cache := new PackCache(budget);
    EverythingReadable(encoder, plan);
    var prepared := PrepareTransportPlan(cache, encoder, plan, ids);
    objects := prepared.value.objects;
    var total := OriginalBytes(files);
    AllDescribable(hash, printer, contentOf, files, parcels);
    var snapshot := BuildManifestSnapshot(|files|, total, files, prepared.value);
    m := snapshot.value;
    SnapshotTotals(m, |files|, total, files, prepared.value);
    GoodDatasetAccepted(hash, printer, lower, contentOf, encoder, budget, files, options, plan, ids, m);
    ReadyToUpload(encoder, budget, plan, ids, files);
    IsToUpload(hash, printer, contentOf, parcels, objects);
    accepted := ValidateManifest(m);
  }

  lemma PlanIsCountable(files: seq<FileRecord>, options: PackOptions, plan: Plan)
    requires PacksCountable(files, options) && IsPlan(files, options, plan)
    ensures CountablePacks(plan)
  {
    hide CountablePacks, IsPlan;
  }

  lemma IsToUpload(hash: Hash, printer: Printer, contentOf: Contents, parcels: seq<Parcel>, objects: seq<TransportObject>)
    requires |objects| == |parcels|
    requires forall k :: 0 <= k < |parcels| ==> ParcelGood(hash, printer, contentOf, parcels[k])
    requires forall k :: 0 <= k < |parcels| ==> objects[k] == parcels[k].item
    requires forall j, k :: 0 <= j < k < |parcels| ==> parcels[j].item.id != parcels[k].item.id
    ensures ToUpload(hash, printer, contentOf, parcels, objects)
  {
    hide ParcelGood;
  }

  /** Planning, encoding, registering, verifying and restoring a good data set all succeed, and
      the restored folder is the data set: nothing missing, nothing more, every byte the same. */
  method Journey(hash: Hash, printer: Printer, parse: Parser, lower: Lowercase, contentOf: Contents, encoder: Encoder,
                 newId: nat -> ObjectId, files: seq<FileRecord>, options: PackOptions, budget: u64)
    returns (accepted: bool, verified: bool, restored: bool, folder: Folder)
    requires Inverts(printer, parse) && GoodDataset(hash, printer, lower, contentOf, files) && PacksCountable(files, options)
    requires Sane(encoder) && (forall members :: encoder(members).Some?) && IsIdSource(newId, files)
    requires 0 < options.maximumMemberSize && 0 < options.targetPackSize
    ensures accepted && verified && restored && IsDataset(folder.files, contentOf, files)
  {
    hide *;
    var m, plan, ids, objects;
    accepted, m, plan, ids, objects := Register(hash, printer, lower, contentOf, encoder, newId, files, options, budget);
    ghost var parcels := Parcels(encoder, budget, plan, ids);
    var store := UploadObjects(hash, printer, contentOf, encoder, budget, plan, ids, objects);
    AllStoredVerified(hash, printer, parse, contentOf, files, parcels, m, store);
    verified := VerifyTransfer(hash, parse, m, store);

    folder := new Folder();
    VerifiedIsRestorable(hash, parse, lower, m, store);
    restored := RestoreDataset(hash, parse, lower, m, |files|, store, folder);
    RestoredIsDataset(hash, printer, parse, contentOf, files, parcels, m, store, folder.files);
  }

  lemma EverythingReadable(encoder: Encoder, plan: Plan)
    requires forall members :: encoder(members).Some?
    ensures Readable(encoder, plan)
  {
  }

  lemma SnapshotTotals(m: TransferManifest, fileCount: nat, originalBytes: nat, files: seq<FileRecord>, prepared: Prepared)
    requires IsSnapshot(m, fileCount, originalBytes, files, prepared)
    ensures m.fileCount == fileCount && m.originalBytes == originalBytes
  {
  }
}
