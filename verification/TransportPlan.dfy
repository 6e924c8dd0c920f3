/** Turning a pack plan into transport objects, staging the packs that fit the cache budget. */
module TransportPlan {
  import opened Common
  import opened Files
  import opened PackPlan

  type ObjectId = nat

  datatype Kind = FileObject | PackObject

  datatype Compression = Uncompressed | Zstd

  datatype TransportObject = TransportObject(
    id: ObjectId,
    kind: Kind,
    compression: Compression,
    encodingVersion: nat,
    originalBytes: u64,
    transportBytes: u64)

  datatype TransportMember = TransportMember(objectId: ObjectId, fileId: nat, memberIndex: u32)

  datatype UploadSource = UploadSource(id: ObjectId, size: u64)

  datatype Prepared = Prepared(
    objects: seq<TransportObject>,
    members: seq<TransportMember>,
    uploads: seq<UploadSource>)

  /** The sizes of the buffers that encoding these members writes, the same every time; none
      when a member cannot be read. */
  type Encoder = seq<FileRecord> -> Option<seq<nat>>

  function Bytes(writes: seq<nat>, n: nat): nat
    requires n <= |writes|
  {
    if n == 0 then 0 else Bytes(writes, n - 1) + writes[n - 1]
  }

  /** An encoded pack is shorter than 2^64 bytes. */
  ghost predicate Sane(encoder: Encoder) {
    forall members :: encoder(members).Some? ==>
      Bytes(encoder(members).value, |encoder(members).value|) <= U64_MAX
  }

  function PackSize(encoder: Encoder, members: seq<FileRecord>): nat {
    match encoder(members)
    case None => 0
    case Some(writes) => Bytes(writes, |writes|)
  }

  /** A file that refuses to grow past its limit. */
  class CappedWriter {
    var inner: nat
    var written: u64
    const limit: u64

    ghost predicate Valid()
      reads this
    {
      written == Min(inner, U64_MAX) && written <= limit
    }

    constructor (limit: u64)
      ensures Valid() && inner == 0 && this.limit == limit
    {
      this.limit := limit;
      inner, written := 0, 0;
    }

    method Write(length: nat) returns (ok: bool)
      requires Valid()
      modifies this
      ensures Valid()
      ensures ok <==> Min(old(inner) + length, U64_MAX) <= limit
      ensures inner == old(inner) + if ok then length else 0
    {
      if SaturatingAdd(written, Min(length, U64_MAX)) > limit {
        return false;
      }
      inner := inner + length;
      written := SaturatingAdd(written, Min(length, U64_MAX));
      return true;
    }
  }

  datatype StagedPack = StagedPack(id: ObjectId, size: nat)

  function StagedBytes(staged: seq<StagedPack>): nat {
    if staged == [] then 0 else StagedBytes(staged[..|staged| - 1]) + staged[|staged| - 1].size
  }

  lemma StagedOneMore(staged: seq<StagedPack>, pack: StagedPack)
    ensures StagedBytes(staged + [pack]) == StagedBytes(staged) + pack.size
  {
    assert (staged + [pack])[..|staged|] == staged;
  }

  /** What the cache holds and what the planner believes it holds. */
  datatype Account = Account(staged: nat, cached: u64)

  /** A pack of this size fits what the planner believes is left of the budget. */
  predicate FitsCache(budget: u64, account: Account, size: nat) {
    0 < SaturatingSub(budget, account.cached) && size <= SaturatingSub(budget, account.cached)
  }

  /** The account after a pack of this size is staged, if it fits. */
  function Keep(budget: u64, account: Account, size: nat): Account {
    if FitsCache(budget, account, size)
    then Account(account.staged + size, SaturatingAdd(account.cached, size))
    else account
  }

  /** A large file travels compressed only when that saves bytes and could be cached. */
  predicate UsesPack(budget: u64, size: nat, original: u64) {
    size < original && size <= budget
  }

  /** The account after a large file: a pack that saves nothing is deleted again, and its size
      subtracted although it was never added. */
  function KeepIfSmaller(budget: u64, account: Account, size: nat, original: u64): Account {
    if UsesPack(budget, size, original) then Keep(budget, account, size)
    else if FitsCache(budget, account, size) then account.(cached := SaturatingSub(account.cached, size))
    else account
  }

  function AfterPacks(encoder: Encoder, budget: u64, packs: seq<seq<FileRecord>>, k: nat): Account
    requires k <= |packs|
  {
    if k == 0 then Account(0, 0)
    else Keep(budget, AfterPacks(encoder, budget, packs, k - 1), PackSize(encoder, packs[k - 1]))
  }

  function AfterFiles(encoder: Encoder, budget: u64, start: Account, files: seq<FileRecord>, k: nat): Account
    requires k <= |files|
  {
    if k == 0 then start
    else KeepIfSmaller(budget, AfterFiles(encoder, budget, start, files, k - 1),
                       PackSize(encoder, [files[k - 1]]), files[k - 1].size)
  }

  /** The largest that the temporary of the first `n` writes gets: a write past the limit is
      refused, and the temporary deleted. */
  function Temporary(limit: nat, writes: seq<nat>, n: nat): nat
    requires n <= |writes|
  {
    if n == 0 then 0
    else if Bytes(writes, n) <= limit then Bytes(writes, n)
    else Temporary(limit, writes, n - 1)
  }

  /** The most bytes on disk while these members are staged or measured. */
  function Held(encoder: Encoder, budget: u64, account: Account, members: seq<FileRecord>): nat {
    match encoder(members)
    case None => account.staged
    case Some(writes) => account.staged + Temporary(SaturatingSub(budget, account.cached), writes, |writes|)
  }

  function PeakAfterPacks(encoder: Encoder, budget: u64, packs: seq<seq<FileRecord>>, k: nat): nat
    requires k <= |packs|
  {
    if k == 0 then 0
    else Max(PeakAfterPacks(encoder, budget, packs, k - 1),
             Held(encoder, budget, AfterPacks(encoder, budget, packs, k - 1), packs[k - 1]))
  }

  function PeakAfterFiles(encoder: Encoder, budget: u64, start: Account, peak: nat, files: seq<FileRecord>, k: nat): nat
    requires k <= |files|
  {
    if k == 0 then peak
    else Max(PeakAfterFiles(encoder, budget, start, peak, files, k - 1),
             Held(encoder, budget, AfterFiles(encoder, budget, start, files, k - 1), [files[k - 1]]))
  }

  class PackCache {
    const budget: u64
    var staged: seq<StagedPack>
    var cachedBytes: u64
    /** The most bytes that were on disk at once: staged packs and the open temporary. */
    ghost var peak: nat

    constructor (budget: u64)
      ensures this.budget == budget && Abs() == Account(0, 0) && peak == 0
    {
      this.budget := budget;
      staged, cachedBytes, peak := [], 0, 0;
    }

    ghost function Abs(): Account
      reads this
    {
      Account(StagedBytes(staged), cachedBytes)
    }

    /** Stages the pack when it stays within `limit`, and otherwise only measures it. */
    method StageOrMeasure(encoder: Encoder, members: seq<FileRecord>, id: ObjectId, limit: u64)
      returns (r: Option<(u64, bool)>)
      requires Sane(encoder)
      modifies this`staged, this`peak
      ensures r.None? <==> encoder(members).None?
      ensures r.None? ==> staged == old(staged) && peak == old(peak)
      ensures r.Some? ==>
        peak == Max(old(peak), StagedBytes(old(staged)) + Temporary(limit, encoder(members).value, |encoder(members).value|))
      ensures r.Some? ==>
        && r.value.0 == PackSize(encoder, members)
        && (r.value.1 <==> 0 < limit && r.value.0 <= limit)
        && staged == old(staged) + if r.value.1 then [StagedPack(id, r.value.0)] else []
    {
      var encoded := encoder(members);
      if encoded.None? {
        return None;
      }
      var writes := encoded.value;
      peak := Max(peak, StagedBytes(staged));
      if limit == 0 {
        TemporaryStops(0, writes, 0, |writes|);
        var size := MeasurePack(writes);
        return Some((size, false));
      }
      var writer := new CappedWriter(limit);
      var i := 0;
      while i < |writes|
        invariant 0 <= i <= |writes|
        invariant writer.Valid() && writer.limit == limit && fresh(writer)
        invariant writer.inner == Bytes(writes, i)
        invariant staged == old(staged) && writer.inner <= limit
        invariant peak == Max(old(peak), StagedBytes(staged) + Temporary(limit, writes, i))
        invariant Temporary(limit, writes, i) == Bytes(writes, i)
      {
        BytesGrow(writes, i + 1);
        var ok := writer.Write(writes[i]);
        if !ok {
          TemporaryStops(limit, writes, i, |writes|);
          var size := MeasurePack(writes);
          return Some((size, false));
        }
        peak := Max(peak, StagedBytes(staged) + writer.inner);
        i := i + 1;
      }
      staged := staged + [StagedPack(id, writer.inner)];
      return Some((writer.inner, true));
    }

    method MeasurePack(writes: seq<nat>) returns (size: u64)
      requires Bytes(writes, |writes|) <= U64_MAX
      ensures size == Bytes(writes, |writes|)
    {
      size := 0;
      for i := 0 to |writes|
        invariant size == Bytes(writes, i)
      {
        BytesGrow(writes, i + 1);
        size := size + writes[i];
      }
    }

    /** Deletes the pack that was staged last. */
    method RemoveLast()
      requires staged != []
      modifies this`staged
      ensures staged == old(staged)[..|old(staged)| - 1]
    {
      staged := staged[..|staged| - 1];
    }
  }

  lemma {:induction false} BytesGrow(writes: seq<nat>, n: nat)
    requires n <= |writes|
    ensures Bytes(writes, n) <= Bytes(writes, |writes|)
    decreases |writes| - n
  {
    if n == |writes| {
    } else {
      BytesGrow(writes, n + 1);
    }
  }

  lemma {:induction false} BytesMonotone(writes: seq<nat>, i: nat, n: nat)
    requires i <= n <= |writes|
    ensures Bytes(writes, i) <= Bytes(writes, n)
    decreases n - i
  {
    if i == n {
    } else {
      BytesMonotone(writes, i, n - 1);
    }
  }

  /** Nothing follows a refused write. */
  lemma {:induction false} TemporaryStops(limit: nat, writes: seq<nat>, i: nat, n: nat)
    requires i <= n <= |writes| && Temporary(limit, writes, i) == Bytes(writes, i)
    requires i < |writes| ==> limit < Bytes(writes, i + 1) || limit == Bytes(writes, i)
    ensures Temporary(limit, writes, n) == Temporary(limit, writes, i)
    decreases n - i
  {
    if i == n {
    } else {
      TemporaryStops(limit, writes, i, n - 1);
      BytesMonotone(writes, i, n);
      BytesMonotone(writes, i + 1, n);
    }
  }

  // ---- The prepared plan ----

  /** One transport object and the files it carries, in member order. */
  datatype Parcel = Parcel(item: TransportObject, files: seq<FileRecord>)

  function PackParcel(encoder: Encoder, id: ObjectId, files: seq<FileRecord>): Parcel {
    Parcel(TransportObject(id, PackObject, Zstd, 2, Load(files), Min(PackSize(encoder, files), U64_MAX)), files)
  }

  function FileParcel(file: FileRecord): Parcel {
    Parcel(TransportObject(file.id, FileObject, Uncompressed, 1, file.size, file.size), [file])
  }

  function LargeParcel(encoder: Encoder, budget: u64, id: ObjectId, file: FileRecord): Parcel {
    if UsesPack(budget, PackSize(encoder, [file]), file.size) then PackParcel(encoder, id, [file])
    else FileParcel(file)
  }

  /** The parcels of a plan: its packs and then its standalone files. */
  function Parcels(encoder: Encoder, budget: u64, plan: Plan, ids: seq<ObjectId>): (parcels: seq<Parcel>)
    requires |ids| == |plan.packs| + |plan.standalone|
    ensures |parcels| == |ids|
  {
    seq(|plan.packs| + |plan.standalone|, i requires 0 <= i < |plan.packs| + |plan.standalone| =>
      if i < |plan.packs| then PackParcel(encoder, ids[i], plan.packs[i])
      else LargeParcel(encoder, budget, ids[i], plan.standalone[i - |plan.packs|]))
  }

  /** A standalone file travels raw exactly when its pack is not smaller or is over the budget, and
      never takes more bytes than it has. */
  lemma LargeFileTravels(encoder: Encoder, budget: u64, plan: Plan, ids: seq<ObjectId>, k: nat)
    requires |ids| == |plan.packs| + |plan.standalone| && k < |plan.standalone|
    ensures var file, item := plan.standalone[k], Parcels(encoder, budget, plan, ids)[|plan.packs| + k].item;
      var packed := PackSize(encoder, [file]);
      && item.transportBytes <= file.size
      && (item.kind == FileObject <==> file.size <= packed || budget < packed)
      && item.transportBytes == if item.kind == FileObject then file.size else packed
  {
    hide PackSize, Load;
  }

  function ParcelMembers(parcel: Parcel, n: nat): seq<TransportMember>
    requires n <= |parcel.files|
  {
    if n == 0 then []
    else ParcelMembers(parcel, n - 1) + [TransportMember(parcel.item.id, parcel.files[n - 1].id, Truncate32(n - 1))]
  }

  function WithParcel(before: Prepared, parcel: Parcel): Prepared {
    Prepared(
      before.objects + [parcel.item],
      before.members + ParcelMembers(parcel, |parcel.files|),
      before.uploads + [UploadSource(parcel.item.id, parcel.item.transportBytes)])
  }

  /** What the first `k` parcels contribute to the plan. */
  function PreparedFrom(parcels: seq<Parcel>, k: nat): Prepared
    requires k <= |parcels|
  {
    if k == 0 then Prepared([], [], []) else WithParcel(PreparedFrom(parcels, k - 1), parcels[k - 1])
  }

  /** Every member of the plan can be read. */
  ghost predicate Readable(encoder: Encoder, plan: Plan) {
    && (forall k :: 0 <= k < |plan.packs| ==> encoder(plan.packs[k]).Some?)
    && (forall k :: 0 <= k < |plan.standalone| ==> encoder([plan.standalone[k]]).Some?)
  }

  method AddMembers(parcel: Parcel, members: seq<TransportMember>) returns (r: seq<TransportMember>)
    ensures r == members + ParcelMembers(parcel, |parcel.files|)
  {
    r := members;
    for i := 0 to |parcel.files|
      invariant r == members + ParcelMembers(parcel, i)
    {
      r := r + [TransportMember(parcel.item.id, parcel.files[i].id, Truncate32(i))];
    }
  }

  /** The saturating sum of a pack's file sizes. */
  method OriginalBytes(files: seq<FileRecord>) returns (total: u64)
    ensures total == Load(files)
  {
    total := 0;
    for i := 0 to |files|
      invariant total == Min(Sum(files, 0, i), U64_MAX)
    {
      total := SaturatingAdd(total, files[i].size);
    }
  }

  /** Stages or measures every pack, then every standalone file as a pack of its own. */
  method PrepareTransportPlan(cache: PackCache, encoder: Encoder, plan: Plan, ids: seq<ObjectId>)
    returns (r: Option<Prepared>)
    requires Sane(encoder) && |ids| == |plan.packs| + |plan.standalone|
    requires cache.Abs() == Account(0, 0) && cache.peak == 0
    modifies cache
    ensures r.Some? <==> Readable(encoder, plan)
    ensures r.Some? ==>
      var parcels := Parcels(encoder, cache.budget, plan, ids);
      |parcels| == |plan.packs| + |plan.standalone| && r.value == PreparedFrom(parcels, |parcels|)
    ensures r.Some? ==>
      var packed := AfterPacks(encoder, cache.budget, plan.packs, |plan.packs|);
      && cache.Abs() == AfterFiles(encoder, cache.budget, packed, plan.standalone, |plan.standalone|)
      && cache.peak == PeakAfterFiles(encoder, cache.budget, packed, PeakAfterPacks(encoder, cache.budget, plan.packs, |plan.packs|),
                                      plan.standalone, |plan.standalone|)
  {
    ghost var parcels := Parcels(encoder, cache.budget, plan, ids);
    var packs := PreparePacks(cache, encoder, plan, ids, parcels);
    if packs.None? {
      return None;
    }
    r := PrepareLargeFiles(cache, encoder, plan, ids, parcels, packs.value);
  }

  lemma NothingPrepared(encoder: Encoder, budget: u64, plan: Plan, start: Account, parcels: seq<Parcel>)
    ensures PreparedFrom(parcels, 0) == Prepared([], [], [])
    ensures AfterPacks(encoder, budget, plan.packs, 0) == Account(0, 0)
    ensures AfterFiles(encoder, budget, start, plan.standalone, 0) == start
    ensures PeakAfterPacks(encoder, budget, plan.packs, 0) == 0
    ensures forall peak :: PeakAfterFiles(encoder, budget, start, peak, plan.standalone, 0) == peak
  {
  }

  lemma OneMorePack(encoder: Encoder, budget: u64, plan: Plan, ids: seq<ObjectId>, k: nat)
    requires |ids| == |plan.packs| + |plan.standalone| && k < |plan.packs|
    ensures var parcels, size := Parcels(encoder, budget, plan, ids), PackSize(encoder, plan.packs[k]);
      && k < |parcels|
      && (size <= U64_MAX ==>
            parcels[k] == Parcel(TransportObject(ids[k], PackObject, Zstd, 2, Load(plan.packs[k]), size), plan.packs[k]))
      && PreparedFrom(parcels, k + 1) == WithParcel(PreparedFrom(parcels, k), parcels[k])
      && AfterPacks(encoder, budget, plan.packs, k + 1) == Keep(budget, AfterPacks(encoder, budget, plan.packs, k), size)
      && PeakAfterPacks(encoder, budget, plan.packs, k + 1)
           == Max(PeakAfterPacks(encoder, budget, plan.packs, k),
                  Held(encoder, budget, AfterPacks(encoder, budget, plan.packs, k), plan.packs[k]))
  {
  }

  lemma OneMoreFile(encoder: Encoder, budget: u64, plan: Plan, ids: seq<ObjectId>, start: Account, k: nat)
    requires |ids| == |plan.packs| + |plan.standalone| && k < |plan.standalone|
    ensures var parcels, file, i := Parcels(encoder, budget, plan, ids), plan.standalone[k], |plan.packs| + k;
      && |parcels| == |plan.packs| + |plan.standalone|
      && parcels[i] == LargeParcel(encoder, budget, ids[i], file)
      && PreparedFrom(parcels, i + 1) == WithParcel(PreparedFrom(parcels, i), parcels[i])
      && AfterFiles(encoder, budget, start, plan.standalone, k + 1)
           == KeepIfSmaller(budget, AfterFiles(encoder, budget, start, plan.standalone, k),
                            PackSize(encoder, [file]), file.size)
      && forall peak :: PeakAfterFiles(encoder, budget, start, peak, plan.standalone, k + 1)
           == Max(PeakAfterFiles(encoder, budget, start, peak, plan.standalone, k),
                  Held(encoder, budget, AfterFiles(encoder, budget, start, plan.standalone, k), [file]))
  {
  }

  method PreparePacks(cache: PackCache, encoder: Encoder, plan: Plan, ids: seq<ObjectId>, ghost parcels: seq<Parcel>)
    returns (r: Option<Prepared>)
    requires Sane(encoder) && |ids| == |plan.packs| + |plan.standalone|
    requires parcels == Parcels(encoder, cache.budget, plan, ids) && cache.Abs() == Account(0, 0) && cache.peak == 0
    modifies cache
    ensures r.Some? <==> forall k :: 0 <= k < |plan.packs| ==> encoder(plan.packs[k]).Some?
    ensures r.Some? ==>
      && |plan.packs| <= |parcels| && r.value == PreparedFrom(parcels, |plan.packs|)
      && cache.Abs() == AfterPacks(encoder, cache.budget, plan.packs, |plan.packs|)
      && cache.peak == PeakAfterPacks(encoder, cache.budget, plan.packs, |plan.packs|)
  {
    hide *;
    var prepared := Prepared([], [], []);
    NothingPrepared(encoder, cache.budget, plan, cache.Abs(), parcels);
    for k := 0 to |plan.packs|
      invariant k <= |parcels| && prepared == PreparedFrom(parcels, k)
      invariant cache.Abs() == AfterPacks(encoder, cache.budget, plan.packs, k)
      invariant cache.peak == PeakAfterPacks(encoder, cache.budget, plan.packs, k)
      invariant forall j :: 0 <= j < k ==> encoder(plan.packs[j]).Some?
    {
      OneMorePack(encoder, cache.budget, plan, ids, k);
      var pack, id := plan.packs[k], ids[k];
      var size := StagePack(cache, encoder, pack, id);
      if size.None? {
        return None;
      }
      var original := OriginalBytes(pack);
      prepared := AddParcel(prepared, Parcel(TransportObject(id, PackObject, Zstd, 2, original, size.value), pack));
    }
    return Some(prepared);
  }

  method PrepareLargeFiles(cache: PackCache, encoder: Encoder, plan: Plan, ids: seq<ObjectId>,
                           ghost parcels: seq<Parcel>, packs: Prepared)
    returns (r: Option<Prepared>)
    requires Sane(encoder) && |ids| == |plan.packs| + |plan.standalone|
    requires parcels == Parcels(encoder, cache.budget, plan, ids)
    requires |plan.packs| <= |parcels| && packs == PreparedFrom(parcels, |plan.packs|)
    modifies cache
    ensures r.Some? <==> forall k :: 0 <= k < |plan.standalone| ==> encoder([plan.standalone[k]]).Some?
    ensures r.Some? ==>
      && r.value == PreparedFrom(parcels, |parcels|)
      && cache.Abs() == AfterFiles(encoder, cache.budget, old(cache.Abs()), plan.standalone, |plan.standalone|)
      && cache.peak == PeakAfterFiles(encoder, cache.budget, old(cache.Abs()), old(cache.peak), plan.standalone, |plan.standalone|)
  {
    hide *;
    var prepared := packs;
    NothingPrepared(encoder, cache.budget, plan, cache.Abs(), parcels);
    for k := 0 to |plan.standalone|
      invariant |plan.packs| + k <= |parcels| && prepared == PreparedFrom(parcels, |plan.packs| + k)
      invariant cache.Abs() == AfterFiles(encoder, cache.budget, old(cache.Abs()), plan.standalone, k)
      invariant cache.peak == PeakAfterFiles(encoder, cache.budget, old(cache.Abs()), old(cache.peak), plan.standalone, k)
      invariant forall j :: 0 <= j < k ==> encoder([plan.standalone[j]]).Some?
    {
      OneMoreFile(encoder, cache.budget, plan, ids, old(cache.Abs()), k);
      var parcel := StageLargeFile(cache, encoder, plan.standalone[k], ids[|plan.packs| + k]);
      if parcel.None? {
        return None;
      }
      prepared := AddParcel(prepared, parcel.value);
    }
    return Some(prepared);
  }

  method AddParcel(prepared: Prepared, parcel: Parcel) returns (r: Prepared)
    ensures r == WithParcel(prepared, parcel)
  {
    var members := AddMembers(parcel, prepared.members);
    return Prepared(
      prepared.objects + [parcel.item],
      members,
      prepared.uploads + [UploadSource(parcel.item.id, parcel.item.transportBytes)]);
  }

  method StagePack(cache: PackCache, encoder: Encoder, pack: seq<FileRecord>, id: ObjectId) returns (r: Option<u64>)
    requires Sane(encoder)
    modifies cache
    ensures r.None? <==> encoder(pack).None?
    ensures r.Some? ==>
      && r.value == PackSize(encoder, pack)
      && cache.Abs() == Keep(cache.budget, old(cache.Abs()), r.value)
      && cache.peak == Max(old(cache.peak), Held(encoder, cache.budget, old(cache.Abs()), pack))
  {
    var remaining := SaturatingSub(cache.budget, cache.cachedBytes);
    var outcome := cache.StageOrMeasure(encoder, pack, id, remaining);
    if outcome.None? {
      return None;
    }
    var (size, cached) := outcome.value;
    if cached {
      StagedOneMore(old(cache.staged), StagedPack(id, size));
      cache.cachedBytes := SaturatingAdd(cache.cachedBytes, size);
    } else {
      assert cache.staged == old(cache.staged);
    }
    return Some(size);
  }

  method StageLargeFile(cache: PackCache, encoder: Encoder, file: FileRecord, id: ObjectId)
    returns (r: Option<Parcel>)
    requires Sane(encoder)
    modifies cache
    ensures r.None? <==> encoder([file]).None?
    ensures r.Some? ==>
      && r.value == LargeParcel(encoder, cache.budget, id, file)
      && cache.Abs() == KeepIfSmaller(cache.budget, old(cache.Abs()), PackSize(encoder, [file]), file.size)
      && cache.peak == Max(old(cache.peak), Held(encoder, cache.budget, old(cache.Abs()), [file]))
  {
    var remaining := SaturatingSub(cache.budget, cache.cachedBytes);
    var outcome := cache.StageOrMeasure(encoder, [file], id, remaining);
    if outcome.None? {
      return None;
    }
    var (size, cached) := outcome.value;
    if size < file.size && size <= cache.budget {
      if cached {
        StagedOneMore(old(cache.staged), StagedPack(id, size));
        cache.cachedBytes := SaturatingAdd(cache.cachedBytes, size);
      } else {
        assert cache.staged == old(cache.staged);
      }
      assert Sum([file], 0, 1) == Sum([file], 0, 0) + file.size == file.size;
      return Some(Parcel(TransportObject(id, PackObject, Zstd, 2, file.size, size), [file]));
    }
    if cached {
      cache.RemoveLast();
      cache.cachedBytes := SaturatingSub(cache.cachedBytes, size);
    }
    assert cache.staged == old(cache.staged);
    return Some(Parcel(TransportObject(file.id, FileObject, Uncompressed, 1, file.size, file.size), [file]));
  }
}
