/** Multipart planning: source ranges under size and count limits. */
module Planner {
  import opened Common

  type FileId = nat

  /** An ETag is opaque to Courier. The store's guarantee that an ETag is never returned for
      two different contents is carried by the type: it names the bytes it was issued for. */
  datatype ETag = ETag(bytes: seq<byte>, nonce: nat)

  datatype PartStatus = Pending | Uploading | Complete | Failed

  datatype PartRecord = PartRecord(
    fileId: FileId,
    partNumber: u32,
    sourceOffset: u64,
    sourceLength: u64,
    transportLength: Option<u64>,
    etag: Option<ETag>,
    attemptCount: nat,
    status: PartStatus)
  {
    function End(): nat {
      sourceOffset + sourceLength
    }
  }

  datatype MultipartLimits = MultipartLimits(
    targetPartSize: u64,
    minimumPartSize: u64,
    maximumPartSize: u64,
    maximumParts: u32)
  {
    ghost predicate Valid() {
      0 < minimumPartSize <= maximumPartSize && 0 < maximumParts
    }
  }

  const MIB: u64 := 1024 * 1024

  const DEFAULT_LIMITS: MultipartLimits :=
    MultipartLimits(16 * MIB, 5 * MIB, 64 * MIB, 10_000)

  datatype PlanError =
    | InvalidLimits
    | FileTooLarge(fileSize: u64, maximumSize: u64)

  /** The least `q` with `a <= q * b`: see `DivCeilBounds`. */
  function DivCeil(a: nat, b: nat): (q: nat)
    requires 0 < b
    ensures q <= a
  {
    if a == 0 then 0
    else
      DivBounds(a - 1, b);
      (a - 1) / b + 1
  }

  lemma DivCeilBounds(a: nat, b: nat)
    requires 0 < b
    ensures var q := DivCeil(a, b); (q - 1) * b < a <= q * b || a == q == 0
  {
    if 0 < a {
      DivBounds(a - 1, b);
    }
  }

  lemma DivBounds(a: nat, b: nat)
    requires 0 < b
    ensures a / b * b <= a < (a / b + 1) * b
    ensures 0 <= a / b <= a
  {
    assert a == a / b * b + a % b;
    if a / b > a {
      MulMonotone(a + 1, a / b, b);
      MulMonotone(1, b, a + 1);
      assert false;
    }
  }

  lemma MulMonotone(a: int, b: int, c: nat)
    requires a <= b
    ensures a * c <= b * c
  {
    assert b * c - a * c == (b - a) * c;
  }

  /** `q` parts of size `b` are the fewest that hold `a` bytes. */
  lemma DivCeilLeast(a: nat, b: nat, q: nat)
    requires 0 < b && a <= q * b
    ensures DivCeil(a, b) <= q
  {
    DivCeilBounds(a, b);
    if q < DivCeil(a, b) {
      MulMonotone(q, DivCeil(a, b) - 1, b);
    }
  }

  /** The size of every part but the last. */
  function PartSize(fileSize: u64, limits: MultipartLimits): u64
    requires 0 < limits.maximumParts
  {
    var required := DivCeil(fileSize, limits.maximumParts);
    Min(Max(Max(limits.targetPartSize, limits.minimumPartSize), required), limits.maximumPartSize)
  }

  function FreshPart(fileId: FileId, partNumber: u32, offset: u64, length: u64): PartRecord {
    PartRecord(fileId, partNumber, offset, length, None, None, 0, Pending)
  }

  /** Stable, one-based source ranges. */
  function PlanParts(fileId: FileId, fileSize: u64, limits: MultipartLimits)
    : (r: Result<seq<PartRecord>, PlanError>)
  {
    if limits.minimumPartSize == 0
       || limits.maximumParts == 0
       || limits.maximumPartSize < limits.minimumPartSize then
      Failure(InvalidLimits)
    else
      var maximumSize := SaturatingMul(limits.maximumPartSize, limits.maximumParts);
      if fileSize > maximumSize then
        Failure(FileTooLarge(fileSize, maximumSize))
      else
        var partSize := PartSize(fileSize, limits);
        if fileSize == 0 then
          Success([FreshPart(fileId, 1, 0, 0)])
        else
          Success(Cut(fileId, fileSize, partSize))
  }

  /** Consecutive ranges of `partSize` bytes, the last of them possibly shorter. */
  function Cut(fileId: FileId, fileSize: u64, partSize: u64): seq<PartRecord>
    requires 0 < fileSize && 0 < partSize
  {
    seq(DivCeil(fileSize, partSize), index requires 0 <= index < DivCeil(fileSize, partSize) =>
      StartsInside(index, partSize, fileSize);
      var offset := StartOf(index, partSize);
      FreshPart(fileId, Truncate32(index + 1), offset, Min(fileSize - offset, partSize)))
  }

  function StartOf(index: nat, partSize: nat): int {
    index * partSize
  }

  lemma StartsInside(index: nat, partSize: nat, fileSize: nat)
    requires 0 < partSize && 0 < fileSize && index < DivCeil(fileSize, partSize)
    ensures 0 <= StartOf(index, partSize) < fileSize
    ensures StartOf(index + 1, partSize) == StartOf(index, partSize) + partSize
    ensures index + 1 == DivCeil(fileSize, partSize) ==> fileSize <= StartOf(index + 1, partSize)
  {
    DivCeilBounds(fileSize, partSize);
    MulMonotone(index, DivCeil(fileSize, partSize) - 1, partSize);
  }

  /** Part `i` ends where its successor starts. */
  ghost predicate Adjacent(parts: seq<PartRecord>, i: int)
    requires 0 <= i < |parts| - 1
  {
    parts[i + 1].sourceOffset == parts[i].End()
  }

  /** The parts are adjacent ranges that cover `[start, end)`. */
  ghost predicate Covers(parts: seq<PartRecord>, start: int, end: int) {
    && 0 < |parts|
    && parts[0].sourceOffset == start
    && (forall i :: 0 <= i < |parts| - 1 ==> Adjacent(parts, i))
    && parts[|parts| - 1].End() == end
  }

  /** The parts are numbered consecutively after `before` earlier parts. */
  ghost predicate Numbered(parts: seq<PartRecord>, fileId: FileId, before: nat) {
    forall i :: 0 <= i < |parts| ==>
      parts[i].fileId == fileId && parts[i].partNumber == before + i + 1
  }

  /** No part is over the maximum, and every part but the last reaches the minimum. */
  ghost predicate WithinSizes(parts: seq<PartRecord>, limits: MultipartLimits) {
    && (forall i :: 0 <= i < |parts| ==> parts[i].sourceLength <= limits.maximumPartSize)
    && (forall i :: 0 <= i < |parts| - 1 ==> limits.minimumPartSize <= parts[i].sourceLength)
  }

  /** A usable stored plan for one object. */
  ghost predicate PlanOk(parts: seq<PartRecord>, fileId: FileId, fileSize: nat, limits: MultipartLimits) {
    && Covers(parts, 0, fileSize)
    && Numbered(parts, fileId, 0)
    && WithinSizes(parts, limits)
    && |parts| <= limits.maximumParts
  }

  /** Saturating multiplication never hides an oversized file. */
  lemma CapacityProduct(fileSize: u64, limits: MultipartLimits)
    ensures fileSize > SaturatingMul(limits.maximumPartSize, limits.maximumParts)
       <==> fileSize > limits.maximumPartSize * limits.maximumParts
  {
  }

  /** Enough parts are available at the chosen part size. */
  lemma PartSizeSuffices(fileSize: u64, limits: MultipartLimits)
    requires limits.Valid()
    requires fileSize <= limits.maximumPartSize * limits.maximumParts
    ensures limits.minimumPartSize <= PartSize(fileSize, limits) <= limits.maximumPartSize
    ensures DivCeil(fileSize, PartSize(fileSize, limits)) <= limits.maximumParts
  {
    var required := DivCeil(fileSize, limits.maximumParts);
    var partSize := PartSize(fileSize, limits);
    DivCeilBounds(fileSize, limits.maximumParts);
    if partSize < limits.maximumPartSize {
      assert required <= partSize;
      MulMonotone(required, partSize, limits.maximumParts);
    }
    assert fileSize <= limits.maximumParts * partSize;
    DivCeilLeast(fileSize, partSize, limits.maximumParts);
  }

  /** From part `from` on, every part before the last has the chosen size, and the last is no
      larger. */
  ghost predicate Uniform(parts: seq<PartRecord>, from: nat, partSize: nat) {
    && (forall i :: from <= i < |parts| - 1 ==> parts[i].sourceLength == partSize)
    && (from < |parts| ==> parts[|parts| - 1].sourceLength <= partSize)
  }

  /** The part has not been attempted: it is a `FreshPart`. */
  ghost predicate IsFresh(part: PartRecord) {
    part.status == Pending && part.etag == None && part.transportLength == None && part.attemptCount == 0
  }

  ghost predicate AllFresh(parts: seq<PartRecord>, from: nat) {
    forall i :: from <= i < |parts| ==> IsFresh(parts[i])
  }

  /** A successful plan covers the file inside the limits, with parts of one size. No cast or
      product loses bits. */
  lemma PlanPartsSucceeds(fileId: FileId, fileSize: u64, limits: MultipartLimits)
    requires PlanParts(fileId, fileSize, limits).Success?
    ensures var parts := PlanParts(fileId, fileSize, limits).value;
      && PlanOk(parts, fileId, fileSize, limits)
      && Uniform(parts, 0, PartSize(fileSize, limits))
      && AllFresh(parts, 0)
      && (0 < fileSize ==> 0 < parts[|parts| - 1].sourceLength)
  {
    if 0 < fileSize {
      NonemptyPlan(fileId, fileSize, limits);
    }
  }

  /** Every part but the last is as large as asked for, within the maximum; and a part is larger
      than that only because no smaller size would do with the parts allowed. */
  lemma PartsAsAsked(fileId: FileId, fileSize: u64, limits: MultipartLimits)
    requires PlanParts(fileId, fileSize, limits).Success?
    ensures var parts, asked := PlanParts(fileId, fileSize, limits).value, Max(limits.targetPartSize, limits.minimumPartSize);
      && (forall i :: 0 <= i < |parts| - 1 ==> Min(asked, limits.maximumPartSize) <= parts[i].sourceLength)
      && (forall i :: 0 <= i < |parts| && asked < parts[i].sourceLength ==>
            (parts[i].sourceLength - 1) * limits.maximumParts < fileSize)
  {
    var parts, asked := PlanParts(fileId, fileSize, limits).value, Max(limits.targetPartSize, limits.minimumPartSize);
    var size, required := PartSize(fileSize, limits), DivCeil(fileSize, limits.maximumParts);
    PlanPartsSucceeds(fileId, fileSize, limits);
    DivCeilBounds(fileSize, limits.maximumParts);
    hide PlanParts, DivCeil, PlanOk;
    forall i | 0 <= i < |parts| && asked < parts[i].sourceLength
      ensures (parts[i].sourceLength - 1) * limits.maximumParts < fileSize
    {
      assert parts[i].sourceLength <= size && size <= required;
      MulMonotone(parts[i].sourceLength - 1, required - 1, limits.maximumParts);
    }
  }

  lemma NonemptyPlan(fileId: FileId, fileSize: u64, limits: MultipartLimits)
    requires PlanParts(fileId, fileSize, limits).Success? && 0 < fileSize
    ensures var parts := PlanParts(fileId, fileSize, limits).value;
      && PlanOk(parts, fileId, fileSize, limits)
      && Uniform(parts, 0, PartSize(fileSize, limits))
      && AllFresh(parts, 0)
      && 0 < parts[|parts| - 1].sourceLength
  {
    CapacityProduct(fileSize, limits);
    PartSizeSuffices(fileSize, limits);
    hide PartSize, DivCeil;
    CutCovers(fileId, fileSize, PartSize(fileSize, limits));
  }

  lemma CutAt(fileId: FileId, fileSize: u64, partSize: u64, i: nat)
    requires 0 < fileSize && 0 < partSize && i < DivCeil(fileSize, partSize) <= U32_MAX
    ensures var part := Cut(fileId, fileSize, partSize)[i];
      && part.fileId == fileId && part.partNumber == i + 1 && IsFresh(part)
      && part.sourceOffset == StartOf(i, partSize)
      && 0 < part.sourceLength <= partSize
      && (if i + 1 < DivCeil(fileSize, partSize) then
            part.sourceLength == partSize && part.End() == StartOf(i + 1, partSize)
          else
            part.End() == fileSize)
  {
    StartsInside(i, partSize, fileSize);
    if i + 1 < DivCeil(fileSize, partSize) {
      StartsInside(i + 1, partSize, fileSize);
    }
    hide StartOf, DivCeil;
    assert Cut(fileId, fileSize, partSize)[i].partNumber == Truncate32(i + 1);
  }

  lemma CutCovers(fileId: FileId, fileSize: u64, partSize: u64)
    requires 0 < fileSize && 0 < partSize && DivCeil(fileSize, partSize) <= U32_MAX
    ensures var parts := Cut(fileId, fileSize, partSize);
      && |parts| == DivCeil(fileSize, partSize)
      && Covers(parts, 0, fileSize) && Numbered(parts, fileId, 0)
      && Uniform(parts, 0, partSize) && AllFresh(parts, 0)
      && 0 < parts[|parts| - 1].sourceLength
  {
    var parts := Cut(fileId, fileSize, partSize);
    assert StartOf(0, partSize) == 0;
    hide StartOf, DivCeil;
    forall i | 0 <= i < |parts|
      ensures parts[i].fileId == fileId && parts[i].partNumber == i + 1 && IsFresh(parts[i])
      ensures 0 < parts[i].sourceLength <= partSize
      ensures i + 1 < |parts| ==> parts[i].sourceLength == partSize && Adjacent(parts, i)
    {
      CutAt(fileId, fileSize, partSize, i);
      if i + 1 < |parts| {
        CutAt(fileId, fileSize, partSize, i + 1);
      }
    }
    CutAt(fileId, fileSize, partSize, 0);
    CutAt(fileId, fileSize, partSize, |parts| - 1);
  }

  /** Planning fails in exactly two ways: unusable limits, or a file over the capacity product. */
  lemma PlanPartsFails(fileId: FileId, fileSize: u64, limits: MultipartLimits)
    ensures var r := PlanParts(fileId, fileSize, limits);
      && (r == Failure(InvalidLimits) <==> !limits.Valid())
      && (r.Failure? && r.error.FileTooLarge? <==>
           limits.Valid() && fileSize > limits.maximumPartSize * limits.maximumParts)
  {
    CapacityProduct(fileSize, limits);
  }
}
