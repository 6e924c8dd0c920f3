/** Re-cutting the unconfirmed tail of a stored multipart plan. */
module Replan {
  import opened Common
  import opened Planner

  /** How many leading parts are confirmed. */
  function ConfirmedPrefix(parts: seq<PartRecord>): (count: nat)
    ensures count <= |parts|
    ensures forall i :: 0 <= i < count ==> parts[i].status == Complete
    ensures count < |parts| ==> parts[count].status != Complete
  {
    ConfirmedFrom(parts, 0)
  }

  function ConfirmedFrom(parts: seq<PartRecord>, from: nat): (count: nat)
    requires from <= |parts|
    ensures from <= count <= |parts|
    ensures forall i :: from <= i < count ==> parts[i].status == Complete
    ensures count < |parts| ==> parts[count].status != Complete
    decreases |parts| - from
  {
    if from == |parts| || parts[from].status != Complete then from else ConfirmedFrom(parts, from + 1)
  }

  lemma ConfirmedPrefixUnique(parts: seq<PartRecord>, count: nat)
    requires count <= |parts|
    requires forall i :: 0 <= i < count ==> parts[i].status == Complete
    requires count < |parts| ==> parts[count].status != Complete
    ensures ConfirmedPrefix(parts) == count
  {
    var found := ConfirmedPrefix(parts);
    assert !(found < count) && !(count < found);
  }

  /** Nothing is confirmed after the confirmed prefix, and some later part is over target. */
  ghost predicate NeedsReplan(parts: seq<PartRecord>) {
    var prefix := ConfirmedPrefix(parts);
    && prefix < |parts|
    && (forall i :: prefix <= i < |parts| ==> parts[i].status != Complete)
    && (exists i :: prefix <= i < |parts| && parts[i].sourceLength > DEFAULT_LIMITS.targetPartSize)
  }

  ghost function TailLimits(confirmed: nat): MultipartLimits
    requires confirmed <= DEFAULT_LIMITS.maximumParts
  {
    DEFAULT_LIMITS.(maximumParts := DEFAULT_LIMITS.maximumParts - confirmed)
  }

  /** `later` is `part` moved behind `parts` earlier parts that span `bytes`. */
  ghost predicate IsShifted(part: PartRecord, parts: nat, bytes: nat, later: PartRecord) {
    && later.partNumber == part.partNumber + parts
    && later.sourceOffset == part.sourceOffset + bytes
    && later == part.(partNumber := later.partNumber, sourceOffset := later.sourceOffset)
  }

  /** `replanned` is the first `prefix` parts followed by `tail`, moved to where they end. */
  ghost predicate Joins(parts: seq<PartRecord>, prefix: nat, tail: seq<PartRecord>, replanned: seq<PartRecord>) {
    && prefix < |parts|
    && |replanned| == prefix + |tail|
    && (forall i :: 0 <= i < prefix ==> replanned[i] == parts[i])
    && (forall i :: prefix <= i < |replanned| ==>
         IsShifted(tail[i - prefix], prefix, parts[prefix].sourceOffset, replanned[i]))
  }

  /** The cut of everything after the confirmed prefix. */
  ghost function TailPlan(parts: seq<PartRecord>, fileId: FileId, fileSize: u64): Result<seq<PartRecord>, PlanError> {
    var prefix := ConfirmedPrefix(parts);
    if prefix == |parts| || prefix > DEFAULT_LIMITS.maximumParts || parts[prefix].sourceOffset > fileSize then
      Failure(InvalidLimits)
    else
      PlanParts(fileId, fileSize - parts[prefix].sourceOffset, TailLimits(prefix))
  }

  /** `replanned` keeps the confirmed prefix and continues it with a fresh cut of the rest. */
  ghost predicate IsReplan(parts: seq<PartRecord>, fileId: FileId, fileSize: u64, replanned: seq<PartRecord>) {
    && TailPlan(parts, fileId, fileSize).Success?
    && Joins(parts, ConfirmedPrefix(parts), TailPlan(parts, fileId, fileSize).value, replanned)
  }

  lemma IsReplanUnique(parts: seq<PartRecord>, fileId: FileId, fileSize: u64, a: seq<PartRecord>, b: seq<PartRecord>)
    requires IsReplan(parts, fileId, fileSize, a) && IsReplan(parts, fileId, fileSize, b)
    ensures a == b
  {
    hide PlanParts;
    var prefix := ConfirmedPrefix(parts);
    var tail := TailPlan(parts, fileId, fileSize).value;
    forall i | 0 <= i < |a|
      ensures a[i] == b[i]
    {
      if prefix <= i {
        assert IsShifted(tail[i - prefix], prefix, parts[prefix].sourceOffset, a[i]);
        assert IsShifted(tail[i - prefix], prefix, parts[prefix].sourceOffset, b[i]);
      }
    }
  }

  ghost predicate Contiguous(parts: seq<PartRecord>, fileId: FileId, fileSize: int) {
    Numbered(parts, fileId, 0) && Covers(parts, 0, fileSize)
  }

  /** Whether some row ends the hope of re-cutting, and whether every tail row is small. */
  method InspectTail(parts: seq<PartRecord>) returns (confirmed: nat, anyComplete: bool, allSmall: bool)
    ensures confirmed == ConfirmedPrefix(parts)
    ensures NeedsReplan(parts) <==> confirmed < |parts| && !anyComplete && !allSmall
  {
    confirmed := 0;
    while confirmed < |parts| && parts[confirmed].status == Complete
      invariant confirmed <= |parts|
      invariant forall i :: 0 <= i < confirmed ==> parts[i].status == Complete
    {
      confirmed := confirmed + 1;
    }
    ConfirmedPrefixUnique(parts, confirmed);
    anyComplete, allSmall := false, true;
    var i := confirmed;
    while i < |parts|
      invariant confirmed <= i <= |parts|
      invariant anyComplete <==> exists k :: confirmed <= k < i && parts[k].status == Complete
      invariant allSmall <==> forall k :: confirmed <= k < i ==> parts[k].sourceLength <= DEFAULT_LIMITS.targetPartSize
    {
      anyComplete := anyComplete || parts[i].status == Complete;
      allSmall := allSmall && parts[i].sourceLength <= DEFAULT_LIMITS.targetPartSize;
      i := i + 1;
    }
  }

  /** Walks the rows, adding up their lengths, to decide whether the stored plan can be trusted. */
  method CheckContiguous(fileId: FileId, fileSize: u64, parts: seq<PartRecord>) returns (ok: bool)
    requires 0 < |parts| <= U32_MAX
    ensures ok <==> Contiguous(parts, fileId, fileSize)
  {
    var nextOffset, i := 0, 0;
    while i < |parts|
      invariant 0 <= i <= |parts|
      invariant nextOffset == if i == 0 then 0 else parts[i - 1].End()
      invariant nextOffset <= U64_MAX
      invariant forall k :: 0 <= k < i ==> parts[k].fileId == fileId && parts[k].partNumber == k + 1
      invariant 0 < i ==> parts[0].sourceOffset == 0
      invariant forall k :: 0 <= k < i - 1 ==> Adjacent(parts, k)
    {
      if parts[i].fileId != fileId || parts[i].partNumber != Truncate32(i) + 1 || parts[i].sourceOffset != nextOffset {
        if 0 < i && parts[i].sourceOffset != nextOffset {
          assert !Adjacent(parts, i - 1);
        }
        return false;
      }
      if nextOffset + parts[i].sourceLength > U64_MAX {
        OverflowBreaksCover(parts, i, fileSize);
        return false;
      }
      nextOffset := nextOffset + parts[i].sourceLength;
      i := i + 1;
    }
    return nextOffset == fileSize;
  }

  /** Renumbers a planned tail in place of the tail it replaces. */
  method JoinTail(parts: seq<PartRecord>, prefix: nat, tail: seq<PartRecord>, end: u64) returns (replanned: seq<PartRecord>)
    requires prefix < |parts| && parts[prefix].sourceOffset <= end
    requires prefix + |tail| <= U32_MAX
    requires Numbered(tail, parts[prefix].fileId, 0) && Covers(tail, 0, end - parts[prefix].sourceOffset)
    ensures Joins(parts, prefix, tail, replanned)
  {
    var start := parts[prefix].sourceOffset;
    replanned := parts[..prefix];
    var i := 0;
    while i < |tail|
      invariant 0 <= i <= |tail|
      invariant |replanned| == prefix + i
      invariant forall k :: 0 <= k < prefix ==> replanned[k] == parts[k]
      invariant forall k :: prefix <= k < prefix + i ==> IsShifted(tail[k - prefix], prefix, start, replanned[k])
    {
      OffsetsBounded(tail, i, end - start);
      replanned := replanned + [tail[i].(partNumber := tail[i].partNumber + prefix,
                                         sourceOffset := tail[i].sourceOffset + start)];
      i := i + 1;
    }
  }

  /** The executor's re-cut. It re-cuts when the rule above asks for it, and it reports a plan it
      cannot trust instead of re-cutting it. */
  method ReplanLargeUnconfirmedParts(fileId: FileId, fileSize: u64, parts: seq<PartRecord>)
    returns (r: Result<Option<seq<PartRecord>>, PlanError>)
    requires |parts| <= U32_MAX
    ensures !NeedsReplan(parts) <==> r == Success(None)
    ensures NeedsReplan(parts) && !Contiguous(parts, fileId, fileSize) ==> r == Failure(InvalidLimits)
    ensures NeedsReplan(parts) && Contiguous(parts, fileId, fileSize) ==>
      if TailPlan(parts, fileId, fileSize).Success? then
        r.Success? && r.value.Some? && IsReplan(parts, fileId, fileSize, r.value.value)
      else
        r == Failure(TailPlan(parts, fileId, fileSize).error)
  {
    hide PlanParts;
    var confirmed, anyComplete, allSmall := InspectTail(parts);
    if confirmed == |parts| || anyComplete || allSmall {
      return Success(None);
    }
    var contiguous := CheckContiguous(fileId, fileSize, parts);
    if !contiguous {
      return Failure(InvalidLimits);
    }
    OffsetsBounded(parts, confirmed, fileSize);
    var start := parts[confirmed].sourceOffset;
    if DEFAULT_LIMITS.maximumParts < Truncate32(confirmed) {
      return Failure(InvalidLimits);
    }
    var planned := PlanParts(fileId, fileSize - start,
                             DEFAULT_LIMITS.(maximumParts := DEFAULT_LIMITS.maximumParts - Truncate32(confirmed)));
    if planned.Failure? {
      return Failure(planned.error);
    }
    PlanPartsSucceeds(fileId, fileSize - start, TailLimits(confirmed));
    var replanned := JoinTail(parts, confirmed, planned.value, fileSize);
    return Success(Some(replanned));
  }

  /** Offsets never decrease along a plan, so none is past the end. */
  lemma {:induction false} OffsetsBounded(parts: seq<PartRecord>, index: nat, end: int)
    requires index < |parts| && Covers(parts, parts[0].sourceOffset, end)
    ensures parts[index].End() <= end
    decreases |parts| - index
  {
    if index + 1 < |parts| {
      assert Adjacent(parts, index);
      OffsetsBounded(parts, index + 1, end);
    }
  }

  lemma OverflowBreaksCover(parts: seq<PartRecord>, index: nat, fileSize: u64)
    requires index < |parts| && parts[index].End() > U64_MAX
    ensures !Covers(parts, 0, fileSize)
  {
    if Covers(parts, 0, fileSize) {
      OffsetsBounded(parts, index, fileSize);
    }
  }

  ghost predicate TailWithin(parts: seq<PartRecord>, from: nat, size: nat) {
    forall i :: from <= i < |parts| ==> parts[i].sourceLength <= size
  }

  /** A run of parts no larger than `size` spans at most that many sizes. */
  lemma {:induction false} SpanBound(parts: seq<PartRecord>, from: nat, end: int, size: nat)
    requires from < |parts| && Covers(parts, parts[0].sourceOffset, end)
    requires TailWithin(parts, from, size)
    ensures end - parts[from].sourceOffset <= (|parts| - from) * size
    decreases |parts| - from
  {
    if from + 1 < |parts| {
      assert Adjacent(parts, from);
      SpanBound(parts, from + 1, end, size);
      assert (|parts| - from) * size == (|parts| - (from + 1)) * size + size;
    }
  }

  lemma {:induction false} OffsetsOrdered(parts: seq<PartRecord>, low: nat, high: nat, end: int)
    requires low <= high < |parts| && Covers(parts, parts[0].sourceOffset, end)
    ensures parts[low].sourceOffset <= parts[high].sourceOffset
    decreases high - low
  {
    if low == high {
    } else {
      OffsetsOrdered(parts, low, high - 1, end);
      assert Adjacent(parts, high - 1);
    }
  }

  /** Re-cutting a usable plan never fails. */
  lemma ReplanSucceeds(parts: seq<PartRecord>, fileId: FileId, fileSize: u64)
    requires PlanOk(parts, fileId, fileSize, DEFAULT_LIMITS) && NeedsReplan(parts)
    ensures TailPlan(parts, fileId, fileSize).Success?
    ensures parts[ConfirmedPrefix(parts)].sourceOffset < fileSize
  {
    hide PlanParts;
    var prefix := ConfirmedPrefix(parts);
    var big :| prefix <= big < |parts| && parts[big].sourceLength > DEFAULT_LIMITS.targetPartSize;
    OffsetsBounded(parts, big, fileSize);
    OffsetsOrdered(parts, prefix, big, fileSize);
    var remaining := fileSize - parts[prefix].sourceOffset;
    FitsAvailable(parts, prefix, fileSize, DEFAULT_LIMITS.maximumPartSize);
    PlanPartsFails(fileId, remaining, TailLimits(prefix));
  }

  /** The parts still available, at the largest size now used, hold what is left. */
  lemma FitsAvailable(parts: seq<PartRecord>, prefix: nat, fileSize: u64, size: nat)
    requires prefix < |parts| <= DEFAULT_LIMITS.maximumParts && Covers(parts, 0, fileSize)
    requires TailWithin(parts, prefix, size)
    ensures fileSize - parts[prefix].sourceOffset <= (DEFAULT_LIMITS.maximumParts - prefix) * size
  {
    SpanBound(parts, prefix, fileSize, size);
    MulMonotone(|parts| - prefix, DEFAULT_LIMITS.maximumParts - prefix, size);
  }

  /** What a plan in need of a re-cut provides to the arithmetic. */
  lemma NeedsReplanInside(parts: seq<PartRecord>, fileId: FileId, fileSize: u64)
    requires PlanOk(parts, fileId, fileSize, DEFAULT_LIMITS) && NeedsReplan(parts)
    ensures var prefix := ConfirmedPrefix(parts);
      && prefix < |parts| <= DEFAULT_LIMITS.maximumParts
      && parts[prefix].sourceOffset < fileSize
      && 0 < TailLimits(prefix).maximumParts
      && Covers(parts, 0, fileSize)
      && (exists i :: prefix <= i < |parts| && parts[i].sourceLength > DEFAULT_LIMITS.targetPartSize)
      && TailPlan(parts, fileId, fileSize) == PlanParts(fileId, fileSize - parts[prefix].sourceOffset, TailLimits(prefix))
      && TailPlan(parts, fileId, fileSize).Success?
  {
    hide PlanParts, Covers;
    ReplanSucceeds(parts, fileId, fileSize);
  }

  /** The cut that replaces the tail is itself a plan for what is left. */
  lemma TailPlanFacts(parts: seq<PartRecord>, fileId: FileId, fileSize: u64)
    requires PlanOk(parts, fileId, fileSize, DEFAULT_LIMITS) && NeedsReplan(parts)
    ensures TailPlan(parts, fileId, fileSize).Success?
    ensures var prefix := ConfirmedPrefix(parts);
      && prefix < |parts| && prefix < DEFAULT_LIMITS.maximumParts && parts[prefix].sourceOffset < fileSize
      && var tail := TailPlan(parts, fileId, fileSize).value;
      && PlanOk(tail, fileId, fileSize - parts[prefix].sourceOffset, TailLimits(prefix))
      && Uniform(tail, 0, PartSize(fileSize - parts[prefix].sourceOffset, TailLimits(prefix)))
      && AllFresh(tail, 0)
  {
    NeedsReplanInside(parts, fileId, fileSize);
    hide *;
    var prefix := ConfirmedPrefix(parts);
    PlanPartsSucceeds(fileId, fileSize - parts[prefix].sourceOffset, TailLimits(prefix));
  }

  /** The re-cut plan keeps the confirmed records, covers the file inside the same limits, and
      has a fresh tail of one part size. */
  lemma ReplanCloses(parts: seq<PartRecord>, fileId: FileId, fileSize: u64, replanned: seq<PartRecord>)
    requires PlanOk(parts, fileId, fileSize, DEFAULT_LIMITS) && NeedsReplan(parts)
    requires IsReplan(parts, fileId, fileSize, replanned)
    ensures PlanOk(replanned, fileId, fileSize, DEFAULT_LIMITS)
    ensures var prefix := ConfirmedPrefix(parts);
      && prefix < |replanned|
      && (forall i :: 0 <= i < prefix ==> replanned[i] == parts[i])
      && ConfirmedPrefix(replanned) == prefix
      && replanned[prefix].sourceOffset == parts[prefix].sourceOffset
      && AllFresh(replanned, prefix)
      && Uniform(replanned, prefix, PartSize(fileSize - parts[prefix].sourceOffset, TailLimits(prefix)))
  {
    hide PlanParts, PartSize, DivCeil;
    NeedsReplanInside(parts, fileId, fileSize);
    TailPlanFacts(parts, fileId, fileSize);
    hide TailPlan, ConfirmedPrefix, NeedsReplan, Uniform, AllFresh;
    var prefix := ConfirmedPrefix(parts);
    var remaining := fileSize - parts[prefix].sourceOffset;
    var tail := TailPlan(parts, fileId, fileSize).value;
    JoinCovers(parts, fileSize, replanned, prefix, tail);
    JoinSizes(parts, replanned, prefix, tail);
    JoinNumbered(parts, fileId, replanned, prefix, tail);
    JoinFresh(parts, replanned, prefix, tail, PartSize(remaining, TailLimits(prefix)));
    ConfirmedPrefixUnique(replanned, prefix);
  }

  lemma JoinFresh(parts: seq<PartRecord>, replanned: seq<PartRecord>, prefix: nat, tail: seq<PartRecord>, size: nat)
    requires Joins(parts, prefix, tail, replanned) && 0 < |tail|
    requires AllFresh(tail, 0) && Uniform(tail, 0, size) && tail[0].sourceOffset == 0
    ensures AllFresh(replanned, prefix) && Uniform(replanned, prefix, size)
    ensures replanned[prefix].status == Pending && replanned[prefix].sourceOffset == parts[prefix].sourceOffset
  {
    forall i | prefix <= i < |replanned|
      ensures IsShifted(tail[i - prefix], prefix, parts[prefix].sourceOffset, replanned[i])
    {
    }
  }

  lemma JoinNumbered(parts: seq<PartRecord>, fileId: FileId, replanned: seq<PartRecord>, prefix: nat, tail: seq<PartRecord>)
    requires Joins(parts, prefix, tail, replanned)
    requires Numbered(parts, fileId, 0) && Numbered(tail, fileId, 0)
    ensures Numbered(replanned, fileId, 0)
  {
    forall i | prefix <= i < |replanned|
      ensures replanned[i].fileId == fileId && replanned[i].partNumber == i + 1
    {
      assert IsShifted(tail[i - prefix], prefix, parts[prefix].sourceOffset, replanned[i]);
    }
  }

  lemma JoinCovers(parts: seq<PartRecord>, fileSize: u64, replanned: seq<PartRecord>, prefix: nat, tail: seq<PartRecord>)
    requires Joins(parts, prefix, tail, replanned)
    requires Covers(parts, 0, fileSize)
    requires Covers(tail, 0, fileSize - parts[prefix].sourceOffset)
    ensures Covers(replanned, 0, fileSize)
  {
    var start := parts[prefix].sourceOffset;
    forall i | prefix <= i < |replanned|
      ensures replanned[i].sourceOffset == tail[i - prefix].sourceOffset + start
      ensures replanned[i].End() == tail[i - prefix].End() + start
    {
      assert IsShifted(tail[i - prefix], prefix, start, replanned[i]);
    }
    forall i | 0 <= i < |replanned| - 1
      ensures Adjacent(replanned, i)
    {
      if prefix <= i {
        assert Adjacent(tail, i - prefix);
      } else {
        assert Adjacent(parts, i);
      }
    }
  }

  lemma JoinSizes(parts: seq<PartRecord>, replanned: seq<PartRecord>, prefix: nat, tail: seq<PartRecord>)
    requires Joins(parts, prefix, tail, replanned)
    requires WithinSizes(parts, DEFAULT_LIMITS) && prefix <= DEFAULT_LIMITS.maximumParts
    requires WithinSizes(tail, TailLimits(prefix))
    ensures WithinSizes(replanned, DEFAULT_LIMITS)
  {
    forall i | 0 <= i < |replanned|
      ensures replanned[i].sourceLength <= DEFAULT_LIMITS.maximumPartSize
      ensures i < |replanned| - 1 ==> DEFAULT_LIMITS.minimumPartSize <= replanned[i].sourceLength
    {
      if prefix <= i {
        assert IsShifted(tail[i - prefix], prefix, parts[prefix].sourceOffset, replanned[i]);
      }
    }
  }

  lemma PartSizeBounded(fileSize: u64, limits: MultipartLimits, bound: nat)
    requires 0 < limits.maximumParts && fileSize <= limits.maximumParts * bound
    requires limits.targetPartSize <= bound && limits.minimumPartSize <= bound
    ensures PartSize(fileSize, limits) <= bound
  {
    assert fileSize <= bound * limits.maximumParts;
    DivCeilLeast(fileSize, limits.maximumParts, bound);
  }

  lemma UniformBounded(parts: seq<PartRecord>, prefix: nat, size: nat)
    requires Uniform(parts, prefix, size)
    ensures TailWithin(parts, prefix, size)
  {
  }

  lemma TailWithinMonotone(parts: seq<PartRecord>, from: nat, size: nat, bound: nat)
    requires TailWithin(parts, from, size) && size <= bound
    ensures TailWithin(parts, from, bound)
  {
  }

  lemma TailSizeBounded(parts: seq<PartRecord>, prefix: nat, fileSize: u64, bound: nat)
    requires prefix < |parts| <= DEFAULT_LIMITS.maximumParts && Covers(parts, 0, fileSize)
    requires parts[prefix].sourceOffset <= fileSize
    requires TailWithin(parts, prefix, bound)
    requires exists i :: prefix <= i < |parts| && parts[i].sourceLength > DEFAULT_LIMITS.targetPartSize
    ensures PartSize(fileSize - parts[prefix].sourceOffset, TailLimits(prefix)) <= bound
  {
    var big :| prefix <= big < |parts| && parts[big].sourceLength > DEFAULT_LIMITS.targetPartSize;
    FitsAvailable(parts, prefix, fileSize, bound);
    PartSizeBounded(fileSize - parts[prefix].sourceOffset, TailLimits(prefix), bound);
  }

  /** No re-cut makes the tail coarser: a bound on the old tail's parts also bounds the new
      tail's. */
  lemma ReplanNeverCoarsens(parts: seq<PartRecord>, fileId: FileId, fileSize: u64, replanned: seq<PartRecord>, bound: nat)
    requires PlanOk(parts, fileId, fileSize, DEFAULT_LIMITS) && NeedsReplan(parts)
    requires IsReplan(parts, fileId, fileSize, replanned)
    requires TailWithin(parts, ConfirmedPrefix(parts), bound)
    ensures TailWithin(replanned, ConfirmedPrefix(parts), bound)
  {
    hide PlanParts, PartSize, DivCeil;
    NeedsReplanInside(parts, fileId, fileSize);
    hide *;
    var prefix := ConfirmedPrefix(parts);
    var size := PartSize(fileSize - parts[prefix].sourceOffset, TailLimits(prefix));
    ReplanCloses(parts, fileId, fileSize, replanned);
    UniformBounded(replanned, prefix, size);
    TailSizeBounded(parts, prefix, fileSize, bound);
    TailWithinMonotone(replanned, prefix, size, bound);
  }

  /** With nothing newly confirmed, a second re-cut either is not asked for or changes nothing. */
  lemma ReplanIdempotent(parts: seq<PartRecord>, fileId: FileId, fileSize: u64,
                         once: seq<PartRecord>, twice: seq<PartRecord>)
    requires PlanOk(parts, fileId, fileSize, DEFAULT_LIMITS) && NeedsReplan(parts)
    requires IsReplan(parts, fileId, fileSize, once)
    requires IsReplan(once, fileId, fileSize, twice)
    ensures twice == once
  {
    hide PlanParts;
    hide PartSize;
    ReplanCloses(parts, fileId, fileSize, once);
    assert TailPlan(once, fileId, fileSize) == TailPlan(parts, fileId, fileSize);
    assert Joins(once, ConfirmedPrefix(once), TailPlan(once, fileId, fileSize).value, once);
    IsReplanUnique(once, fileId, fileSize, once, twice);
  }

  /** While nothing behind the confirmed prefix is confirmed, the rule leaves no part there over
      16 MiB unless no smaller size would do with the part numbers that are left; and it cuts no
      smaller than that. */
  lemma TailAsAsked(parts: seq<PartRecord>, fileId: FileId, fileSize: u64, later: seq<PartRecord>)
    requires PlanOk(parts, fileId, fileSize, DEFAULT_LIMITS)
    requires if NeedsReplan(parts) then IsReplan(parts, fileId, fileSize, later) else later == parts
    requires forall i :: ConfirmedPrefix(parts) <= i < |parts| ==> parts[i].status != Complete
    ensures var prefix := ConfirmedPrefix(parts);
      && (forall i :: prefix <= i < |later| && 16_777_216 < later[i].sourceLength ==>
            prefix < |parts| && (later[i].sourceLength - 1) * (10_000 - prefix) < fileSize - parts[prefix].sourceOffset)
      && (later != parts ==> forall i :: prefix <= i < |later| - 1 ==> 16_777_216 <= later[i].sourceLength)
  {
    if NeedsReplan(parts) {
      NeedsReplanInside(parts, fileId, fileSize);
      var prefix := ConfirmedPrefix(parts);
      PartsAsAsked(fileId, fileSize - parts[prefix].sourceOffset, TailLimits(prefix));
      hide PlanParts, PlanOk, NeedsReplan, ConfirmedPrefix;
      var tail := TailPlan(parts, fileId, fileSize).value;
      forall i | prefix <= i < |later|
        ensures later[i].sourceLength == tail[i - prefix].sourceLength
      {
        assert IsShifted(tail[i - prefix], prefix, parts[prefix].sourceOffset, later[i]);
      }
    }
  }
}
