/** The resumable multipart upload of one object: stored part rows and a remote multipart
    session that drift apart through crashes, lost replies, retries and re-cut plans. */
module UploadProtocol {
  import opened Common
  import opened Planner
  import opened Replan

  type UploadId = nat

  /** What does not change while one object is uploaded. */
  datatype Setup = Setup(fileId: FileId, source: seq<byte>)
  {
    ghost predicate Valid() {
      |source| <= U64_MAX
    }
  }

  const MAXIMUM_PART_NUMBER: nat := 10_000

  type RemoteParts = map<nat, ETag>

  /** The stored rows and session, the object store's multipart uploads and finished object,
      and the one reply Courier may hold in memory. A list call shows at most `pageLimit`
      parts, those with the lowest numbers. */
  datatype World = World(
    rows: seq<PartRecord>,
    session: Option<UploadId>,
    uploads: map<UploadId, RemoteParts>,
    issued: UploadId,
    published: Option<seq<byte>>,
    reply: Option<(nat, ETag)>,
    pageLimit: nat)
  {
    predicate Open() {
      session.Some? && session.value in uploads
    }

    function Remote(): RemoteParts
      requires Open()
    {
      uploads[session.value]
    }
  }

  /** The source bytes a part stands for. */
  function Range(source: seq<byte>, part: PartRecord): seq<byte> {
    if part.End() <= |source| then source[part.sourceOffset..part.End()] else []
  }

  function CountBelow(parts: RemoteParts, n: nat): nat {
    if n == 0 then 0 else CountBelow(parts, n - 1) + if n - 1 in parts then 1 else 0
  }

  function WithPart(parts: RemoteParts, n: nat, etag: ETag): RemoteParts {
    parts[n := etag]
  }

  /** Part `n` is on the one page of parts that a list call returns. */
  predicate Listed(parts: RemoteParts, limit: nat, n: nat) {
    n in parts && CountBelow(parts, n) < limit
  }

  lemma {:induction false} CountBelowGrows(parts: RemoteParts, m: nat, etag: ETag, n: nat)
    ensures CountBelow(parts, n) <= CountBelow(parts[m := etag], n)
  {
    if n == 0 {
    } else {
      CountBelowGrows(parts, m, etag, n - 1);
    }
  }

  lemma {:induction false} CountBelowBound(parts: RemoteParts, n: nat)
    requires 0 !in parts
    ensures CountBelow(parts, n) <= if n == 0 then 0 else n - 1
  {
    if n == 0 {
    } else {
      CountBelowBound(parts, n - 1);
    }
  }

  /** Every listed part holds the bytes of its range in the stored plan. */
  ghost predicate PageMatches(source: seq<byte>, rows: seq<PartRecord>, parts: RemoteParts, limit: nat) {
    forall n: nat :: Listed(parts, limit, n) ==>
      1 <= n <= |rows| && parts[n].bytes == Range(source, rows[n - 1])
  }

  /** Row `i` says confirmed only with an ETag issued for its own range. */
  ghost predicate RowHonest(source: seq<byte>, row: PartRecord) {
    row.status == Complete ==> row.etag.Some? && row.etag.value.bytes == Range(source, row)
  }

  ghost predicate RowsHonest(source: seq<byte>, rows: seq<PartRecord>) {
    forall i :: 0 <= i < |rows| ==> RowHonest(source, rows[i])
  }

  ghost predicate ReplyHonest(source: seq<byte>, rows: seq<PartRecord>, reply: Option<(nat, ETag)>) {
    reply.Some? ==> 1 <= reply.value.0 <= |rows| && reply.value.1.bytes == Range(source, rows[reply.value.0 - 1])
  }

  /** Only the session Courier has stored ever received parts. */
  ghost predicate SessionsOk(w: World) {
    && (forall id :: id in w.uploads ==> id < w.issued)
    && (w.session.Some? ==> w.session.value < w.issued)
    && (forall id :: id in w.uploads && w.session != Some(id) ==> w.uploads[id] == map[])
    && (forall id, n :: id in w.uploads && n in w.uploads[id] ==> 1 <= n <= MAXIMUM_PART_NUMBER)
  }

  /** The inductive invariant. */
  ghost predicate Inv(s: Setup, w: World) {
    && s.Valid()
    && PlanOk(w.rows, s.fileId, |s.source|, DEFAULT_LIMITS)
    && RowsHonest(s.source, w.rows)
    && SessionsOk(w)
    && (w.Open() ==> PageMatches(s.source, w.rows, w.Remote(), w.pageLimit))
    && ReplyHonest(s.source, w.rows, w.reply)
    && (w.published.Some? ==> w.published.value == s.source)
  }

  /** A planned, never attempted object, whichever target size its plan was made with. */
  ghost predicate Init(s: Setup, w: World) {
    && s.Valid()
    && PlanOk(w.rows, s.fileId, |s.source|, DEFAULT_LIMITS)
    && AllFresh(w.rows, 0)
    && w.session == None && w.uploads == map[] && w.issued == 0 && w.published == None && w.reply == None
  }

  // ---- Steps ----

  /** The store opens an upload; Courier may never hear of it. */
  ghost predicate BeginStep(w: World, w': World, id: UploadId) {
    id == w.issued && w' == w.(uploads := w.uploads[id := map[]], issued := w.issued + 1)
  }

  /** Courier stores the id of an upload that the store returned. */
  ghost predicate BindStep(w: World, w': World, id: UploadId) {
    w.session == None && id in w.uploads && w' == w.(session := Some(id))
  }

  /** The store accepts row `n`'s bytes, replacing any earlier part `n`. The reply may be lost. */
  ghost predicate PutStep(s: Setup, w: World, w': World, n: nat, etag: ETag, heard: bool) {
    && w.Open() && 1 <= n <= |w.rows| && n <= MAXIMUM_PART_NUMBER
    && etag.bytes == Range(s.source, w.rows[n - 1])
    && w' == w.(uploads := w.uploads[w.session.value := WithPart(w.Remote(), n, etag)],
                reply := if heard then Some((n, etag)) else None)
  }

  function Confirmed(row: PartRecord, etag: ETag): PartRecord {
    row.(status := Complete, etag := Some(etag),
         transportLength := if |etag.bytes| <= U64_MAX then Some(|etag.bytes|) else None,
         attemptCount := row.attemptCount + 1)
  }

  function FailedOnce(row: PartRecord): PartRecord {
    row.(status := Failed, attemptCount := row.attemptCount + 1)
  }

  /** Courier records the reply it holds. */
  ghost predicate ConfirmStep(w: World, w': World) {
    && w.reply.Some? && 1 <= w.reply.value.0 <= |w.rows|
    && var i := w.reply.value.0 - 1;
    && w' == w.(rows := w.rows[i := Confirmed(w.rows[i], w.reply.value.1)], reply := None)
  }

  ghost predicate FailStep(w: World, w': World, n: nat) {
    && 1 <= n <= |w.rows|
    && w' == w.(rows := w.rows[n - 1 := FailedOnce(w.rows[n - 1])])
  }

  /** What reconciliation makes of a row: confirmed exactly when its part is listed. */
  function ReconciledRow(row: PartRecord, parts: RemoteParts, limit: nat): PartRecord {
    if Listed(parts, limit, row.partNumber) then
      row.(status := Complete, etag := Some(parts[row.partNumber]))
    else if row.status == Complete then
      row.(status := Pending, etag := None)
    else
      row
  }

  ghost predicate Plans(rows: seq<PartRecord>, n: nat) {
    exists i :: 0 <= i < |rows| && rows[i].partNumber == n
  }

  /** The two checks that let reconciliation go ahead. The listing may leave a size out. */
  ghost predicate ListingPlanned(rows: seq<PartRecord>, parts: RemoteParts, limit: nat) {
    forall n: nat :: Listed(parts, limit, n) ==> Plans(rows, n)
  }

  ghost predicate ListingSized(rows: seq<PartRecord>, parts: RemoteParts, limit: nat) {
    forall i :: 0 <= i < |rows| && Listed(parts, limit, rows[i].partNumber) ==>
      |parts[rows[i].partNumber].bytes| == rows[i].sourceLength
  }

  ghost predicate ReconcileStep(w: World, w': World) {
    && w.Open()
    && |w'.rows| == |w.rows|
    && (forall i :: 0 <= i < |w.rows| ==> w'.rows[i] == ReconciledRow(w.rows[i], w.Remote(), w.pageLimit))
    && w' == w.(rows := w'.rows)
  }

  /** The rows say confirmed exactly where the listing shows a part. */
  ghost predicate AgreesWithListing(rows: seq<PartRecord>, parts: RemoteParts, limit: nat) {
    && (forall i :: 0 <= i < |rows| ==> (rows[i].status == Complete <==> Listed(parts, limit, i + 1)))
    && (forall n: nat :: Listed(parts, limit, n) ==> 1 <= n <= |rows|)
  }

  ghost predicate ReplanStep(s: Setup, w: World, w': World) {
    && s.Valid() && w.Open() && w.reply == None
    && AgreesWithListing(w.rows, w.Remote(), w.pageLimit)
    && NeedsReplan(w.rows)
    && IsReplan(w.rows, s.fileId, |s.source|, w'.rows)
    && w' == w.(rows := w'.rows)
  }

  /** The first `k` parts' accepted bytes, in order. */
  function Assembled(rows: seq<PartRecord>, k: nat): seq<byte>
    requires k <= |rows|
  {
    if k == 0 then []
    else Assembled(rows, k - 1) + if rows[k - 1].etag.Some? then rows[k - 1].etag.value.bytes else []
  }

  /** The store accepts a completion only when every part sent matches one it holds. */
  ghost predicate CompletionAccepted(w: World) {
    && w.Open()
    && forall i :: 0 <= i < |w.rows| ==>
         && w.rows[i].status == Complete && w.rows[i].etag.Some?
         && w.rows[i].partNumber in w.Remote()
         && w.Remote()[w.rows[i].partNumber] == w.rows[i].etag.value
  }

  /** Completion publishes the object and consumes the upload id; the reply may be lost. */
  ghost predicate CompleteStep(w: World, w': World) {
    && CompletionAccepted(w)
    && w' == w.(published := Some(Assembled(w.rows, |w.rows|)), uploads := w.uploads - {w.session.value})
  }

  /** The process dies: only memory is lost. */
  ghost predicate CrashStep(w: World, w': World) {
    w' == w.(reply := None)
  }

  /** A later listing may show fewer parts than an earlier one. */
  ghost predicate PageStep(w: World, w': World) {
    w'.pageLimit <= w.pageLimit && w' == w.(pageLimit := w'.pageLimit)
  }

  /** Everything but reconciliation. */
  ghost predicate Moves(s: Setup, w: World, w': World) {
    || (exists id :: BeginStep(w, w', id))
    || (exists id :: BindStep(w, w', id))
    || (exists n, etag, heard :: PutStep(s, w, w', n, etag, heard))
    || ConfirmStep(w, w')
    || (exists n :: FailStep(w, w', n))
    || ReplanStep(s, w, w')
    || CompleteStep(w, w')
    || CrashStep(w, w')
    || PageStep(w, w')
  }

  ghost predicate Step(s: Setup, w: World, w': World) {
    Moves(s, w, w') || ReconcileStep(w, w')
  }

  ghost predicate Run(s: Setup, trace: seq<World>) {
    && 0 < |trace|
    && forall i :: 0 <= i < |trace| - 1 ==> StepAt(s, trace, i)
  }

  ghost predicate StepAt(s: Setup, trace: seq<World>, i: nat)
    requires i + 1 < |trace|
  {
    Step(s, trace[i], trace[i + 1])
  }

  /** `w'` follows from `w` by some number of steps. */
  ghost predicate Reaches(s: Setup, w: World, w': World) {
    exists trace :: Run(s, trace) && trace[0] == w && trace[|trace| - 1] == w'
  }

  // ---- The invariant holds in every run ----

  lemma InitInv(s: Setup, w: World)
    requires Init(s, w)
    ensures Inv(s, w)
  {
    hide PlanOk;
    forall i | 0 <= i < |w.rows|
      ensures RowHonest(s.source, w.rows[i])
    {
      assert IsFresh(w.rows[i]);
    }
  }

  lemma BeginBindKeep(s: Setup, w: World, w': World, id: UploadId)
    requires Inv(s, w) && (BeginStep(w, w', id) || BindStep(w, w', id))
    ensures Inv(s, w')
  {
    hide PlanOk;
    if BindStep(w, w', id) {
      assert w'.Remote() == map[];
    }
  }

  lemma PutKeeps(s: Setup, w: World, w': World, n: nat, etag: ETag, heard: bool)
    requires Inv(s, w) && PutStep(s, w, w', n, etag, heard)
    ensures Inv(s, w')
  {
    hide PlanOk, CountBelow;
    forall m: nat | Listed(w'.Remote(), w'.pageLimit, m)
      ensures 1 <= m <= |w'.rows| && w'.Remote()[m].bytes == Range(s.source, w'.rows[m - 1])
    {
      CountBelowGrows(w.Remote(), n, etag, m);
      if m != n {
        assert Listed(w.Remote(), w.pageLimit, m);
      }
    }
  }

  /** `later` differs from `row` only in attempt bookkeeping. */
  ghost predicate SameRange(row: PartRecord, later: PartRecord) {
    && later.fileId == row.fileId && later.partNumber == row.partNumber
    && later.sourceOffset == row.sourceOffset && later.sourceLength == row.sourceLength
  }

  ghost predicate SameRanges(rows: seq<PartRecord>, later: seq<PartRecord>) {
    |later| == |rows| && forall i :: 0 <= i < |rows| ==> SameRange(rows[i], later[i])
  }

  lemma SameRangesKeepPlan(rows: seq<PartRecord>, later: seq<PartRecord>, fileId: FileId, fileSize: nat)
    requires PlanOk(rows, fileId, fileSize, DEFAULT_LIMITS) && SameRanges(rows, later)
    ensures PlanOk(later, fileId, fileSize, DEFAULT_LIMITS)
  {
    forall i | 0 <= i < |later|
      ensures SameRange(rows[i], later[i])
    {
    }
    forall i | 0 <= i < |later| - 1
      ensures Adjacent(later, i)
    {
      assert Adjacent(rows, i);
      assert SameRange(rows[i + 1], later[i + 1]);
    }
  }

  lemma SameRangesKeepPage(source: seq<byte>, rows: seq<PartRecord>, later: seq<PartRecord>, parts: RemoteParts, limit: nat)
    requires PageMatches(source, rows, parts, limit) && SameRanges(rows, later)
    ensures PageMatches(source, later, parts, limit)
  {
    hide CountBelow;
    forall n: nat | Listed(parts, limit, n)
      ensures 1 <= n <= |later| && parts[n].bytes == Range(source, later[n - 1])
    {
      assert SameRange(rows[n - 1], later[n - 1]);
    }
  }

  lemma SameRangesKeepReply(source: seq<byte>, rows: seq<PartRecord>, later: seq<PartRecord>, reply: Option<(nat, ETag)>)
    requires ReplyHonest(source, rows, reply) && SameRanges(rows, later)
    ensures ReplyHonest(source, later, reply)
  {
    if reply.Some? {
      assert SameRange(rows[reply.value.0 - 1], later[reply.value.0 - 1]);
    }
  }

  /** Rows that keep their ranges and stay honest keep the invariant. */
  lemma RowsKeep(s: Setup, w: World, w': World)
    requires Inv(s, w) && SameRanges(w.rows, w'.rows) && RowsHonest(s.source, w'.rows)
    requires w' == w.(rows := w'.rows, reply := w'.reply) && (w'.reply == w.reply || w'.reply == None)
    ensures Inv(s, w')
  {
    hide PlanOk, PageMatches, SameRanges, RowsHonest;
    SameRangesKeepPlan(w.rows, w'.rows, s.fileId, |s.source|);
    SameRangesKeepReply(s.source, w.rows, w'.rows, w.reply);
    if w.Open() {
      SameRangesKeepPage(s.source, w.rows, w'.rows, w.Remote(), w.pageLimit);
    }
  }

  lemma ConfirmKeeps(s: Setup, w: World, w': World)
    requires Inv(s, w) && ConfirmStep(w, w')
    ensures Inv(s, w')
  {
    hide PlanOk;
    RowsKeep(s, w, w');
  }

  lemma FailKeeps(s: Setup, w: World, w': World, n: nat)
    requires Inv(s, w) && FailStep(w, w', n)
    ensures Inv(s, w')
  {
    hide PlanOk;
    RowsKeep(s, w, w');
  }

  lemma ReconciledRowKeeps(source: seq<byte>, rows: seq<PartRecord>, i: nat, parts: RemoteParts, limit: nat)
    requires i < |rows| && rows[i].partNumber == i + 1
    requires RowHonest(source, rows[i]) && PageMatches(source, rows, parts, limit)
    ensures var row := ReconciledRow(rows[i], parts, limit);
      && SameRange(rows[i], row) && RowHonest(source, row)
      && (row.status == Complete <==> Listed(parts, limit, i + 1))
  {
    hide CountBelow;
  }

  lemma ReconcileKeeps(s: Setup, w: World, w': World)
    requires Inv(s, w) && ReconcileStep(w, w')
    ensures Inv(s, w') && AgreesWithListing(w'.rows, w.Remote(), w.pageLimit)
    ensures SameRanges(w.rows, w'.rows)
  {
    assert Numbered(w.rows, s.fileId, 0);
    hide PlanOk, Listed, ReconciledRow, RowHonest, SameRange;
    forall i | 0 <= i < |w.rows|
      ensures SameRange(w.rows[i], w'.rows[i]) && RowHonest(s.source, w'.rows[i])
      ensures w'.rows[i].status == Complete <==> Listed(w.Remote(), w.pageLimit, i + 1)
    {
      assert RowHonest(s.source, w.rows[i]);
      ReconciledRowKeeps(s.source, w.rows, i, w.Remote(), w.pageLimit);
      assert w'.rows[i] == ReconciledRow(w.rows[i], w.Remote(), w.pageLimit);
    }
    RowsKeep(s, w, w');
  }

  /** A re-cut leaves every listed part in place, because only unlisted ranges move. */
  lemma ReplanKeeps(s: Setup, w: World, w': World)
    requires Inv(s, w) && ReplanStep(s, w, w')
    ensures Inv(s, w')
  {
    ReplanCloses(w.rows, s.fileId, |s.source|, w'.rows);
    hide PlanOk, CountBelow, IsReplan, NeedsReplan, Uniform;
    var prefix := ConfirmedPrefix(w.rows);
    forall n: nat | Listed(w.Remote(), w.pageLimit, n)
      ensures 1 <= n <= |w'.rows| && w.Remote()[n].bytes == Range(s.source, w'.rows[n - 1])
    {
      assert w.rows[n - 1].status == Complete;
      ListedInPrefix(w.rows, n - 1);
    }
    forall i | 0 <= i < |w'.rows|
      ensures RowHonest(s.source, w'.rows[i])
    {
      if prefix <= i {
        assert IsFresh(w'.rows[i]);
      }
    }
  }

  lemma ListedInPrefix(rows: seq<PartRecord>, i: nat)
    requires NeedsReplan(rows) && i < |rows| && rows[i].status == Complete
    ensures i < ConfirmedPrefix(rows)
  {
  }

  lemma AssembledNext(source: seq<byte>, rows: seq<PartRecord>, k: nat)
    requires 0 < k <= |rows| && rows[k - 1].End() <= |source|
    requires RowHonest(source, rows[k - 1]) && rows[k - 1].status == Complete
    requires Assembled(rows, k - 1) == source[..rows[k - 1].sourceOffset]
    ensures Assembled(rows, k) == source[..rows[k - 1].End()]
  {
    SplitAt(source, rows[k - 1].sourceOffset, rows[k - 1].End());
  }

  /** Parts that cover the source and hold their ranges assemble into the source. */
  lemma {:induction false} AssembledPrefix(s: Setup, rows: seq<PartRecord>, k: nat)
    requires 0 < k <= |rows| && Covers(rows, 0, |s.source|)
    requires RowsHonest(s.source, rows)
    requires forall i :: 0 <= i < |rows| ==> rows[i].status == Complete
    ensures rows[k - 1].End() <= |s.source|
    ensures Assembled(rows, k) == s.source[..rows[k - 1].End()]
  {
    hide RowHonest;
    OffsetsBounded(rows, k - 1, |s.source|);
    assert RowHonest(s.source, rows[k - 1]);
    if 1 < k {
      AssembledPrefix(s, rows, k - 1);
      assert Adjacent(rows, k - 2);
    }
    AssembledNext(s.source, rows, k);
  }

  lemma SplitAt<T>(s: seq<T>, a: nat, b: nat)
    requires a <= b <= |s|
    ensures s[..a] + s[a..b] == s[..b]
  {
  }

  lemma CompleteKeeps(s: Setup, w: World, w': World)
    requires Inv(s, w) && CompleteStep(w, w')
    ensures Inv(s, w') && w'.published == Some(s.source)
  {
    assert Covers(w.rows, 0, |s.source|);
    hide PlanOk;
    AssembledPrefix(s, w.rows, |w.rows|);
    assert s.source[..|s.source|] == s.source;
  }

  lemma PageKeeps(s: Setup, w: World, w': World)
    requires Inv(s, w) && PageStep(w, w')
    ensures Inv(s, w')
  {
    hide PlanOk, CountBelow;
    if w.Open() {
      forall n: nat | Listed(w.Remote(), w'.pageLimit, n)
        ensures 1 <= n <= |w.rows| && w.Remote()[n].bytes == Range(s.source, w.rows[n - 1])
      {
        assert Listed(w.Remote(), w.pageLimit, n);
      }
    }
  }

  lemma StepKeeps(s: Setup, w: World, w': World)
    requires Inv(s, w) && Step(s, w, w')
    ensures Inv(s, w')
  {
    hide Inv, BeginStep, BindStep, PutStep, ConfirmStep, FailStep, ReconcileStep, ReplanStep, CompleteStep, PageStep;
    if id :| BeginStep(w, w', id) {
      BeginBindKeep(s, w, w', id);
    } else if id :| BindStep(w, w', id) {
      BeginBindKeep(s, w, w', id);
    } else if n, etag, heard :| PutStep(s, w, w', n, etag, heard) {
      PutKeeps(s, w, w', n, etag, heard);
    } else if ConfirmStep(w, w') {
      ConfirmKeeps(s, w, w');
    } else if n :| FailStep(w, w', n) {
      FailKeeps(s, w, w', n);
    } else if ReconcileStep(w, w') {
      ReconcileKeeps(s, w, w');
    } else if ReplanStep(s, w, w') {
      ReplanKeeps(s, w, w');
    } else if CompleteStep(w, w') {
      CompleteKeeps(s, w, w');
    } else if PageStep(w, w') {
      PageKeeps(s, w, w');
    } else {
      CrashKeeps(s, w, w');
    }
  }

  lemma CrashKeeps(s: Setup, w: World, w': World)
    requires Inv(s, w) && CrashStep(w, w')
    ensures Inv(s, w')
  {
  }

  lemma {:induction false} RunKeeps(s: Setup, trace: seq<World>, k: nat)
    requires Run(s, trace) && Inv(s, trace[0]) && k < |trace|
    ensures Inv(s, trace[k])
  {
    hide Inv, Step;
    if k == 0 {
    } else {
      RunKeeps(s, trace, k - 1);
      assert StepAt(s, trace, k - 1);
      StepKeeps(s, trace[k - 1], trace[k]);
    }
  }

  /** In every run from a fresh plan, at every moment, an object under the key is the source. */
  lemma UploadSafe(s: Setup, trace: seq<World>, k: nat)
    requires Run(s, trace) && Init(s, trace[0]) && k < |trace|
    ensures trace[k].published.Some? ==> trace[k].published.value == s.source
  {
    InitInv(s, trace[0]);
    RunKeeps(s, trace, k);
  }

  /** Reconciliation never meets an unexpected part or a wrong size in Courier's own runs. */
  lemma ListingNeverRejected(s: Setup, w: World)
    requires Inv(s, w) && w.Open()
    ensures ListingPlanned(w.rows, w.Remote(), w.pageLimit)
    ensures ListingSized(w.rows, w.Remote(), w.pageLimit)
  {
    assert Numbered(w.rows, s.fileId, 0) && Covers(w.rows, 0, |s.source|);
    hide PlanOk, CountBelow;
    forall n: nat | Listed(w.Remote(), w.pageLimit, n)
      ensures Plans(w.rows, n)
    {
      assert w.rows[n - 1].partNumber == n;
    }
    forall i | 0 <= i < |w.rows|
      ensures |Range(s.source, w.rows[i])| == w.rows[i].sourceLength
      ensures w.rows[i].partNumber == i + 1
    {
      OffsetsBounded(w.rows, i, |s.source|);
    }
  }

  /** When a page holds every part number, every accepted part matches the current plan. */
  lemma FullListingMatches(s: Setup, w: World, n: nat)
    requires Inv(s, w) && w.Open() && MAXIMUM_PART_NUMBER <= w.pageLimit
    requires n in w.Remote()
    ensures 1 <= n <= |w.rows| && w.Remote()[n].bytes == Range(s.source, w.rows[n - 1])
  {
    CountBelowBound(w.Remote(), n);
    assert Listed(w.Remote(), w.pageLimit, n);
  }

  // ---- Runs compose ----

  lemma ReachesSelf(s: Setup, w: World)
    ensures Reaches(s, w, w)
  {
    assert Run(s, [w]);
  }

  lemma ReachesStep(s: Setup, w: World, w': World, w'': World)
    requires Reaches(s, w, w') && Step(s, w', w'')
    ensures Reaches(s, w, w'')
  {
    hide Step;
    var trace :| Run(s, trace) && trace[0] == w && trace[|trace| - 1] == w';
    var longer := trace + [w''];
    forall i | 0 <= i < |longer| - 1
      ensures StepAt(s, longer, i)
    {
      if i < |trace| - 1 {
        assert StepAt(s, trace, i);
      }
    }
    assert Run(s, longer) && longer[0] == w && longer[|longer| - 1] == w'';
  }
}
