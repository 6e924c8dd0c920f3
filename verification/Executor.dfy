/** The upload executor over the local part tables and the remote store. Every method is a run
    of the upload protocol, so everything proved of protocol runs holds of the code. */
module Executor {
  import opened Common
  import opened Planner
  import opened Replan
  import opened UploadProtocol

  datatype StoreError = Transient | AuthorizationExpired | UploadNotFound | Permanent | Paused
  {
    predicate IsRetryable() {
      Transient? || AuthorizationExpired?
    }
  }

  /** The errors after which a call is made again. */
  const REPEATED: set<StoreError> := {Transient, AuthorizationExpired}

  datatype RemotePart = RemotePart(number: nat, etag: ETag, size: nat)

  datatype ReconcileError =
    | Remote(error: StoreError)
    | UnexpectedRemotePart(number: nat)
    | RemotePartSizeMismatch(number: nat, remoteSize: nat, plannedSize: nat)

  datatype UploadError =
    | SourceModified
    | Unreconciled(reconcile: ReconcileError)
    | Unplanned(plan: PlanError)
    | StoreFailed(store: StoreError)
    | CompletionRefused(store: StoreError)
    | RetriesExhausted(number: nat, attempts: nat, last: StoreError)
    | InvalidRetryPolicy
    | IncompleteParts(count: nat)
    | MissingUploadSession
    | MissingEtag(number: nat)
    | UploadPaused

  datatype UploadProgress = UploadProgress(partsUploaded: nat, partsAlreadyPresent: nat, sourceBytesConfirmed: nat)

  datatype CompletionOutcome = Completed | AlreadyComplete

  /** The listing shows exactly the parts on the page; a size may be missing, which reads as 0. */
  ghost predicate IsListing(listing: seq<RemotePart>, parts: RemoteParts, limit: nat) {
    && (forall k :: 0 <= k < |listing| ==>
         && Listed(parts, limit, listing[k].number)
         && listing[k].etag == parts[listing[k].number]
         && (listing[k].size == 0 || listing[k].size == |listing[k].etag.bytes|))
    && (forall n: nat :: Listed(parts, limit, n) ==> Shows(listing, n))
  }

  ghost predicate Shows(listing: seq<RemotePart>, n: nat) {
    exists k :: 0 <= k < |listing| && listing[k].number == n
  }

  /** The rows of one object, as SQLite keeps them. */
  class TransferStore {
    var rows: seq<PartRecord>
    var hasObjectKey: bool
    var session: Option<UploadId>

    constructor (planned: seq<PartRecord>)
      ensures rows == planned && !hasObjectKey && session == None
    {
      rows, hasObjectKey, session := planned, false, None;
    }

    method SetUploadSession(id: UploadId)
      modifies this
      ensures session == Some(id) && hasObjectKey && rows == old(rows)
    {
      session, hasObjectKey := Some(id), true;
    }

    method ReplacePartPlan(parts: seq<PartRecord>)
      modifies this`rows
      ensures rows == parts
    {
      rows := parts;
    }

    method ConfirmPart(n: nat, etag: ETag)
      modifies this`rows
      ensures |rows| == |old(rows)|
      ensures forall i :: 0 <= i < |rows| ==>
        rows[i] == if old(rows)[i].partNumber == n then Confirmed(old(rows)[i], etag) else old(rows)[i]
    {
      rows := seq(|rows|, i requires 0 <= i < |rows| reads this =>
        if rows[i].partNumber == n then Confirmed(rows[i], etag) else rows[i]);
    }

    method RecordPartFailure(n: nat)
      modifies this`rows
      ensures |rows| == |old(rows)|
      ensures forall i :: 0 <= i < |rows| ==>
        rows[i] == if old(rows)[i].partNumber == n then FailedOnce(old(rows)[i]) else old(rows)[i]
    {
      rows := seq(|rows|, i requires 0 <= i < |rows| reads this =>
        if rows[i].partNumber == n then FailedOnce(rows[i]) else rows[i]);
    }

    /** Forgets every confirmation, then confirms what the listing shows, in one transaction. */
    method ReconcileRemoteParts(listing: seq<RemotePart>, ghost parts: RemoteParts, ghost limit: nat)
      requires IsListing(listing, parts, limit)
      modifies this`rows
      ensures |rows| == |old(rows)|
      ensures forall i :: 0 <= i < |rows| ==> rows[i] == ReconciledRow(old(rows)[i], parts, limit)
    {
      ghost var before := rows;
      rows := seq(|rows|, i requires 0 <= i < |rows| reads this => Unconfirmed(rows[i]));
      var k := 0;
      while k < |listing|
        invariant 0 <= k <= |listing| && |rows| == |before|
        invariant forall i :: 0 <= i < |rows| ==>
          rows[i] == if Shows(listing[..k], before[i].partNumber)
                     then before[i].(status := Complete, etag := Some(parts[before[i].partNumber]))
                     else Unconfirmed(before[i])
        invariant forall i :: 0 <= i < |rows| ==> rows[i].partNumber == before[i].partNumber
        invariant forall i :: 0 <= i < |rows| ==>
          Shows(listing[..k], before[i].partNumber) ==> before[i].partNumber in parts
      {
        ghost var mid := rows;
        rows := seq(|rows|, i requires 0 <= i < |rows| reads this =>
          if rows[i].partNumber == listing[k].number
          then rows[i].(status := Complete, etag := Some(listing[k].etag)) else rows[i]);
        forall i | 0 <= i < |rows|
          ensures Shows(listing[..k + 1], before[i].partNumber) <==>
            Shows(listing[..k], before[i].partNumber) || before[i].partNumber == listing[k].number
        {
          ShowsOneMore(listing, k, before[i].partNumber);
        }
        k := k + 1;
      }
      assert listing[..k] == listing;
    }
  }

  function Unconfirmed(row: PartRecord): PartRecord {
    if row.status == Complete then row.(status := Pending, etag := None) else row
  }

  lemma ShowsOneMore(listing: seq<RemotePart>, k: nat, n: nat)
    requires k < |listing|
    ensures Shows(listing[..k + 1], n) <==> Shows(listing[..k], n) || n == listing[k].number
  {
    if Shows(listing[..k], n) {
      var j :| 0 <= j < k && listing[..k][j].number == n;
      assert listing[..k + 1][j].number == n;
    }
    if n == listing[k].number {
      assert listing[..k + 1][k].number == n;
    }
    if Shows(listing[..k + 1], n) && n != listing[k].number {
      var j :| 0 <= j < k + 1 && listing[..k + 1][j].number == n;
      assert listing[..k][j].number == n;
    }
  }

  /** What completing with these parts would publish. */
  function Joined(sent: seq<RemotePart>, k: nat): seq<byte>
    requires k <= |sent|
  {
    if k == 0 then [] else Joined(sent, k - 1) + sent[k - 1].etag.bytes
  }

  /** The store knows every part sent, under the ETag sent. */
  predicate Accepts(parts: RemoteParts, sent: seq<RemotePart>) {
    forall i :: 0 <= i < |sent| ==> sent[i].number in parts && parts[sent[i].number] == sent[i].etag
  }

  /** The remote side. Any call may fail, before or after it took effect. */
  /** What an upload meets: the calls to the store with their errors, and what was asked on this side. */
  datatype Event =
    | Opened(error: Option<StoreError>)
    | ListedParts(error: Option<StoreError>, count: nat)
    | SentPart(number: nat, error: Option<StoreError>)
    | Finished(error: Option<StoreError>)
    | Probed(error: Option<StoreError>, found: bool)
    | AskedPause(pause: bool)
    | AskedSource(changed: bool)

  function ErrorOf<T>(r: Result<T, StoreError>): Option<StoreError> {
    if r.Failure? then Some(r.error) else None
  }

  /** Says when to pause and whether the source changed, and keeps account of all that an upload meets. */
  class Observer {
    ghost var events: seq<Event>

    constructor ()
      ensures events == []
    {
      events := [];
    }

    method ShouldPause() returns (pause: bool)
      modifies this
      ensures events == old(events) + [AskedPause(pause)]
    {
      pause := *;
      events := events + [AskedPause(pause)];
    }

    method SourceChanged() returns (changed: bool)
      modifies this
      ensures events == old(events) + [AskedSource(changed)]
    {
      changed := *;
      events := events + [AskedSource(changed)];
    }
  }

  class ObjectStore {
    const observer: Observer
    var uploads: map<UploadId, RemoteParts>
    var issued: UploadId
    var published: Option<seq<byte>>
    var pageLimit: nat

    constructor (limit: nat, observer: Observer)
      ensures uploads == map[] && issued == 0 && published == None && pageLimit == limit
      ensures this.observer == observer
    {
      this.observer := observer;
      uploads, issued, published, pageLimit := map[], 0, None, limit;
    }

    /** Opens an upload, or returns one already open, as the Registry does. */
    method Begin() returns (r: Result<UploadId, StoreError>)
      modifies this`uploads, this`issued, observer
      ensures observer.events == old(observer.events) + [Opened(ErrorOf(r))]
      ensures (uploads == old(uploads) && issued == old(issued))
           || (uploads == old(uploads)[old(issued) := map[]] && issued == old(issued) + 1)
      ensures r.Success? ==> r.value in uploads
    {
      var effect: bool, heard: bool, reuse: bool, error: StoreError := *, *, *, *;
      r := Failure(error);
      if reuse && uploads != map[] {
        var id :| id in uploads;
        r := Success(id);
      } else if effect {
        uploads, issued := uploads[issued := map[]], issued + 1;
        if heard {
          r := Success(issued - 1);
        }
      }
      observer.events := observer.events + [Opened(ErrorOf(r))];
    }

    method ListParts(id: UploadId) returns (r: Result<seq<RemotePart>, StoreError>)
      requires forall u, n :: u in uploads && n in uploads[u] ==> 1 <= n <= MAXIMUM_PART_NUMBER
      modifies observer
      ensures observer.events == old(observer.events) + [ListedParts(ErrorOf(r), if r.Success? then |r.value| else 0)]
      ensures r.Success? ==> id in uploads && IsListing(r.value, uploads[id], pageLimit)
    {
      var fails: bool, error: StoreError := *, *;
      if fails || id !in uploads {
        r := Failure(if fails then error else UploadNotFound);
        observer.events := observer.events + [ListedParts(ErrorOf(r), 0)];
        return;
      }
      var parts := uploads[id];
      var listing: seq<RemotePart>, n: nat := [], 1;
      CountBelowBound(parts, 1);
      while n <= MAXIMUM_PART_NUMBER
        invariant 1 <= n <= MAXIMUM_PART_NUMBER + 1
        invariant forall k :: 0 <= k < |listing| ==>
          && Listed(parts, pageLimit, listing[k].number)
          && listing[k].etag == parts[listing[k].number]
          && (listing[k].size == 0 || listing[k].size == |listing[k].etag.bytes|)
        invariant forall m: nat :: m < n && Listed(parts, pageLimit, m) ==> Shows(listing, m)
        invariant |listing| == Min(CountBelow(parts, n), pageLimit)
      {
        if n in parts && |listing| < pageLimit {
          var sized: bool := *;
          var entry := RemotePart(n, parts[n], if sized then |parts[n].bytes| else 0);
          ghost var shorter := listing;
          listing := listing + [entry];
          forall m: nat | m < n + 1 && Listed(parts, pageLimit, m)
            ensures Shows(listing, m)
          {
            if m < n {
              var k :| 0 <= k < |shorter| && shorter[k].number == m;
              assert listing[k].number == m;
            } else {
              assert listing[|listing| - 1].number == m;
            }
          }
        }
        n := n + 1;
      }
      r := Success(listing);
      observer.events := observer.events + [ListedParts(None, |listing|)];
    }

    method UploadPart(id: UploadId, n: nat, bytes: seq<byte>) returns (r: Result<RemotePart, StoreError>)
      modifies this`uploads, observer
      ensures observer.events == old(observer.events) + [SentPart(n, ErrorOf(r))]
      ensures uploads == old(uploads)
           || (n <= MAXIMUM_PART_NUMBER && id in old(uploads)
               && exists etag: ETag :: etag.bytes == bytes && uploads == old(uploads)[id := WithPart(old(uploads)[id], n, etag)])
      ensures r.Success? ==>
        && n <= MAXIMUM_PART_NUMBER && id in old(uploads)
        && r.value == RemotePart(n, r.value.etag, |bytes|) && r.value.etag.bytes == bytes
        && uploads == old(uploads)[id := WithPart(old(uploads)[id], n, r.value.etag)]
    {
      var effect: bool, heard: bool, error: StoreError, nonce: nat := *, *, *, *;
      r := Failure(error);
      if n > MAXIMUM_PART_NUMBER {
        r := Failure(Permanent);
      } else if id !in uploads {
        r := Failure(UploadNotFound);
      } else if effect {
        var etag := ETag(bytes, nonce);
        uploads := uploads[id := WithPart(uploads[id], n, etag)];
        if heard {
          r := Success(RemotePart(n, etag, |bytes|));
        }
      }
      observer.events := observer.events + [SentPart(n, ErrorOf(r))];
    }

    /** Publishes the parts sent, when the store holds them all, and consumes the upload. */
    method Complete(id: UploadId, sent: seq<RemotePart>) returns (r: Result<(), StoreError>)
      modifies this`uploads, this`published, observer
      ensures observer.events == old(observer.events) + [Finished(ErrorOf(r))]
      ensures (uploads == old(uploads) && published == old(published))
           || (id in old(uploads) && Accepts(old(uploads)[id], sent)
               && uploads == old(uploads) - {id} && published == Some(Joined(sent, |sent|)))
      ensures r.Success? ==> published.Some?
    {
      var effect: bool, heard: bool, error: StoreError := *, *, *;
      r := Failure(error);
      if effect && published.Some? {
        r := Success(());
      } else if effect && id !in uploads {
        r := Failure(UploadNotFound);
      } else if effect && !Accepts(uploads[id], sent) {
        r := Failure(Permanent);
      } else if effect {
        published, uploads := Some(Joined(sent, |sent|)), uploads - {id};
        if heard {
          r := Success(());
        }
      }
      observer.events := observer.events + [Finished(ErrorOf(r))];
    }

    method ObjectExists() returns (r: Result<bool, StoreError>)
      modifies observer
      ensures observer.events == old(observer.events) + [Probed(ErrorOf(r), r.Success? && r.value)]
      ensures r.Success? ==> r.value == published.Some?
    {
      var fails: bool, error: StoreError := *, *;
      r := if fails then Failure(error) else Success(published.Some?);
      observer.events := observer.events + [Probed(ErrorOf(r), r.Success? && r.value)];
    }
  }

  lemma OneMoreEvent(before: seq<Event>, met: seq<Event>, event: Event)
    ensures (before + met) + [event] == before + (met + [event])
  {
  }

  function Last(events: seq<Event>): Event
    requires events != []
  {
    events[|events| - 1]
  }

  // ---- Refinement ----

  ghost function Abs(db: TransferStore, store: ObjectStore, reply: Option<(nat, ETag)>): World
    reads db, store
  {
    World(db.rows, db.session, store.uploads, store.issued, store.published, reply, store.pageLimit)
  }

  /** The code has followed the protocol from `w0` to the present state, holding no reply. */
  ghost predicate Following(s: Setup, w0: World, db: TransferStore, store: ObjectStore)
    reads db, store
  {
    Inv(s, Abs(db, store, None)) && Reaches(s, w0, Abs(db, store, None))
  }

  lemma Advance(s: Setup, w0: World, w: World, w': World)
    requires Inv(s, w) && Reaches(s, w0, w) && Step(s, w, w')
    ensures Inv(s, w') && Reaches(s, w0, w')
  {
    StepKeeps(s, w, w');
    ReachesStep(s, w0, w, w');
  }

  lemma FollowBegin(s: Setup, w0: World, w: World, w': World)
    requires Inv(s, w) && Reaches(s, w0, w) && BeginStep(w, w', w.issued)
    ensures Inv(s, w') && Reaches(s, w0, w')
  {
    hide Inv, Reaches;
    assert Step(s, w, w');
    hide Step;
    Advance(s, w0, w, w');
  }

  lemma FollowBind(s: Setup, w0: World, w: World, w': World, id: UploadId)
    requires Inv(s, w) && Reaches(s, w0, w) && BindStep(w, w', id)
    ensures Inv(s, w') && Reaches(s, w0, w')
  {
    hide Inv, Reaches;
    assert Step(s, w, w');
    hide Step;
    Advance(s, w0, w, w');
  }

  lemma FollowReconcile(s: Setup, w0: World, w: World, w': World)
    requires Inv(s, w) && Reaches(s, w0, w) && ReconcileStep(w, w')
    ensures Inv(s, w') && Reaches(s, w0, w')
    ensures AgreesWithListing(w'.rows, w'.Remote(), w'.pageLimit)
  {
    hide Inv, Reaches;
    assert Step(s, w, w');
    hide Step;
    ReconcileKeeps(s, w, w');
    Advance(s, w0, w, w');
  }

  lemma InvBounds(s: Setup, w: World)
    requires Inv(s, w)
    ensures SessionsOk(w) && |w.rows| <= U32_MAX && Covers(w.rows, 0, |s.source|)
  {
  }

  /** The stored session, or else a new one, which is stored as soon as the store returned it. */
  method OpenSession(db: TransferStore, store: ObjectStore, ghost s: Setup, ghost w0: World)
    returns (r: Result<UploadId, StoreError>)
    requires Following(s, w0, db, store)
    modifies db, store`uploads, store`issued, store.observer
    ensures Following(s, w0, db, store) && db.rows == old(db.rows)
    ensures r.Success? ==> db.session == Some(r.value)
    ensures store.observer.events == old(store.observer.events) + if old(db.session).Some? then [] else [Opened(ErrorOf(r))]
    ensures old(db.session).Some? ==> r == Success(old(db.session).value)
  {
    if db.session.Some? {
      return Success(db.session.value);
    }
    hide Inv, Reaches, Step;
    ghost var w := Abs(db, store, None);
    r := store.Begin();
    ghost var w' := Abs(db, store, None);
    if w' != w {
      FollowBegin(s, w0, w, w');
    }
    if r.Success? {
      db.SetUploadSession(r.value);
      ghost var w'' := Abs(db, store, None);
      FollowBind(s, w0, w', w'', r.value);
    }
  }

  /** Starts or resumes one upload, then makes the stored rows match the remote listing. The
      two checks on the listing never fail. */
  method ReconcileFile(db: TransferStore, store: ObjectStore, ghost s: Setup, ghost w0: World)
    returns (r: Result<(UploadId, seq<RemotePart>), ReconcileError>)
    requires Following(s, w0, db, store)
    modifies db, store`uploads, store`issued, store.observer
    ensures Following(s, w0, db, store)
    ensures old(store.observer.events) < store.observer.events
    ensures forall k :: |old(store.observer.events)| <= k < |store.observer.events| ==>
      store.observer.events[k].Opened? || store.observer.events[k].ListedParts?
    ensures r.Failure? ==>
      r.error.Remote? && Last(store.observer.events) in {Opened(Some(r.error.error)), ListedParts(Some(r.error.error), 0)}
    ensures r.Success? ==> Last(store.observer.events) == ListedParts(None, |r.value.1|)
    ensures r.Success? ==>
      var w := Abs(db, store, None);
      w.Open() && w.session == Some(r.value.0) && AgreesWithListing(w.rows, w.Remote(), w.pageLimit)
  {
    hide Inv, Reaches, Step;
    var session := OpenSession(db, store, s, w0);
    if session.Failure? {
      return Failure(Remote(session.error));
    }
    var id := session.value;
    ghost var w := Abs(db, store, None);
    InvBounds(s, w);
    var listed := store.ListParts(id);
    if listed.Failure? {
      return Failure(Remote(listed.error));
    }
    var listing := listed.value;
    ListingNeverRejected(s, w);
    var mismatch := CheckListing(db.rows, listing);
    if mismatch.Some? {
      ImpossibleMismatch(s, w, listing, mismatch.value);
      assert false;
    }
    db.ReconcileRemoteParts(listing, store.uploads[id], store.pageLimit);
    ghost var w' := Abs(db, store, None);
    FollowReconcile(s, w0, w, w');
    return Success((id, listing));
  }

  /** The planned size of part `n`, by the last of the first `k` rows with this number. */
  function PlannedAt(rows: seq<PartRecord>, n: nat, k: nat): Option<u64>
    requires k <= |rows|
  {
    if k == 0 then None
    else if rows[k - 1].partNumber == n then Some(rows[k - 1].sourceLength)
    else PlannedAt(rows, n, k - 1)
  }

  function PlannedSize(rows: seq<PartRecord>, part: RemotePart): Option<u64> {
    PlannedAt(rows, part.number, |rows|)
  }

  /** The part is planned, and its size, if it is given, is the planned one. */
  predicate RightSize(rows: seq<PartRecord>, part: RemotePart) {
    PlannedSize(rows, part).Some? && (part.size == 0 || part.size == PlannedSize(rows, part).value)
  }

  /** Entry `k` is the first one outside the plan. */
  ghost predicate FirstUnplanned(rows: seq<PartRecord>, listing: seq<RemotePart>, k: nat) {
    && k < |listing| && PlannedSize(rows, listing[k]).None?
    && forall m :: 0 <= m < k ==> PlannedSize(rows, listing[m]).Some?
  }

  /** Every entry is planned, and entry `k` is the first one of a wrong size. */
  ghost predicate FirstWrongSize(rows: seq<PartRecord>, listing: seq<RemotePart>, k: nat) {
    && (forall m :: 0 <= m < |listing| ==> PlannedSize(rows, listing[m]).Some?)
    && k < |listing| && !RightSize(rows, listing[k])
    && forall m :: 0 <= m < k ==> RightSize(rows, listing[m])
  }

  /** Passes exactly the listings whose parts are all planned with the right size. */
  method CheckListing(rows: seq<PartRecord>, listing: seq<RemotePart>) returns (r: Option<ReconcileError>)
    ensures r.None? <==> forall k :: 0 <= k < |listing| ==> RightSize(rows, listing[k])
    ensures r.Some? ==> Mismatch(rows, listing, r.value)
  {
    hide PlannedSize;
    var k := 0;
    while k < |listing|
      invariant 0 <= k <= |listing|
      invariant forall m :: 0 <= m < k ==> PlannedSize(rows, listing[m]).Some?
    {
      var planned := LookUp(rows, listing[k]);
      if planned.None? {
        assert FirstUnplanned(rows, listing, k) && !RightSize(rows, listing[k]);
        return Some(UnexpectedRemotePart(listing[k].number));
      }
      k := k + 1;
    }
    k := 0;
    while k < |listing|
      invariant 0 <= k <= |listing|
      invariant forall m :: 0 <= m < k ==> RightSize(rows, listing[m])
    {
      var planned := LookUp(rows, listing[k]);
      if listing[k].size != 0 && listing[k].size != planned.value {
        assert FirstWrongSize(rows, listing, k);
        return Some(RemotePartSizeMismatch(listing[k].number, listing[k].size, planned.value));
      }
      k := k + 1;
    }
    return None;
  }

  /** The error names the first part outside the plan, or else the first part of a wrong size. */
  ghost predicate Mismatch(rows: seq<PartRecord>, listing: seq<RemotePart>, error: ReconcileError) {
    match error
    case Remote(_) => false
    case UnexpectedRemotePart(n) =>
      exists k: nat :: FirstUnplanned(rows, listing, k) && listing[k].number == n
    case RemotePartSizeMismatch(n, size, planned) =>
      exists k: nat :: FirstWrongSize(rows, listing, k)
        && listing[k].number == n && listing[k].size == size && PlannedSize(rows, listing[k]) == Some(planned)
  }

  lemma {:induction false} PlannedByRow(rows: seq<PartRecord>, n: nat, k: nat)
    requires k <= |rows|
    ensures PlannedAt(rows, n, k).None? ==> forall i :: 0 <= i < k ==> rows[i].partNumber != n
    ensures PlannedAt(rows, n, k).Some? ==>
      exists i :: 0 <= i < k && rows[i].partNumber == n && rows[i].sourceLength == PlannedAt(rows, n, k).value
  {
    if k == 0 {
      assert PlannedAt(rows, n, k).None?;
    } else {
      PlannedByRow(rows, n, k - 1);
    }
  }

  lemma ImpossibleMismatch(s: Setup, w: World, listing: seq<RemotePart>, error: ReconcileError)
    requires Inv(s, w) && w.Open() && IsListing(listing, w.Remote(), w.pageLimit)
    ensures !Mismatch(w.rows, listing, error)
  {
    ListingNeverRejected(s, w);
    hide Inv, CountBelow, Mismatch, Listed;
    forall k | 0 <= k < |listing|
      ensures RightSize(w.rows, listing[k])
    {
      PlannedByRow(w.rows, listing[k].number, |w.rows|);
      assert Plans(w.rows, listing[k].number);
    }
    AllRight(w.rows, listing, error);
  }

  lemma AllRight(rows: seq<PartRecord>, listing: seq<RemotePart>, error: ReconcileError)
    requires forall k :: 0 <= k < |listing| ==> RightSize(rows, listing[k])
    ensures !Mismatch(rows, listing, error)
  {
    hide PlannedSize;
  }

  method LookUp(rows: seq<PartRecord>, part: RemotePart) returns (size: Option<u64>)
    ensures size == PlannedSize(rows, part)
  {
    size := None;
    for i := 0 to |rows|
      invariant size == PlannedAt(rows, part.number, i)
    {
      if rows[i].partNumber == part.number {
        size := Some(rows[i].sourceLength);
      }
    }
  }

  /** Reconciles until it succeeds, meets an error that is not retryable, or has met as many
      retryable errors as attempts are allowed; `retried` are the retryable errors it records. */
  method ReconcileWithRetry(db: TransferStore, store: ObjectStore, ghost s: Setup, ghost w0: World, maxAttempts: nat)
    returns (r: Result<(UploadId, seq<RemotePart>), ReconcileError>, retried: seq<StoreError>)
    requires Following(s, w0, db, store) && 0 < maxAttempts
    modifies db, store`uploads, store`issued, store.observer
    ensures Following(s, w0, db, store)
    ensures old(store.observer.events) < store.observer.events
    ensures forall k :: |old(store.observer.events)| <= k < |store.observer.events| ==>
      store.observer.events[k].Opened? || store.observer.events[k].ListedParts?
    ensures r.Failure? ==>
      r.error.Remote? && Last(store.observer.events) in {Opened(Some(r.error.error)), ListedParts(Some(r.error.error), 0)}
    ensures r.Success? ==> Last(store.observer.events) == ListedParts(None, |r.value.1|)
    ensures r.Success? ==>
      var w := Abs(db, store, None);
      w.Open() && w.session == Some(r.value.0) && AgreesWithListing(w.rows, w.Remote(), w.pageLimit)
    ensures forall k :: 0 <= k < |retried| ==> retried[k] in REPEATED
    ensures |retried| <= maxAttempts
    ensures |retried| == maxAttempts <==> r.Failure? && r.error.error in REPEATED
    ensures |retried| == maxAttempts ==> r.error.error == retried[maxAttempts - 1]
  {
    hide Following;
    retried := [];
    while true
      invariant |retried| < maxAttempts && forall k :: 0 <= k < |retried| ==> retried[k] in REPEATED
      invariant Following(s, w0, db, store) && old(store.observer.events) <= store.observer.events
      invariant forall k :: |old(store.observer.events)| <= k < |store.observer.events| ==>
        store.observer.events[k].Opened? || store.observer.events[k].ListedParts?
      decreases maxAttempts - |retried|
    {
      r := ReconcileFile(db, store, s, w0);
      if r.Success? || !r.error.error.IsRetryable() {
        return r, retried;
      }
      retried := retried + [r.error.error];
      if |retried| == maxAttempts {
        return r, retried;
      }
    }
  }

  /** Every row but number `n` is untouched, and row `n` keeps its range. */
  ghost predicate OnlyRow(n: nat, rows: seq<PartRecord>, later: seq<PartRecord>) {
    && |later| == |rows|
    && (forall i :: 0 <= i < |rows| && i != n - 1 ==> later[i] == rows[i])
    && (1 <= n <= |rows| ==> SameRange(rows[n - 1], later[n - 1]))
  }

  lemma FollowSent(s: Setup, w0: World, w: World, w': World, n: nat, etag: ETag)
    requires Inv(s, w) && Reaches(s, w0, w) && w.reply == None
    requires w.Open() && 1 <= n <= |w.rows| && n <= MAXIMUM_PART_NUMBER
    requires etag.bytes == Range(s.source, w.rows[n - 1])
    requires w' == w.(uploads := w.uploads[w.session.value := WithPart(w.Remote(), n, etag)],
                      rows := w.rows[n - 1 := Confirmed(w.rows[n - 1], etag)])
    ensures Inv(s, w') && Reaches(s, w0, w')
  {
    var heard := w.(uploads := w'.uploads, reply := Some((n, etag)));
    hide Inv, Reaches;
    assert PutStep(s, w, heard, n, etag, true);
    assert ConfirmStep(heard, w');
    hide Step;
    Advance(s, w0, w, heard);
    Advance(s, w0, heard, w');
  }

  /** A failed attempt, whether or not the store kept the bytes. */
  lemma FollowFailed(s: Setup, w0: World, w: World, w': World, n: nat)
    requires Inv(s, w) && Reaches(s, w0, w) && w.reply == None && 1 <= n <= |w.rows|
    requires w'.uploads == w.uploads || (w.Open() && n <= MAXIMUM_PART_NUMBER && exists etag: ETag ::
               etag.bytes == Range(s.source, w.rows[n - 1])
               && w'.uploads == w.uploads[w.session.value := WithPart(w.Remote(), n, etag)])
    requires w' == w.(uploads := w'.uploads, rows := w.rows[n - 1 := FailedOnce(w.rows[n - 1])])
    ensures Inv(s, w') && Reaches(s, w0, w')
  {
    hide Inv, Reaches;
    var sent := w.(uploads := w'.uploads);
    assert FailStep(sent, w', n);
    if w'.uploads != w.uploads {
      var etag: ETag :| etag.bytes == Range(s.source, w.rows[n - 1])
        && w'.uploads == w.uploads[w.session.value := WithPart(w.Remote(), n, etag)];
      assert PutStep(s, w, sent, n, etag, false);
      Advance(s, w0, w, sent);
    }
    Advance(s, w0, sent, w');
  }

  /** `later` is `row` confirmed with an ETag that the store issued for these bytes. */
  ghost predicate ConfirmedWith(row: PartRecord, later: PartRecord, bytes: seq<byte>) {
    exists etag: ETag :: etag.bytes == bytes && later == Confirmed(row, etag)
  }

  lemma InvNumbers(s: Setup, w: World)
    requires Inv(s, w)
    ensures Numbered(w.rows, s.fileId, 0) && |w.rows| <= MAXIMUM_PART_NUMBER
  {
  }

  /** One attempt at one part, recorded in its row. */
  method AttemptPart(db: TransferStore, store: ObjectStore, s: Setup, ghost w0: World,
                     id: UploadId, n: nat, bytes: seq<byte>)
    returns (r: Result<(), StoreError>)
    requires Following(s, w0, db, store) && db.session == Some(id)
    requires 1 <= n <= |db.rows| && bytes == Range(s.source, db.rows[n - 1])
    modifies db`rows, store`uploads, store.observer
    ensures Following(s, w0, db, store)
    ensures store.observer.events == old(store.observer.events) + [SentPart(n, ErrorOf(r))]
    ensures OnlyRow(n, old(db.rows), db.rows)
    ensures r.Success? ==> ConfirmedWith(old(db.rows)[n - 1], db.rows[n - 1], bytes)
    ensures r.Failure? ==> db.rows[n - 1] == FailedOnce(old(db.rows)[n - 1])
  {
    hide Inv, Reaches, CountBelow;
    ghost var w := Abs(db, store, None);
    InvNumbers(s, w);
    var sent := store.UploadPart(id, n, bytes);
    if sent.Success? {
      db.ConfirmPart(n, sent.value.etag);
      assert db.rows == w.rows[n - 1 := Confirmed(w.rows[n - 1], sent.value.etag)];
      FollowSent(s, w0, w, Abs(db, store, None), n, sent.value.etag);
      return Success(());
    }
    db.RecordPartFailure(n);
    assert db.rows == w.rows[n - 1 := FailedOnce(w.rows[n - 1])];
    FollowFailed(s, w0, w, Abs(db, store, None), n);
    return Failure(sent.error);
  }

  /** What `k` refused attempts at part `n` meet, after the source was found unchanged. */
  ghost predicate Refused(events: seq<Event>, n: nat, k: nat) {
    && |events| == 1 + 2 * k && events[0] == AskedSource(false)
    && forall i :: 0 <= i < k ==>
         events[1 + 2 * i] == AskedPause(false) && RepeatedSend(events[2 + 2 * i], n)
  }

  ghost predicate RepeatedSend(event: Event, n: nat) {
    event.SentPart? && event.number == n && event.error.Some? && event.error.value in REPEATED
  }

  /** How the attempts at part `n` end: what they meet after `k` refused ones decides the result. */
  ghost predicate SendEnds(events: seq<Event>, n: nat, k: nat, maxAttempts: nat, r: Result<(), UploadError>) {
    match r
    case Success(_) =>
      k < maxAttempts && |events| == 3 + 2 * k && Refused(events[..1 + 2 * k], n, k)
      && events[1 + 2 * k..] == [AskedPause(false), SentPart(n, None)]
    case Failure(SourceModified) => k == 0 && events == [AskedSource(true)]
    case Failure(UploadPaused) =>
      k < maxAttempts && |events| == 2 + 2 * k && Refused(events[..1 + 2 * k], n, k)
      && events[1 + 2 * k..] == [AskedPause(true)]
    case Failure(StoreFailed(error)) =>
      k < maxAttempts && |events| == 3 + 2 * k && Refused(events[..1 + 2 * k], n, k)
      && events[1 + 2 * k..] == [AskedPause(false), SentPart(n, Some(error))] && error !in REPEATED
    case Failure(RetriesExhausted(number, attempts, last)) =>
      number == n && attempts == maxAttempts == k && 0 < k && Refused(events, n, k)
      && Last(events) == SentPart(n, Some(last))
    case _ => false
  }

  /** How many attempts were made, when `k` were refused before the end. */
  function Attempts(r: Result<(), UploadError>, k: nat): nat {
    k + if r.Success? || r.error.StoreFailed? then 1 else 0
  }

  /** The row counts every attempt, and is confirmed with these bytes, failed, or untouched. */
  ghost predicate RowTells(row: PartRecord, later: PartRecord, attempts: nat, r: Result<(), UploadError>, bytes: seq<byte>) {
    && later.attemptCount == row.attemptCount + attempts
    && (r.Success? ==>
          && later.status == Complete && later.etag.Some? && later.etag.value.bytes == bytes
          && later.transportLength == Some(|bytes|))
    && (r.Failure? ==> if attempts == 0 then later == row else later.status == Failed)
  }

  /** Only row `n` changed, by `k` failed attempts. */
  ghost predicate TriedRow(rows: seq<PartRecord>, later: seq<PartRecord>, n: nat, k: nat) {
    && 1 <= n <= |rows| && OnlyRow(n, rows, later)
    && later[n - 1].attemptCount == rows[n - 1].attemptCount + k
    && if k == 0 then later[n - 1] == rows[n - 1] else later[n - 1].status == Failed
  }

  lemma StartsAttempts(rows: seq<PartRecord>, n: nat, maxAttempts: nat)
    requires 1 <= n <= |rows|
    ensures Refused([AskedSource(false)], n, 0) && TriedRow(rows, rows, n, 0)
    ensures SendEnds([AskedSource(true)], n, 0, maxAttempts, Failure(SourceModified))
  {
  }

  lemma RowRange(s: Setup, row: PartRecord, part: PartRecord)
    requires SameRange(row, part)
    ensures Range(s.source, row) == Range(s.source, part)
    ensures |Range(s.source, part)| <= U64_MAX
  {
  }

  lemma TriedRowSays(rows: seq<PartRecord>, later: seq<PartRecord>, n: nat, k: nat, r: Result<(), UploadError>, bytes: seq<byte>)
    requires TriedRow(rows, later, n, k) && r.Failure? && !r.error.StoreFailed?
    ensures OnlyRow(n, rows, later) && |later| == |rows| && Attempts(r, k) == k
    ensures RowTells(rows[n - 1], later[n - 1], k, r, bytes)
  {
  }

  /** One more attempt at row `n`. */
  lemma TriedOnceMore(s: Setup, rows: seq<PartRecord>, tried: seq<PartRecord>, later: seq<PartRecord>, n: nat, k: nat,
                      bytes: seq<byte>, r: Result<(), StoreError>)
    requires TriedRow(rows, tried, n, k) && OnlyRow(n, tried, later) && |later| == |tried| && 1 <= n <= |tried|
    requires |bytes| <= U64_MAX
    requires r.Success? ==> ConfirmedWith(tried[n - 1], later[n - 1], bytes)
    requires r.Failure? ==> later[n - 1] == FailedOnce(tried[n - 1])
    ensures OnlyRow(n, rows, later) && Range(s.source, later[n - 1]) == Range(s.source, tried[n - 1])
    ensures r.Success? ==>
      Attempts(Success(()), k) == k + 1 && RowTells(rows[n - 1], later[n - 1], k + 1, Success(()), bytes)
    ensures r.Failure? ==>
      && TriedRow(rows, later, n, k + 1)
      && Attempts(Failure(StoreFailed(r.error)), k) == k + 1
      && RowTells(rows[n - 1], later[n - 1], k + 1, Failure(StoreFailed(r.error)), bytes)
  {
    RowRange(s, tried[n - 1], later[n - 1]);
    hide Range;
  }

  lemma EndsPaused(met: seq<Event>, n: nat, k: nat, maxAttempts: nat)
    requires Refused(met, n, k) && k < maxAttempts
    ensures SendEnds(met + [AskedPause(true)], n, k, maxAttempts, Failure(UploadPaused))
    ensures AskedAgain(met + [AskedPause(false)], n, k)
  {
    var events := met + [AskedPause(true)];
    assert events[..1 + 2 * k] == met && events[1 + 2 * k..] == [AskedPause(true)];
    assert (met + [AskedPause(false)])[..1 + 2 * k] == met;
  }

  /** `k` refused attempts, and no pause after them. */
  ghost predicate AskedAgain(met: seq<Event>, n: nat, k: nat) {
    |met| == 2 + 2 * k && Refused(met[..1 + 2 * k], n, k) && Last(met) == AskedPause(false)
  }

  lemma EndsSent(met: seq<Event>, n: nat, k: nat, maxAttempts: nat, r: Result<(), StoreError>)
    requires AskedAgain(met, n, k) && k < maxAttempts
    ensures var events := met + [SentPart(n, ErrorOf(r))];
      && (r.Success? ==> SendEnds(events, n, k, maxAttempts, Success(())))
      && (r.Failure? && r.error !in REPEATED ==> SendEnds(events, n, k, maxAttempts, Failure(StoreFailed(r.error))))
      && (r.Failure? && r.error in REPEATED ==> Refused(events, n, k + 1))
    ensures r.Failure? ==> ErrorOf(r) == Some(r.error)
  {
    var events := met + [SentPart(n, ErrorOf(r))];
    assert events[..1 + 2 * k] == met[..1 + 2 * k] && events[1 + 2 * k..] == [AskedPause(false), SentPart(n, ErrorOf(r))];
    if r.Failure? && r.error in REPEATED {
      forall i | 0 <= i < k + 1
        ensures events[1 + 2 * i] == AskedPause(false) && RepeatedSend(events[2 + 2 * i], n)
      {
        if i < k {
          assert events[1 + 2 * i] == met[..1 + 2 * k][1 + 2 * i] && events[2 + 2 * i] == met[..1 + 2 * k][2 + 2 * i];
        }
      }
    }
  }

  lemma EndsGivenUp(met: seq<Event>, n: nat, maxAttempts: nat, error: StoreError)
    requires Refused(met, n, maxAttempts) && 0 < maxAttempts
    requires met != [] && met[|met| - 1] == SentPart(n, Some(error))
    ensures SendEnds(met, n, maxAttempts, maxAttempts, Failure(RetriesExhausted(n, maxAttempts, error)))
  {
  }

  /** Sends one part until it is confirmed or the attempts run out. */
  method UploadPartWithRetry(db: TransferStore, store: ObjectStore, s: Setup, ghost w0: World,
                             id: UploadId, part: PartRecord, maxAttempts: nat)
    returns (r: Result<(), UploadError>, ghost met: seq<Event>, ghost refused: nat)
    requires Following(s, w0, db, store) && db.session == Some(id) && 0 < maxAttempts
    requires 1 <= part.partNumber <= |db.rows| && SameRange(db.rows[part.partNumber - 1], part)
    modifies db`rows, store`uploads, store.observer
    ensures Following(s, w0, db, store)
    ensures OnlyRow(part.partNumber, old(db.rows), db.rows)
    ensures store.observer.events == old(store.observer.events) + met && met != []
    ensures SendEnds(met, part.partNumber, refused, maxAttempts, r)
    ensures RowTells(old(db.rows)[part.partNumber - 1], db.rows[part.partNumber - 1], Attempts(r, refused), r, Range(s.source, part))
  {
    hide *;
    ghost var rows, before, n := db.rows, store.observer.events, part.partNumber;
    StartsAttempts(rows, n, maxAttempts);
    RowRange(s, db.rows[n - 1], part);
    var bytes := Range(s.source, part);
    var changed := store.observer.SourceChanged();
    met, refused := [AskedSource(changed)], 0;
    if changed {
      TriedRowSays(rows, db.rows, n, 0, Failure(SourceModified), bytes);
      return Failure(SourceModified), met, refused;
    }
    var lastError: Option<StoreError> := None;
    var attempt := 0;
    while attempt < maxAttempts
      invariant 0 <= attempt <= maxAttempts && refused == attempt && |db.rows| == |rows|
      invariant store.observer.events == before + met && met != [] && Refused(met, n, attempt)
      invariant Following(s, w0, db, store) && bytes == Range(s.source, db.rows[n - 1])
      invariant TriedRow(rows, db.rows, n, attempt)
      invariant 0 < attempt ==> lastError.Some? && met[|met| - 1] == SentPart(n, lastError)
    {
      ghost var tried := db.rows;
      var paused := store.observer.ShouldPause();
      EndsPaused(met, n, attempt, maxAttempts);
      OneMoreEvent(before, met, AskedPause(paused));
      met := met + [AskedPause(paused)];
      if paused {
        TriedRowSays(rows, tried, n, attempt, Failure(UploadPaused), bytes);
        return Failure(UploadPaused), met, refused;
      }
      var sent := AttemptPart(db, store, s, w0, id, part.partNumber, bytes);
      EndsSent(met, n, attempt, maxAttempts, sent);
      OneMoreEvent(before, met, SentPart(n, ErrorOf(sent)));
      met := met + [SentPart(n, ErrorOf(sent))];
      OnlyRowCount(n, tried, db.rows);
      TriedOnceMore(s, rows, tried, db.rows, n, attempt, bytes, sent);
      if sent.Success? {
        return Success(()), met, refused;
      }
      RepeatsExactly(sent.error);
      if !sent.error.IsRetryable() {
        return Failure(StoreFailed(sent.error)), met, refused;
      }
      lastError := Some(sent.error);
      attempt := attempt + 1;
      refused := attempt;
    }
    var givenUp := RetriesExhausted(part.partNumber, maxAttempts, lastError.value);
    TriedRowSays(rows, db.rows, n, attempt, Failure(givenUp), bytes);
    EndsGivenUp(met, n, maxAttempts, lastError.value);
    return Failure(givenUp), met, refused;
  }

  lemma OnlyRowCount(n: nat, rows: seq<PartRecord>, later: seq<PartRecord>)
    requires OnlyRow(n, rows, later)
    ensures |later| == |rows|
  {
  }

  /** How many parts the store was heard to accept. */
  function Sends(events: seq<Event>): nat {
    if events == [] then 0
    else Sends(events[..|events| - 1]) + if Last(events).SentPart? && Last(events).error.None? then 1 else 0
  }

  lemma {:induction false} SendsAppend(a: seq<Event>, b: seq<Event>)
    ensures Sends(a + b) == Sends(a) + Sends(b)
    decreases |b|
  {
    if b == [] {
      assert a + b == a;
    } else {
      assert (a + b)[..|a + b| - 1] == a + b[..|b| - 1] && Last(a + b) == Last(b);
      SendsAppend(a, b[..|b| - 1]);
    }
  }

  lemma {:induction false} NoSends(events: seq<Event>)
    requires forall k :: 0 <= k < |events| ==> !events[k].SentPart? || events[k].error.Some?
    ensures Sends(events) == 0
    decreases |events|
  {
    if events == [] {
      assert Sends(events) == 0;
    } else {
      NoSends(events[..|events| - 1]);
    }
  }

  lemma RefusedSends(events: seq<Event>, n: nat, k: nat)
    requires Refused(events, n, k)
    ensures Sends(events) == 0
  {
    forall i | 0 <= i < |events|
      ensures !events[i].SentPart? || events[i].error.Some?
    {
      if i % 2 == 1 {
        assert events[1 + 2 * (i / 2)] == AskedPause(false);
      } else if 0 < i {
        assert RepeatedSend(events[2 + 2 * (i / 2 - 1)], n);
      }
    }
    NoSends(events);
  }

  /** One part more exactly when its sending succeeded. */
  lemma SendEndsSends(events: seq<Event>, n: nat, k: nat, maxAttempts: nat, r: Result<(), UploadError>)
    requires SendEnds(events, n, k, maxAttempts, r) && r.Success?
    ensures Sends(events) == 1
  {
    var front, rest := events[..1 + 2 * k], events[1 + 2 * k..];
    RefusedSends(front, n, k);
    assert events == front + rest;
    SendsAppend(front, rest);
    assert rest[..1] == [AskedPause(false)] && rest[..1][..0] == [];
    assert Sends(rest[..1]) == 0;
  }

  /** The last things met account for the error. */
  ghost predicate Explained(error: UploadError, events: seq<Event>) {
    && events != []
    && match error
       case SourceModified => Last(events) == AskedSource(true)
       case UploadPaused => Last(events) == AskedPause(true)
       case StoreFailed(e) =>
         || Last(events) == Probed(Some(e), false)
         || (Last(events).SentPart? && Last(events).error == Some(e) && e !in REPEATED)
       case RetriesExhausted(n, _, e) => Last(events) == SentPart(n, Some(e)) && e in REPEATED
       case Unreconciled(e) => e.Remote? && Last(events) in {Opened(Some(e.error)), ListedParts(Some(e.error), 0)}
       case _ => false
  }

  lemma SendEndsExplained(events: seq<Event>, before: seq<Event>, n: nat, k: nat, maxAttempts: nat, r: Result<(), UploadError>)
    requires SendEnds(events, n, k, maxAttempts, r) && r.Failure? && events != []
    ensures Explained(r.error, before + events)
  {
    assert Last(before + events) == Last(events);
    if r.error.RetriesExhausted? {
      assert events[2 + 2 * (k - 1)] == Last(events) && RepeatedSend(events[2 + 2 * (k - 1)], n);
    } else if !r.error.SourceModified? {
      assert events == events[..1 + 2 * k] + events[1 + 2 * k..];
    }
  }

  /** The bytes of the confirmed rows among the first `k`. */
  function ConfirmedBytes(rows: seq<PartRecord>, k: nat): nat
    requires k <= |rows|
  {
    if k == 0 then 0
    else ConfirmedBytes(rows, k - 1) + if rows[k - 1].status == Complete then rows[k - 1].sourceLength else 0
  }

  ghost predicate AllComplete(rows: seq<PartRecord>) {
    forall i :: 0 <= i < |rows| ==> rows[i].status == Complete
  }

  lemma {:induction false} AllBytesConfirmed(rows: seq<PartRecord>, k: nat, fileSize: nat)
    requires 0 < k <= |rows| && Covers(rows, 0, fileSize) && AllComplete(rows)
    ensures ConfirmedBytes(rows, k) == rows[k - 1].End()
  {
    if 1 < k {
      AllBytesConfirmed(rows, k - 1, fileSize);
      assert Adjacent(rows, k - 2);
    } else {
      assert ConfirmedBytes(rows, 0) == 0;
    }
  }

  lemma FollowReplan(s: Setup, w0: World, w: World, w': World)
    requires Inv(s, w) && Reaches(s, w0, w) && ReplanStep(s, w, w')
    ensures Inv(s, w') && Reaches(s, w0, w')
  {
    hide Inv, Reaches;
    assert Step(s, w, w');
    hide Step;
    Advance(s, w0, w, w');
  }

  lemma AbsFields(db: TransferStore, store: ObjectStore)
    ensures var w := Abs(db, store, None);
      w.rows == db.rows && w.session == db.session && w.pageLimit == store.pageLimit
  {
  }

  lemma FollowedObject(s: Setup, w0: World, db: TransferStore, store: ObjectStore)
    requires Following(s, w0, db, store)
    ensures store.published.Some? ==> store.published == Some(s.source)
  {
    PublishedIsSource(s, Abs(db, store, None));
  }

  lemma CoversEnd(rows: seq<PartRecord>, end: int)
    requires Covers(rows, 0, end)
    ensures 0 < |rows| && rows[|rows| - 1].End() == end
  {
  }

  lemma RowsCover(s: Setup, w0: World, db: TransferStore, store: ObjectStore)
    requires Following(s, w0, db, store)
    ensures Covers(db.rows, 0, |s.source|) && 0 < |db.rows|
  {
    InvBounds(s, Abs(db, store, None));
  }

  /** Re-cuts the tail when the rule asks for it. This never fails. */
  method ReplanIfNeeded(db: TransferStore, store: ObjectStore, s: Setup, ghost w0: World)
    requires Following(s, w0, db, store)
    requires Abs(db, store, None).Open()
    requires AgreesWithListing(db.rows, Abs(db, store, None).Remote(), store.pageLimit)
    modifies db`rows
    ensures Following(s, w0, db, store)
    ensures if NeedsReplan(old(db.rows)) then IsReplan(old(db.rows), s.fileId, |s.source|, db.rows)
      else db.rows == old(db.rows)
  {
    ghost var w := Abs(db, store, None);
    assert PlanOk(w.rows, s.fileId, |s.source|, DEFAULT_LIMITS) && s.Valid();
    hide Inv, Reaches, Step, PlanParts;
    var replanned := ReplanLargeUnconfirmedParts(s.fileId, |s.source|, db.rows);
    if NeedsReplan(w.rows) {
      ReplanSucceeds(w.rows, s.fileId, |s.source|);
    }
    match replanned {
      case Success(Some(parts)) =>
        db.ReplacePartPlan(parts);
        ghost var w' := Abs(db, store, None);
        FollowReplan(s, w0, w, w');
      case _ =>
    }
  }

  /** Sends every part that the store has not confirmed. On success either the object already
      exists or every row is confirmed, and the reported bytes are the whole source. */
  method UploadMissingParts(db: TransferStore, store: ObjectStore, s: Setup, ghost w0: World, maxAttempts: nat)
    returns (r: Result<UploadProgress, UploadError>)
    requires Following(s, w0, db, store)
    modifies db, store`uploads, store`issued, store.observer
    ensures Following(s, w0, db, store)
    ensures old(store.observer.events) <= store.observer.events
    ensures var n := |old(store.observer.events)|;
      && (0 < maxAttempts ==> n < |store.observer.events| && store.observer.events[n].AskedPause?)
      && (n + 1 < |store.observer.events| ==> (store.observer.events[n + 1].Probed? <==> old(db.hasObjectKey)))
    ensures r.Success? ==> r.value.sourceBytesConfirmed == |s.source|
    ensures r.Success? ==>
      var met := store.observer.events[|old(store.observer.events)|..];
      || (&& met != [] && Last(met) == Probed(None, true) && store.published == Some(s.source)
          && r.value.partsUploaded == 0 && r.value.partsAlreadyPresent == |db.rows|)
      || (&& AllComplete(db.rows)
          && r.value.partsUploaded == Sends(met) && ListedParts(None, r.value.partsAlreadyPresent) in met)
    ensures r.Failure? ==>
      if maxAttempts == 0 then r.error == InvalidRetryPolicy && store.observer.events == old(store.observer.events)
      else old(store.observer.events) < store.observer.events && Explained(r.error, store.observer.events)
  {
    hide *;
    if maxAttempts == 0 {
      return Failure(InvalidRetryPolicy);
    }
    ghost var before := store.observer.events;
    var paused := store.observer.ShouldPause();
    if paused {
      PauseExplains(store.observer.events);
      return Failure(UploadPaused);
    }
    if db.hasObjectKey {
      var exists' := store.ObjectExists();
      ProbeExplains(store.observer.events, exists');
      if exists'.Failure? {
        return Failure(StoreFailed(exists'.error));
      }
      if exists'.value {
        FollowedObject(s, w0, db, store);
        LastSince(before, store.observer.events);
        return Success(UploadProgress(0, |db.rows|, |s.source|));
      }
    }
    var reconciled, retried := ReconcileWithRetry(db, store, s, w0, maxAttempts);
    ghost var listed := store.observer.events;
    if reconciled.Failure? {
      ReconcileExplains(listed, reconciled.error);
      return Failure(Unreconciled(reconciled.error));
    }
    var (id, existing) := reconciled.value;
    LastSince(before, listed);
    AbsFields(db, store);
    ReplanIfNeeded(db, store, s, w0);
    var uploaded := UploadRows(db, store, s, w0, id, maxAttempts);
    if uploaded.Failure? {
      return Failure(uploaded.error);
    }
    QuietThenSends(before, listed, store.observer.events);
    RowsCover(s, w0, db, store);
    AllBytesConfirmed(db.rows, |db.rows|, |s.source|);
    CoversEnd(db.rows, |s.source|);
    return Success(UploadProgress(uploaded.value, |existing|, ConfirmedBytes(db.rows, |db.rows|)));
  }

  lemma PauseExplains(events: seq<Event>)
    requires events != [] && events[|events| - 1] == AskedPause(true)
    ensures Explained(UploadPaused, events)
  {
  }

  lemma ProbeExplains(events: seq<Event>, r: Result<bool, StoreError>)
    requires events != [] && events[|events| - 1] == Probed(ErrorOf(r), r.Success? && r.value)
    ensures r.Failure? ==> Explained(StoreFailed(r.error), events)
    ensures r.Success? ==> events[|events| - 1] == Probed(None, r.value)
  {
  }

  lemma ReconcileExplains(events: seq<Event>, error: ReconcileError)
    requires events != [] && error.Remote? && Last(events) in {Opened(Some(error.error)), ListedParts(Some(error.error), 0)}
    ensures Explained(Unreconciled(error), events)
  {
  }

  lemma LastSince(before: seq<Event>, events: seq<Event>)
    requires before < events
    ensures Last(events[|before|..]) == Last(events) == events[|events| - 1]
    ensures Last(events) in events[|before|..]
  {
  }

  /** What was sent since `before`, when nothing was sent until `middle`. */
  lemma QuietThenSends(before: seq<Event>, middle: seq<Event>, events: seq<Event>)
    requires before <= middle <= events
    requires forall k :: |before| <= k < |middle| ==> !middle[k].SentPart?
    ensures Sends(events[|before|..]) == Sends(events[|middle|..])
    ensures forall e :: e in middle[|before|..] ==> e in events[|before|..]
  {
    var quiet := middle[|before|..];
    NoSends(quiet);
    assert events[|before|..] == quiet + events[|middle|..];
    SendsAppend(quiet, events[|middle|..]);
  }

  /** Sends the unconfirmed rows in order, working from a copy of the rows read beforehand. */
  method UploadRows(db: TransferStore, store: ObjectStore, s: Setup, ghost w0: World, id: UploadId, maxAttempts: nat)
    returns (r: Result<nat, UploadError>)
    requires Following(s, w0, db, store) && db.session == Some(id) && 0 < maxAttempts
    modifies db`rows, store`uploads, store.observer
    ensures Following(s, w0, db, store)
    ensures old(store.observer.events) <= store.observer.events
    ensures r.Success? ==>
      && AllComplete(db.rows)
      && r.value == Outstanding(old(db.rows), |old(db.rows)|) == Sends(store.observer.events[|old(store.observer.events)|..])
    ensures r.Failure? ==> old(store.observer.events) < store.observer.events && Explained(r.error, store.observer.events)
    ensures KeepsConfirmed(old(db.rows), db.rows)
  {
    hide *;
    var parts := db.rows;
    ghost var start := store.observer.events;
    StartSending(s, w0, db, store);
    NothingSent(start);
    var uploaded, i := 0, 0;
    while i < |parts|
      invariant 0 <= i <= |parts| == |db.rows|
      invariant Following(s, w0, db, store)
      invariant forall j :: 0 <= j < |parts| ==> parts[j].partNumber == j + 1
      invariant SentUpTo(parts, db.rows, i)
      invariant uploaded == Outstanding(parts, i)
      invariant start <= store.observer.events && Sends(store.observer.events[|start|..]) == uploaded
    {
      ghost var before := db.rows;
      RowToSend(parts, before, i);
      if parts[i].status != Complete {
        ghost var met := store.observer.events;
        var paused := store.observer.ShouldPause();
        if paused {
          PauseExplains(store.observer.events);
          return Failure(UploadPaused);
        }
        ghost var asked := store.observer.events;
        ghost var ended, refused;
        var sent;
        sent, ended, refused := UploadPartWithRetry(db, store, s, w0, id, parts[i], maxAttempts);
        EndsAccounted(start, met, asked, ended, parts[i].partNumber, refused, maxAttempts, sent);
        if sent.Failure? {
          OtherRowsKept(parts, before, db.rows, i);
          return Failure(sent.error);
        }
        OnlyRowCount(i + 1, before, db.rows);
        RowConfirmed(before[i], db.rows[i], Attempts(sent, refused), sent, Range(s.source, parts[i]));
        uploaded := uploaded + 1;
      }
      SentOneMore(parts, before, db.rows, i);
      i := i + 1;
    }
    AllSent(parts, db.rows);
    return Success(uploaded);
  }

  lemma RowConfirmed(row: PartRecord, later: PartRecord, attempts: nat, r: Result<(), UploadError>, bytes: seq<byte>)
    requires RowTells(row, later, attempts, r, bytes) && r.Success?
    ensures later.status == Complete
  {
  }

  lemma NothingSent(events: seq<Event>)
    ensures Sends(events[|events|..]) == 0
  {
    assert events[|events|..] == [];
  }

  /** A part's attempts add one to the parts sent, or account for their error. */
  lemma EndsAccounted(start: seq<Event>, met: seq<Event>, asked: seq<Event>, ended: seq<Event>, n: nat, k: nat,
                      maxAttempts: nat, r: Result<(), UploadError>)
    requires start <= met && asked == met + [AskedPause(false)] && ended != []
    requires SendEnds(ended, n, k, maxAttempts, r)
    ensures r.Success? ==> Sends((asked + ended)[|start|..]) == Sends(met[|start|..]) + 1
    ensures r.Failure? ==> Explained(r.error, asked + ended)
  {
    hide *;
    var events := asked + ended;
    if r.Failure? {
      SendEndsExplained(ended, asked, n, k, maxAttempts, r);
    } else {
      SendEndsSends(ended, n, k, maxAttempts, r);
      assert events[|asked|..] == ended;
      QuietThenSends(met, asked, events);
      assert events[|start|..] == met[|start|..] + events[|met|..];
      SendsAppend(met[|start|..], events[|met|..]);
    }
  }

  /** Against the copy `parts`, rows below `k` are confirmed and the rest are as they were. */
  ghost predicate SentUpTo(parts: seq<PartRecord>, rows: seq<PartRecord>, k: int) {
    && |rows| == |parts|
    && (forall j :: 0 <= j < |parts| ==> SameRange(rows[j], parts[j]))
    && (forall j :: k <= j < |parts| ==> 0 <= j ==> rows[j].status == parts[j].status)
    && (forall j :: 0 <= j < k && j < |parts| ==> rows[j].status == Complete)
    && KeepsConfirmed(parts, rows)
  }

  /** No row that was confirmed is touched. */
  ghost predicate KeepsConfirmed(rows: seq<PartRecord>, later: seq<PartRecord>) {
    && |later| == |rows|
    && forall j :: 0 <= j < |rows| ==> rows[j].status == Complete ==> later[j] == rows[j]
  }

  /** How many of the first `k` rows are not confirmed. */
  function Outstanding(rows: seq<PartRecord>, k: nat): nat
    requires k <= |rows|
  {
    if k == 0 then 0 else Outstanding(rows, k - 1) + if rows[k - 1].status != Complete then 1 else 0
  }

  lemma StartSending(s: Setup, w0: World, db: TransferStore, store: ObjectStore)
    requires Following(s, w0, db, store)
    ensures forall j :: 0 <= j < |db.rows| ==> db.rows[j].partNumber == j + 1
    ensures SentUpTo(db.rows, db.rows, 0) && Outstanding(db.rows, 0) == 0
  {
    InvNumbers(s, Abs(db, store, None));
  }

  lemma RowToSend(parts: seq<PartRecord>, rows: seq<PartRecord>, i: nat)
    requires i < |parts| && SentUpTo(parts, rows, i)
    ensures |rows| == |parts| && SameRange(rows[i], parts[i]) && KeepsConfirmed(parts, rows)
    ensures Outstanding(parts, i + 1) == Outstanding(parts, i) + if parts[i].status != Complete then 1 else 0
  {
    SameRangeBack(rows[i], parts[i]);
  }

  lemma SameRangeBack(a: PartRecord, b: PartRecord)
    ensures SameRange(a, b) <==> SameRange(b, a)
  {
  }

  lemma AllSent(parts: seq<PartRecord>, rows: seq<PartRecord>)
    requires SentUpTo(parts, rows, |parts|)
    ensures AllComplete(rows) && KeepsConfirmed(parts, rows)
  {
  }

  lemma OtherRowsKept(parts: seq<PartRecord>, rows: seq<PartRecord>, later: seq<PartRecord>, k: nat)
    requires k < |parts| && KeepsConfirmed(parts, rows) && parts[k].status != Complete && OnlyRow(k + 1, rows, later)
    ensures KeepsConfirmed(parts, later)
  {
  }

  lemma SentOneMore(parts: seq<PartRecord>, rows: seq<PartRecord>, later: seq<PartRecord>, k: nat)
    requires k < |parts| && SentUpTo(parts, rows, k)
    requires if parts[k].status != Complete then
        OnlyRow(k + 1, rows, later) && (k < |later| ==> later[k].status == Complete)
      else later == rows
    ensures SentUpTo(parts, later, k + 1) && |later| == |parts|
  {
  }

  /** The parts list that completion sends is the rows' own list. */
  lemma {:induction false} JoinedIsAssembled(rows: seq<PartRecord>, sent: seq<RemotePart>, k: nat)
    requires k <= |sent| == |rows|
    requires forall i :: 0 <= i < |rows| ==> rows[i].etag == Some(sent[i].etag)
    ensures Joined(sent, k) == Assembled(rows, k)
  {
    if k == 0 {
    } else {
      JoinedIsAssembled(rows, sent, k - 1);
    }
  }

  lemma FollowComplete(s: Setup, w0: World, w: World, w': World, sent: seq<RemotePart>)
    requires Inv(s, w) && Reaches(s, w0, w) && w.Open()
    requires |sent| == |w.rows| && AllComplete(w.rows)
    requires forall i :: 0 <= i < |w.rows| ==>
      w.rows[i].etag == Some(sent[i].etag) && w.rows[i].partNumber == sent[i].number
    requires Accepts(w.Remote(), sent)
    requires w' == w.(uploads := w.uploads - {w.session.value}, published := Some(Joined(sent, |sent|)))
    ensures Inv(s, w') && Reaches(s, w0, w')
  {
    hide Inv, Reaches;
    JoinedIsAssembled(w.rows, sent, |sent|);
    assert CompletionAccepted(w);
    assert CompleteStep(w, w');
    Advance(s, w0, w, w');
  }

  /** The size named in a completion: what was sent if that is known, else what was planned. */
  function SentSize(row: PartRecord): u64 {
    if row.transportLength.Some? then row.transportLength.value else row.sourceLength
  }

  method CollectParts(rows: seq<PartRecord>) returns (r: Result<seq<RemotePart>, UploadError>)
    ensures r.Success? ==>
      && |r.value| == |rows| && AllComplete(rows)
      && forall i :: 0 <= i < |rows| ==>
           && rows[i].etag == Some(r.value[i].etag) && r.value[i].number == rows[i].partNumber
           && r.value[i].size == SentSize(rows[i])
    ensures r.Failure? && r.error.IncompleteParts? ==>
      0 < r.error.count == Outstanding(rows, |rows|) && !AllComplete(rows)
    ensures r.Failure? && !r.error.IncompleteParts? ==>
      && r.error.MissingEtag? && AllComplete(rows)
      && exists i :: 0 <= i < |rows| && rows[i].partNumber == r.error.number && rows[i].etag == None
           && forall j :: 0 <= j < i ==> rows[j].etag != None
  {
    var incomplete, i := 0, 0;
    while i < |rows|
      invariant 0 <= i <= |rows|
      invariant incomplete == Outstanding(rows, i)
      invariant incomplete == 0 <==> forall j :: 0 <= j < i ==> rows[j].status == Complete
    {
      incomplete := incomplete + if rows[i].status != Complete then 1 else 0;
      i := i + 1;
    }
    if incomplete > 0 {
      return Failure(IncompleteParts(incomplete));
    }
    var sent: seq<RemotePart> := [];
    i := 0;
    while i < |rows|
      invariant 0 <= i <= |rows| && |sent| == i
      invariant forall j :: 0 <= j < i ==>
        && rows[j].etag == Some(sent[j].etag) && sent[j].number == rows[j].partNumber
        && sent[j].size == SentSize(rows[j])
    {
      if rows[i].etag == None {
        return Failure(MissingEtag(rows[i].partNumber));
      }
      sent := sent + [RemotePart(rows[i].partNumber, rows[i].etag.value, SentSize(rows[i]))];
      i := i + 1;
    }
    return Success(sent);
  }

  /** What `k` refused completions meet: the object is not there, each time. */
  ghost predicate NotThere(events: seq<Event>, k: nat) {
    && |events| == 1 + 2 * k && events[0] == Probed(None, false)
    && forall i :: 0 <= i < k ==> RepeatedFinish(events[1 + 2 * i]) && events[2 + 2 * i] == Probed(None, false)
  }

  ghost predicate RepeatedFinish(event: Event) {
    event.Finished? && event.error.Some? && event.error.value in REPEATED
  }

  /** How a completion ends: what it meets after `k` refusals decides the result. */
  ghost predicate CompletionEnds(events: seq<Event>, k: nat, maxAttempts: nat, r: Result<CompletionOutcome, UploadError>) {
    match r
    case Success(Completed) =>
      k < maxAttempts && |events| == 2 + 2 * k && NotThere(events[..1 + 2 * k], k) && Last(events) == Finished(None)
    case Success(AlreadyComplete) => ProbeEnds(events, k, maxAttempts, Probed(None, true))
    case Failure(StoreFailed(e)) => ProbeEnds(events, k, maxAttempts, Probed(Some(e), false))
    case Failure(CompletionRefused(e)) =>
      k < maxAttempts && |events| == 3 + 2 * k && NotThere(events[..1 + 2 * k], k)
      && events[1 + 2 * k..] == [Finished(Some(e)), Probed(None, false)] && e !in REPEATED
    case Failure(RetriesExhausted(n, attempts, e)) =>
      n == 0 && attempts == maxAttempts == k && 0 < k && NotThere(events, k) && events[2 * k - 1] == Finished(Some(e))
    case Failure(IncompleteParts(_)) => events == [Probed(None, false)]
    case Failure(_) => events == []
  }

  /** The first probe, or one that follows a refused completion, gives the answer. */
  ghost predicate ProbeEnds(events: seq<Event>, k: nat, maxAttempts: nat, answer: Event) {
    || (k == 0 && events == [answer])
    || (k < maxAttempts && |events| == 3 + 2 * k && NotThere(events[..1 + 2 * k], k)
        && events[1 + 2 * k].Finished? && events[1 + 2 * k].error.Some? && Last(events) == answer)
  }

  /** The rows are the parts that a completion names. */
  ghost predicate Names(rows: seq<PartRecord>, parts: seq<RemotePart>) {
    && |parts| == |rows| && AllComplete(rows)
    && forall i :: 0 <= i < |rows| ==> rows[i].etag == Some(parts[i].etag) && parts[i].number == rows[i].partNumber
  }

  /** One request to complete; it may take effect without an answer. */
  method CompleteOnce(db: TransferStore, store: ObjectStore, s: Setup, ghost w0: World, id: UploadId, parts: seq<RemotePart>)
    returns (r: Result<(), StoreError>)
    requires Following(s, w0, db, store) && db.session == Some(id) && Names(db.rows, parts)
    modifies store`uploads, store`published, store.observer
    ensures Following(s, w0, db, store)
    ensures store.observer.events == old(store.observer.events) + [Finished(ErrorOf(r))]
    ensures store.published.Some? ==> store.published == Some(s.source)
    ensures r.Success? ==> store.published.Some?
  {
    ghost var w := Abs(db, store, None);
    hide Inv, Reaches;
    r := store.Complete(id, parts);
    ghost var w' := Abs(db, store, None);
    if w' != w {
      FollowComplete(s, w0, w, w', parts);
    }
    PublishedIsSource(s, w');
  }

  /** Both successful outcomes mean that the finished object is the source, whether or not any
      reply to the completion was heard. Every failure but a failed probe means that there is no
      object, and every outcome is the one that the store's answers call for. */
  method CompleteUploadedFile(db: TransferStore, store: ObjectStore, s: Setup, ghost w0: World, maxAttempts: nat)
    returns (r: Result<CompletionOutcome, UploadError>, ghost met: seq<Event>, ghost refused: nat)
    requires Following(s, w0, db, store)
    modifies store`uploads, store`published, store.observer
    ensures Following(s, w0, db, store)
    ensures store.observer.events == old(store.observer.events) + met && CompletionEnds(met, refused, maxAttempts, r)
    ensures r.Success? ==> store.published == Some(s.source)
    ensures r.Failure? && (r.error.RetriesExhausted? || r.error.CompletionRefused? || r.error.IncompleteParts?) ==>
      store.published == None
    ensures maxAttempts == 0 ==> r == Failure(InvalidRetryPolicy)
    ensures 0 < maxAttempts && db.session == None ==> r == Failure(MissingUploadSession)
    ensures 0 < maxAttempts && db.session.Some? && r.Failure? ==>
      match r.error
      case IncompleteParts(count) => 0 < count == Outstanding(db.rows, |db.rows|)
      case StoreFailed(_) => true
      case CompletionRefused(_) => AllComplete(db.rows)
      case RetriesExhausted(_, _, _) => AllComplete(db.rows)
      case _ => false
  {
    ghost var before := store.observer.events;
    met, refused := [], 0;
    assert before == before + met;
    if maxAttempts == 0 {
      NeverAsked(maxAttempts, InvalidRetryPolicy);
      return Failure(InvalidRetryPolicy), met, refused;
    }
    if db.session == None {
      NeverAsked(maxAttempts, MissingUploadSession);
      return Failure(MissingUploadSession), met, refused;
    }
    var id := db.session.value;
    hide NotThere, CompletionEnds, Outstanding;
    var exists' := store.ObjectExists();
    met := [Probed(ErrorOf(exists'), exists'.Success? && exists'.value)];
    FirstProbe(exists', maxAttempts);
    FollowedObject(s, w0, db, store);
    if exists'.Failure? {
      return Failure(StoreFailed(exists'.error)), met, refused;
    }
    if exists'.value {
      return Success(AlreadyComplete), met, refused;
    }
    var collected := CollectParts(db.rows);
    if collected.Failure? {
      MissingEtagImpossible(s, Abs(db, store, None), collected.error);
      OnlyProbed(maxAttempts, collected.error);
      return Failure(collected.error), met, refused;
    }
    r, met, refused := RetryCompletion(db, store, s, w0, id, collected.value, maxAttempts, before);
  }

  lemma NeverAsked(maxAttempts: nat, error: UploadError)
    requires error == InvalidRetryPolicy || error == MissingUploadSession
    ensures CompletionEnds([], 0, maxAttempts, Failure(error))
  {
  }

  lemma FirstProbe(r: Result<bool, StoreError>, maxAttempts: nat)
    ensures var events := [Probed(ErrorOf(r), r.Success? && r.value)];
      && (r.Failure? ==> CompletionEnds(events, 0, maxAttempts, Failure(StoreFailed(r.error))))
      && (r.Success? && r.value ==> CompletionEnds(events, 0, maxAttempts, Success(AlreadyComplete)))
      && (r.Success? && !r.value ==> events == [Probed(None, false)] && NotThere(events, 0))
  {
  }

  lemma OnlyProbed(maxAttempts: nat, error: UploadError)
    requires error.IncompleteParts?
    ensures CompletionEnds([Probed(None, false)], 0, maxAttempts, Failure(error))
  {
  }

  /** Asks for the completion until it is known how it ended, or the attempts run out. */
  method RetryCompletion(db: TransferStore, store: ObjectStore, s: Setup, ghost w0: World, id: UploadId,
                         parts: seq<RemotePart>, maxAttempts: nat, ghost before: seq<Event>)
    returns (r: Result<CompletionOutcome, UploadError>, ghost met: seq<Event>, ghost refused: nat)
    requires Following(s, w0, db, store) && db.session == Some(id) && Names(db.rows, parts)
    requires 0 < maxAttempts && store.published == None && store.observer.events == before + [Probed(None, false)]
    modifies store`uploads, store`published, store.observer
    ensures Following(s, w0, db, store)
    ensures store.observer.events == before + met && CompletionEnds(met, refused, maxAttempts, r)
    ensures r.Success? ==> store.published == Some(s.source)
    ensures r.Failure? ==> r.error.RetriesExhausted? || r.error.CompletionRefused? || r.error.StoreFailed?
    ensures r.Failure? && !r.error.StoreFailed? ==> store.published == None
  {
    hide *;
    met, refused := [Probed(None, false)], 0;
    StartsNotThere();
    var lastError: Option<StoreError> := None;
    var attempt := 0;
    while attempt < maxAttempts
      invariant 0 <= attempt <= maxAttempts && refused == attempt
      invariant store.observer.events == before + met && NotThere(met, attempt)
      invariant 0 < attempt ==> lastError.Some? && GaveUpOn(met, attempt, lastError.value)
      invariant Following(s, w0, db, store) && Names(db.rows, parts) && store.published == None
    {
      var completed := CompleteOnce(db, store, s, w0, id, parts);
      EndsCompleted(met, attempt, maxAttempts, completed);
      OneMoreEvent(before, met, Finished(ErrorOf(completed)));
      met := met + [Finished(ErrorOf(completed))];
      if completed.Success? {
        return Success(Completed), met, refused;
      }
      var exists' := store.ObjectExists();
      EndsProbed(met, attempt, maxAttempts, completed.error, exists');
      OneMoreEvent(before, met, Probed(ErrorOf(exists'), exists'.Success? && exists'.value));
      met := met + [Probed(ErrorOf(exists'), exists'.Success? && exists'.value)];
      if exists'.Failure? {
        return Failure(StoreFailed(exists'.error)), met, refused;
      }
      if exists'.value {
        return Success(AlreadyComplete), met, refused;
      }
      RepeatsExactly(completed.error);
      if !completed.error.IsRetryable() {
        return Failure(CompletionRefused(completed.error)), met, refused;
      }
      lastError := Some(completed.error);
      attempt := attempt + 1;
      refused := attempt;
    }
    EndsExhausted(met, maxAttempts, lastError.value);
    return Failure(RetriesExhausted(0, maxAttempts, lastError.value)), met, refused;
  }

  lemma StartsNotThere()
    ensures NotThere([Probed(None, false)], 0)
  {
  }

  lemma RepeatsExactly(error: StoreError)
    ensures error.IsRetryable() <==> error in REPEATED
  {
  }

  /** The last refusal was for this error. */
  ghost predicate GaveUpOn(met: seq<Event>, k: nat, error: StoreError) {
    0 < k && |met| == 1 + 2 * k && met[2 * k - 1] == Finished(Some(error))
  }

  /** `k` refusals, and a completion that was refused with `error` after them. */
  ghost predicate Tried(met: seq<Event>, k: nat, error: StoreError) {
    |met| == 2 + 2 * k && NotThere(met[..1 + 2 * k], k) && Last(met) == Finished(Some(error))
  }

  lemma EndsCompleted(met: seq<Event>, k: nat, maxAttempts: nat, r: Result<(), StoreError>)
    requires NotThere(met, k) && k < maxAttempts
    ensures var events := met + [Finished(ErrorOf(r))];
      if r.Success? then CompletionEnds(events, k, maxAttempts, Success(Completed)) else Tried(events, k, r.error)
  {
    assert (met + [Finished(ErrorOf(r))])[..1 + 2 * k] == met;
  }

  lemma EndsProbed(met: seq<Event>, k: nat, maxAttempts: nat, error: StoreError, r: Result<bool, StoreError>)
    requires Tried(met, k, error) && k < maxAttempts
    ensures var events := met + [Probed(ErrorOf(r), r.Success? && r.value)];
      if r.Failure? then CompletionEnds(events, k, maxAttempts, Failure(StoreFailed(r.error)))
      else if r.value then CompletionEnds(events, k, maxAttempts, Success(AlreadyComplete))
      else if error !in REPEATED then CompletionEnds(events, k, maxAttempts, Failure(CompletionRefused(error)))
      else NotThere(events, k + 1) && GaveUpOn(events, k + 1, error)
  {
    var answer := Probed(ErrorOf(r), r.Success? && r.value);
    var events := met + [answer];
    assert events[..1 + 2 * k] == met[..1 + 2 * k] && events[1 + 2 * k..] == [Finished(Some(error)), answer];
    if r.Success? && !r.value && error in REPEATED {
      forall i | 0 <= i < k + 1
        ensures RepeatedFinish(events[1 + 2 * i]) && events[2 + 2 * i] == Probed(None, false)
      {
        if i < k {
          assert events[1 + 2 * i] == met[..1 + 2 * k][1 + 2 * i] && events[2 + 2 * i] == met[..1 + 2 * k][2 + 2 * i];
        }
      }
    }
  }

  lemma EndsExhausted(met: seq<Event>, maxAttempts: nat, error: StoreError)
    requires NotThere(met, maxAttempts) && GaveUpOn(met, maxAttempts, error)
    ensures CompletionEnds(met, maxAttempts, maxAttempts, Failure(RetriesExhausted(0, maxAttempts, error)))
  {
  }

  lemma PublishedIsSource(s: Setup, w: World)
    requires Inv(s, w)
    ensures w.published.Some? ==> w.published == Some(s.source)
  {
  }

  lemma MissingEtagImpossible(s: Setup, w: World, error: UploadError)
    requires Inv(s, w)
    requires error.MissingEtag? ==> AllComplete(w.rows) && exists i :: 0 <= i < |w.rows| && w.rows[i].etag == None
    ensures !error.MissingEtag?
  {
    assert forall i :: 0 <= i < |w.rows| ==> RowHonest(s.source, w.rows[i]);
  }

  lemma StartFollowing(s: Setup, db: TransferStore, store: ObjectStore)
    requires Init(s, Abs(db, store, None))
    ensures Following(s, Abs(db, store, None), db, store)
  {
    InitInv(s, Abs(db, store, None));
    ReachesSelf(s, Abs(db, store, None));
  }

  /** A whole upload: plan the parts, send them, complete. It fails to plan exactly when the source
      exceeds what the limits can hold, and when it succeeds the object is the source. */
  method UploadObject(fileId: FileId, source: seq<byte>, maxAttempts: nat, pageLimit: nat)
    returns (r: Result<ObjectStore, UploadError>)
    requires |source| <= U64_MAX
    ensures r.Success? ==> r.value.published == Some(source)
    ensures |source| > DEFAULT_LIMITS.maximumPartSize * DEFAULT_LIMITS.maximumParts <==> r.Failure? && r.error.Unplanned?
  {
    PlanPartsFails(fileId, |source|, DEFAULT_LIMITS);
    var planned := PlanParts(fileId, |source|, DEFAULT_LIMITS);
    if planned.Failure? {
      return Failure(Unplanned(planned.error));
    }
    PlanPartsSucceeds(fileId, |source|, DEFAULT_LIMITS);
    hide PlanParts, PlanOk, Inv, Reaches;
    var s := Setup(fileId, source);
    var db := new TransferStore(planned.value);
    var observer := new Observer();
    var store := new ObjectStore(pageLimit, observer);
    ghost var w0 := Abs(db, store, None);
    StartFollowing(s, db, store);
    var sent := UploadMissingParts(db, store, s, w0, maxAttempts);
    if sent.Failure? {
      return Failure(sent.error);
    }
    ghost var met, refused;
    var completed;
    completed, met, refused := CompleteUploadedFile(db, store, s, w0, maxAttempts);
    if completed.Failure? {
      return Failure(completed.error);
    }
    return Success(store);
  }
}
