/** Every run of the verification workers, the client and the administrator. */
module VerificationRuns {
  import opened Common
  import opened TransportPlan
  import opened Manifest
  import opened ObjectContents
  import opened Verification

  /** A worker is idle, holds a claim, or verifies against the rows that it read. */
  datatype Worker = Idle | Holding(attempt: nat) | Reading(attempt: nat, read: Rows)

  /** The rows, the workers, the finalize requests that have read but not committed, the objects
      whose store completion is not yet committed, what the store was given for each object, the
      objects that a delete has since removed, the uploads the store has consumed, the time. */
  datatype World = World(
    rows: Rows,
    workers: seq<Worker>,
    finalizing: nat,
    completing: set<nat>,
    stored: map<nat, Answer>,
    removed: set<nat>,
    consumed: set<nat>,
    now: nat)

  ghost predicate ClaimStep(reg: Registry, w: World, w': World, k: nat) {
    && k < |w.workers| && w.workers[k].Idle? && Claimable(reg.settings, w.rows, w.now)
    && w' == w.(rows := Claimed(w.rows, w.now), workers := w.workers[k := Holding(|w.rows.attempts|)])
  }

  ghost predicate ReadStep(w: World, w': World, k: nat) {
    && k < |w.workers| && w.workers[k].Holding?
    && w' == w.(workers := w.workers[k := Reading(w.workers[k].attempt, w.rows)])
  }

  /** The store answers with an error or with what it was given; a worker may have read an object
      before a delete removed it. */
  ghost predicate Honest(reg: Registry, w: World, answers: seq<Answer>) {
    && |answers| == |reg.manifest.objects|
    && forall k :: 0 <= k < |answers| ==> answers[k].Unreadable? || (k in w.stored && answers[k] == w.stored[k])
  }

  /** A worker verifies what the store answers, and commits. */
  ghost predicate CommitStep(reg: Registry, w: World, w': World, k: nat, answers: seq<Answer>) {
    && k < |w.workers| && w.workers[k].Reading? && Honest(reg, w, answers)
    && var read := w.workers[k].read;
    && ForManifest(reg.manifest, read) && ForManifest(reg.manifest, w.rows) && w.workers[k].attempt < |w.rows.attempts|
    && w' == w.(rows := Committed(reg, read, w.rows, w.workers[k].attempt, answers),
                workers := w.workers[k := Idle])
  }

  /** A worker dies with its claim. */
  ghost predicate DropStep(w: World, w': World, k: nat) {
    k < |w.workers| && w' == w.(workers := w.workers[k := Idle])
  }

  ghost predicate InitiateStep(w: World, w': World, item: nat, uploadId: nat) {
    && item < |w.rows.objects| && w.rows.objects[item].status != ObjectUploaded
    && w.rows.objects[item].uploadId == None && uploadId !in w.consumed
    && (forall i :: 0 <= i < |w.rows.objects| ==> w.rows.objects[i].uploadId != Some(uploadId))
    && w' == w.(rows := w.rows.(objects := w.rows.objects[item := ObjectRow(Some(uploadId), ObjectUploading)]))
  }

  /** The store completes an upload of any bytes, which consumes its id; the commit is still to come. */
  ghost predicate StoreStep(w: World, w': World, item: nat, content: Answer) {
    && item < |w.rows.objects| && w.rows.objects[item].status != ObjectUploaded
    && w.rows.objects[item].uploadId.Some?
    && w.rows.objects[item].uploadId.value !in w.consumed
    && w' == w.(consumed := w.consumed + {w.rows.objects[item].uploadId.value},
                stored := w.stored[item := content],
                removed := w.removed - {item},
                completing := w.completing + {item})
  }

  ghost predicate UploadedStep(reg: Registry, w: World, w': World, item: nat) {
    && item in w.completing && item < |reg.manifest.objects| && ForManifest(reg.manifest, w.rows)
    && w' == w.(rows := Uploaded(reg.manifest, w.rows, item), completing := w.completing - {item})
  }

  /** The commit that should follow the store's completion is lost. */
  ghost predicate LostStep(w: World, w': World, item: nat) {
    w' == w.(completing := w.completing - {item})
  }

  ghost predicate FinalizeReadStep(w: World, w': World) {
    ReadyToFinalize(w.rows) && w' == w.(finalizing := w.finalizing + 1)
  }

  ghost predicate FinalizeCommitStep(w: World, w': World) {
    0 < w.finalizing && w' == w.(rows := w.rows.(status := Finalizing), finalizing := w.finalizing - 1)
  }

  ghost predicate FinalizeDropStep(w: World, w': World) {
    0 < w.finalizing && w' == w.(finalizing := w.finalizing - 1)
  }

  ghost predicate RetryStep(w: World, w': World) {
    Retriable(w.rows) && w' == w.(rows := Retried(w.rows))
  }

  /** An administrator's delete aborts an upload that has not arrived. */
  ghost predicate AbortStep(w: World, w': World, item: nat) {
    && item < |w.rows.objects| && !Arrived(w.rows.objects[item]) && w.rows.objects[item].uploadId.Some?
    && w' == w.(consumed := w.consumed + {w.rows.objects[item].uploadId.value})
  }

  /** It removes the objects one after the other, before it commits. When it commits it takes the
      transfer with it and so ends the run; when it does not, the transfer stays as it is. */
  ghost predicate RemoveStep(w: World, w': World, item: nat) {
    item < |w.rows.objects| && w' == w.(removed := w.removed + {item})
  }

  ghost predicate TickStep(w: World, w': World) {
    w.now <= w'.now && w' == w.(now := w'.now)
  }

  ghost predicate Step(reg: Registry, w: World, w': World) {
    || (exists k :: ClaimStep(reg, w, w', k))
    || (exists k :: ReadStep(w, w', k))
    || (exists k, answers :: CommitStep(reg, w, w', k, answers))
    || (exists k :: DropStep(w, w', k))
    || (exists item, uploadId :: InitiateStep(w, w', item, uploadId))
    || (exists item, content :: StoreStep(w, w', item, content))
    || (exists item :: UploadedStep(reg, w, w', item))
    || (exists item :: LostStep(w, w', item))
    || FinalizeReadStep(w, w') || FinalizeCommitStep(w, w') || FinalizeDropStep(w, w')
    || RetryStep(w, w')
    || (exists item :: AbortStep(w, w', item))
    || (exists item :: RemoveStep(w, w', item))
    || TickStep(w, w')
  }

  // ---- Each kind of step is a step ----

  lemma ClaimIsStep(reg: Registry, w: World, w': World, k: nat)
    requires ClaimStep(reg, w, w', k)
    ensures Step(reg, w, w')
  {
  }

  lemma ReadIsStep(reg: Registry, w: World, w': World, k: nat)
    requires ReadStep(w, w', k)
    ensures Step(reg, w, w')
  {
  }

  lemma CommitIsStep(reg: Registry, w: World, w': World, k: nat, answers: seq<Answer>)
    requires CommitStep(reg, w, w', k, answers)
    ensures Step(reg, w, w')
  {
  }

  lemma OtherIsStep(reg: Registry, w: World, w': World)
    requires FinalizeReadStep(w, w') || FinalizeCommitStep(w, w') || TickStep(w, w')
    ensures Step(reg, w, w')
  {
  }

  lemma RemoveIsStep(reg: Registry, w: World, w': World, item: nat)
    requires RemoveStep(w, w', item)
    ensures Step(reg, w, w')
  {
  }

  // ---- The invariant ----

  /** The count is the number of attempts, which are numbered from one. */
  ghost predicate AttemptsCounted(settings: Settings, rows: Rows) {
    && rows.attemptCount == |rows.attempts| <= settings.maxAttempts
    && forall i :: 0 <= i < |rows.attempts| ==> rows.attempts[i].number == i + 1
  }

  /** A verified file has the manifest's size and digest; before that it has neither. */
  predicate FileHonest(file: ManifestFile, row: FileRow) {
    if row.status == FileVerified then row.verifiedSize == Some(file.size) && row.verifiedDigest == Some(file.digest)
    else row.verifiedSize == None && row.verifiedDigest == None
  }

  ghost predicate FilesHonest(m: TransferManifest, rows: Rows) {
    ForManifest(m, rows) && forall i :: 0 <= i < |rows.files| ==> FileHonest(m.files[i], rows.files[i])
  }

  ghost predicate AllVerified(rows: Rows) {
    forall i :: 0 <= i < |rows.files| ==> rows.files[i].status == FileVerified
  }

  ghost predicate Arrived(item: ObjectRow) {
    item.status == ObjectUploaded || item.status == ObjectVerified
  }

  ghost predicate AllArrived(rows: Rows) {
    forall i :: 0 <= i < |rows.objects| ==> Arrived(rows.objects[i])
  }

  /** Something past the finalize check is under way or done. */
  ghost predicate Begun(w: World) {
    || !w.rows.status.Ready? || 0 < w.finalizing
    || exists k :: 0 <= k < |w.workers| && !w.workers[k].Idle?
  }

  /** An object is stored once: its upload id is consumed, and arrived it has nothing pending. */
  ghost predicate ArrivesOnce(w: World, i: nat)
    requires i < |w.rows.objects|
  {
    && (i in w.stored ==> w.rows.objects[i].uploadId.Some? && w.rows.objects[i].uploadId.value in w.consumed)
    && (Arrived(w.rows.objects[i]) ==> i in w.stored && i !in w.completing)
    && (i in w.completing ==> i in w.stored)
  }

  ghost predicate AllArriveOnce(w: World) {
    forall i :: 0 <= i < |w.rows.objects| ==> ArrivesOnce(w, i)
  }

  /** The object that carries file `i` arrived, and its stored bytes fit the manifest. */
  ghost predicate Backed(reg: Registry, w: World, i: nat)
    requires i < |reg.manifest.files| && ForManifest(reg.manifest, w.rows)
  {
    var k := Carrier(reg.manifest, i);
    k < |reg.manifest.objects| && Arrived(w.rows.objects[k]) && k in w.stored && Fits(reg, k, w.stored[k])
  }

  ghost predicate VerifiedBacked(reg: Registry, w: World) {
    && ForManifest(reg.manifest, w.rows)
    && forall i :: 0 <= i < |w.rows.files| && w.rows.files[i].status == FileVerified ==> Backed(reg, w, i)
  }

  /** What a worker read is of the same transfer, and its attempt exists. */
  ghost predicate WorkerOk(m: TransferManifest, rows: Rows, worker: Worker) {
    && (worker.Holding? ==> worker.attempt < |rows.attempts|)
    && (worker.Reading? ==> worker.attempt < |rows.attempts| && ReadOk(m, rows, worker.read))
  }

  /** What was read as verified still is what was read. */
  ghost predicate ReadOk(m: TransferManifest, rows: Rows, read: Rows) {
    && ForManifest(m, rows) && FilesHonest(m, read)
    && (forall i :: 0 <= i < |rows.files| && read.files[i].status == FileVerified ==> rows.files[i] == read.files[i])
    && (forall i :: 0 <= i < |rows.objects| && read.objects[i].status == ObjectVerified ==> Arrived(rows.objects[i]))
  }

  ghost predicate WorkersOk(m: TransferManifest, w: World) {
    forall k :: 0 <= k < |w.workers| ==> WorkerOk(m, w.rows, w.workers[k])
  }

  ghost predicate Inv(reg: Registry, w: World) {
    && ValidManifest(reg.manifest)
    && AttemptsCounted(reg.settings, w.rows)
    && FilesHonest(reg.manifest, w.rows)
    && (w.rows.status.Complete? ==> AllVerified(w.rows))
    && (Begun(w) ==> AllArrived(w.rows))
    && AllArriveOnce(w)
    && VerifiedBacked(reg, w)
    && WorkersOk(reg.manifest, w)
  }

  /** The Registry accepted a manifest; nothing is uploaded, nothing is claimed. */
  ghost predicate Init(reg: Registry, w: World) {
    && ValidManifest(reg.manifest) && w.rows == Submitted(reg.manifest)
    && (forall k :: 0 <= k < |w.workers| ==> w.workers[k].Idle?)
    && w.finalizing == 0 && w.completing == {} && w.stored == map[] && w.removed == {} && w.consumed == {}
  }

  /** A verified file stays as it is. */
  ghost predicate FilesKept(rows: Rows, rows': Rows) {
    && |rows'.files| == |rows.files|
    && forall i :: 0 <= i < |rows.files| && rows.files[i].status == FileVerified ==> rows'.files[i] == rows.files[i]
  }

  lemma InitInv(reg: Registry, w: World)
    requires Init(reg, w)
    ensures Inv(reg, w)
  {
    hide ValidManifest, Fits;
  }

  /** The same file and object rows, nothing less stored, nothing new pending. */
  lemma SameRowsKeep(reg: Registry, w: World, w': World)
    requires Inv(reg, w)
    requires w'.rows.files == w.rows.files && w'.rows.objects == w.rows.objects
    requires w'.rows.attempts == w.rows.attempts && w'.rows.attemptCount == w.rows.attemptCount
    requires w'.rows.status.Complete? ==> w.rows.status.Complete?
    requires Begun(w') ==> AllArrived(w.rows)
    requires w'.completing <= w.completing && w.consumed <= w'.consumed && w'.stored == w.stored
    requires WorkersOk(reg.manifest, w')
    ensures Inv(reg, w') && FilesKept(w.rows, w'.rows)
  {
    hide ValidManifest, WorkersOk, Begun, Fits;
    assert AllArriveOnce(w') by {
      forall i | 0 <= i < |w'.rows.objects|
        ensures ArrivesOnce(w', i)
      {
        assert ArrivesOnce(w, i);
      }
    }
    assert forall i :: 0 <= i < |w.rows.files| && w.rows.files[i].status == FileVerified ==> Backed(reg, w, i);
  }

  /** A worker's view stays right when the rows change around what was verified. */
  lemma ViewsKept(m: TransferManifest, rows: Rows, rows': Rows, worker: Worker)
    requires WorkerOk(m, rows, worker) && FilesKept(rows, rows') && |rows.attempts| <= |rows'.attempts|
    requires ForManifest(m, rows')
    requires forall i :: 0 <= i < |rows.objects| && Arrived(rows.objects[i]) && i < |rows'.objects| ==> Arrived(rows'.objects[i])
    ensures WorkerOk(m, rows', worker)
  {
    hide FileHonest;
    if worker.Reading? {
      assert ReadOk(m, rows, worker.read);
    }
  }

  lemma AllViewsKept(m: TransferManifest, w: World, w': World)
    requires WorkersOk(m, w) && FilesKept(w.rows, w'.rows) && |w.rows.attempts| <= |w'.rows.attempts|
    requires ForManifest(m, w'.rows) && |w'.workers| == |w.workers|
    requires forall i :: 0 <= i < |w.rows.objects| && Arrived(w.rows.objects[i]) && i < |w'.rows.objects| ==> Arrived(w'.rows.objects[i])
    requires forall j :: 0 <= j < |w.workers| && w'.workers[j] != w.workers[j] ==> WorkerOk(m, w'.rows, w'.workers[j])
    ensures WorkersOk(m, w')
  {
    forall j | 0 <= j < |w'.workers|
      ensures WorkerOk(m, w'.rows, w'.workers[j])
    {
      assert WorkerOk(m, w.rows, w.workers[j]);
      ViewsKept(m, w.rows, w'.rows, w.workers[j]);
    }
  }

  lemma ClaimKeeps(reg: Registry, w: World, w': World, k: nat)
    requires Inv(reg, w) && ClaimStep(reg, w, w', k)
    ensures Inv(reg, w') && FilesKept(w.rows, w'.rows)
  {
    hide ValidManifest, Fits;
    assert AllArrived(w.rows) by { assert Begun(w); }
    AllViewsKept(reg.manifest, w, w');
    hide WorkersOk, Begun;
    assert AllArriveOnce(w') by {
      forall i | 0 <= i < |w'.rows.objects|
        ensures ArrivesOnce(w', i)
      {
        assert ArrivesOnce(w, i);
      }
    }
    assert forall i :: 0 <= i < |w.rows.files| && w.rows.files[i].status == FileVerified ==> Backed(reg, w, i);
  }

  lemma ReadKeeps(reg: Registry, w: World, w': World, k: nat)
    requires Inv(reg, w) && ReadStep(w, w', k)
    ensures Inv(reg, w') && FilesKept(w.rows, w'.rows)
  {
    hide ValidManifest, Fits;
    assert AllArrived(w.rows) by { assert Begun(w); }
    assert WorkerOk(reg.manifest, w.rows, w.workers[k]);
    assert ReadOk(reg.manifest, w.rows, w.rows);
    AllViewsKept(reg.manifest, w, w');
    SameRowsKeep(reg, w, w');
  }

  lemma DropKeeps(reg: Registry, w: World, w': World, k: nat)
    requires Inv(reg, w) && DropStep(w, w', k)
    ensures Inv(reg, w') && FilesKept(w.rows, w'.rows)
  {
    hide ValidManifest, Fits;
    AllViewsKept(reg.manifest, w, w');
    if Begun(w') {
      if j :| 0 <= j < |w'.workers| && !w'.workers[j].Idle? {
        assert !w.workers[j].Idle?;
      }
      assert Begun(w);
    }
    SameRowsKeep(reg, w, w');
  }

  /** A file that passed gets the manifest's values, and keeps them if it had them. */
  lemma RecordedFile(file: ManifestFile, read: FileRow, row: FileRow, measured: Measured)
    requires measured == Measured(file.size, file.digest) && FileHonest(file, read) && FileHonest(file, row)
    requires read.status == FileVerified ==> row == read
    ensures VerifiedFile(read, row, measured) == FileRow(FileVerified, Some(file.size), Some(file.digest))
    ensures row.status == FileVerified ==> VerifiedFile(read, row, measured) == row
  {
  }

  /** An object that passed is stored and fits, and its files measure what the manifest says. */
  lemma PassedAreStored(reg: Registry, w: World, answers: seq<Answer>, i: nat)
    requires Honest(reg, w, answers) && i < |reg.manifest.files|
    requires Carrier(reg.manifest, i) < PassedPrefix(reg, answers, 0)
    ensures var k := Carrier(reg.manifest, i); k in w.stored && Fits(reg, k, w.stored[k])
    ensures MeasuredAt(reg, answers, i) == Measured(reg.manifest.files[i].size, reg.manifest.files[i].digest)
  {
    FitMeasures(reg, answers, i);
    UnfitIfUnreadable(reg, Carrier(reg.manifest, i));
    hide Carrier, Fits, MeasuredAt;
  }

  lemma UnfitIfUnreadable(reg: Registry, k: nat)
    requires k < |reg.manifest.objects|
    ensures !Fits(reg, k, Unreadable)
  {
  }

  lemma CommittedFile(reg: Registry, w: World, w': World, k: nat, answers: seq<Answer>, i: nat)
    requires Inv(reg, w) && CommitStep(reg, w, w', k, answers) && i < |w.rows.files|
    ensures i < |w'.rows.files| && i < |reg.manifest.files|
    ensures FileHonest(reg.manifest.files[i], w'.rows.files[i])
    ensures w.rows.files[i].status == FileVerified ==> w'.rows.files[i] == w.rows.files[i]
    ensures Carrier(reg.manifest, i) < PassedPrefix(reg, answers, 0) ==> w'.rows.files[i].status == FileVerified
    ensures w'.rows.files[i].status == FileVerified && w.rows.files[i].status != FileVerified ==>
      var c := Carrier(reg.manifest, i); c < |answers| && c in w.stored && Fits(reg, c, w.stored[c])
  {
    hide ValidManifest, Fits, Carrier, MeasuredAt, Begun, AllArriveOnce, AttemptsCounted, PassedPrefix;
    var read := w.workers[k].read;
    assert WorkerOk(reg.manifest, w.rows, w.workers[k]);
    assert ReadOk(reg.manifest, w.rows, read);
    assert FileHonest(reg.manifest.files[i], w.rows.files[i]) && FileHonest(reg.manifest.files[i], read.files[i]);
    if Carrier(reg.manifest, i) < PassedPrefix(reg, answers, 0) {
      PassedAreStored(reg, w, answers, i);
      RecordedFile(reg.manifest.files[i], read.files[i], w.rows.files[i], MeasuredAt(reg, answers, i));
    }
  }

  lemma CommitFilesKeep(reg: Registry, w: World, w': World, k: nat, answers: seq<Answer>)
    requires Inv(reg, w) && CommitStep(reg, w, w', k, answers)
    ensures FilesHonest(reg.manifest, w'.rows) && FilesKept(w.rows, w'.rows)
    ensures w'.rows.status.Complete? ==> AllVerified(w'.rows)
  {
    assert ForManifest(reg.manifest, w'.rows);
    forall i | 0 <= i < |w.rows.files|
      ensures FileHonest(reg.manifest.files[i], w'.rows.files[i])
      ensures w.rows.files[i].status == FileVerified ==> w'.rows.files[i] == w.rows.files[i]
      ensures w'.rows.status.Complete? ==> w'.rows.files[i].status == FileVerified
    {
      CommittedFile(reg, w, w', k, answers, i);
      HasCarrier(reg.manifest, i);
      hide ValidManifest, Fits, Carrier, MarkFiles, MarkObjects, WorkersOk, Begun;
    }
  }

  /** The objects that arrived stay so, and with a worker at work all have. */
  lemma CommitObjectsKeep(reg: Registry, w: World, w': World, k: nat, answers: seq<Answer>)
    requires Inv(reg, w) && CommitStep(reg, w, w', k, answers)
    ensures AllArrived(w.rows) && AllArrived(w'.rows) && |w'.rows.objects| == |w.rows.objects|
    ensures forall i :: 0 <= i < |w.rows.objects| ==> w'.rows.objects[i].uploadId == w.rows.objects[i].uploadId
  {
    hide ValidManifest, Fits, MarkFiles, PassedPrefix, FilesHonest, VerifiedBacked, AllArriveOnce;
    assert Begun(w);
    assert WorkerOk(reg.manifest, w.rows, w.workers[k]);
    assert ReadOk(reg.manifest, w.rows, w.workers[k].read);
  }

  lemma CommitBacked(reg: Registry, w: World, w': World, k: nat, answers: seq<Answer>)
    requires Inv(reg, w) && CommitStep(reg, w, w', k, answers) && AllArrived(w'.rows) && ForManifest(reg.manifest, w'.rows)
    ensures VerifiedBacked(reg, w')
  {
    forall i | 0 <= i < |w'.rows.files| && w'.rows.files[i].status == FileVerified
      ensures Backed(reg, w', i)
    {
      CommittedFile(reg, w, w', k, answers, i);
      hide ValidManifest, Fits, Carrier, MarkFiles, MarkObjects, WorkersOk, Begun, PassedPrefix;
      if w.rows.files[i].status == FileVerified {
        assert Backed(reg, w, i);
      }
    }
  }

  lemma CommitKeeps(reg: Registry, w: World, w': World, k: nat, answers: seq<Answer>)
    requires Inv(reg, w) && CommitStep(reg, w, w', k, answers)
    ensures Inv(reg, w') && FilesKept(w.rows, w'.rows)
  {
    CommitFilesKeep(reg, w, w', k, answers);
    CommitObjectsKeep(reg, w, w', k, answers);
    CommitBacked(reg, w, w', k, answers);
    hide ValidManifest, Fits, MarkFiles, MarkObjects, PassedPrefix, FilesHonest, VerifiedBacked, AllVerified, Begun, FilesKept;
    assert ForManifest(reg.manifest, w'.rows);
    AllViewsKept(reg.manifest, w, w');
    forall i | 0 <= i < |w'.rows.objects|
      ensures ArrivesOnce(w', i)
    {
      assert ArrivesOnce(w, i);
    }
  }

  lemma InitiateKeeps(reg: Registry, w: World, w': World, item: nat, uploadId: nat)
    requires Inv(reg, w) && InitiateStep(w, w', item, uploadId)
    ensures Inv(reg, w') && FilesKept(w.rows, w'.rows)
  {
    hide ValidManifest, Fits;
    assert ArrivesOnce(w, item);
    assert !Arrived(w.rows.objects[item]);
    assert !Begun(w);
    AllViewsKept(reg.manifest, w, w');
    hide WorkersOk;
    assert AllArriveOnce(w') by {
      forall i | 0 <= i < |w'.rows.objects|
        ensures ArrivesOnce(w', i)
      {
        assert ArrivesOnce(w, i);
      }
    }
    assert forall i :: 0 <= i < |w.rows.files| && w.rows.files[i].status == FileVerified ==> Backed(reg, w, i);
  }

  lemma StoreKeeps(reg: Registry, w: World, w': World, item: nat, content: Answer)
    requires Inv(reg, w) && StoreStep(w, w', item, content)
    ensures Inv(reg, w') && FilesKept(w.rows, w'.rows)
  {
    hide ValidManifest, Fits;
    assert ArrivesOnce(w, item);
    assert item !in w.stored && !Arrived(w.rows.objects[item]);
    AllViewsKept(reg.manifest, w, w');
    hide WorkersOk;
    assert AllArriveOnce(w') by {
      forall i | 0 <= i < |w'.rows.objects|
        ensures ArrivesOnce(w', i)
      {
        assert ArrivesOnce(w, i);
      }
    }
    assert Begun(w') ==> Begun(w);
    hide Begun;
    assert forall i :: 0 <= i < |w.rows.files| && w.rows.files[i].status == FileVerified ==> Backed(reg, w, i);
  }

  lemma UploadedKeeps(reg: Registry, w: World, w': World, item: nat)
    requires Inv(reg, w) && UploadedStep(reg, w, w', item)
    ensures Inv(reg, w') && FilesKept(w.rows, w'.rows)
  {
    hide ValidManifest, Fits, Carrier;
    assert ArrivesOnce(w, item);
    assert !Arrived(w.rows.objects[item]);
    assert !Begun(w) && !Begun(w');
    forall i | 0 <= i < |w.rows.files|
      ensures w.rows.files[i].status == FileVerified ==> w'.rows.files[i] == w.rows.files[i]
      ensures FileHonest(reg.manifest.files[i], w'.rows.files[i])
      ensures w'.rows.files[i].status == FileVerified ==> Backed(reg, w', i)
    {
      assert FileHonest(reg.manifest.files[i], w.rows.files[i]);
      assert w.rows.files[i].status == FileVerified ==> Backed(reg, w, i);
    }
    assert FilesKept(w.rows, w'.rows) && FilesHonest(reg.manifest, w'.rows) && VerifiedBacked(reg, w');
    AllViewsKept(reg.manifest, w, w');
    hide WorkersOk, Begun, FilesHonest, VerifiedBacked;
    assert AllArriveOnce(w') by {
      forall i | 0 <= i < |w'.rows.objects|
        ensures ArrivesOnce(w', i)
      {
        assert ArrivesOnce(w, i);
      }
    }
  }

  lemma FinalizeKeeps(reg: Registry, w: World, w': World)
    requires Inv(reg, w)
    requires FinalizeReadStep(w, w') || FinalizeCommitStep(w, w') || FinalizeDropStep(w, w') || RetryStep(w, w')
    ensures Inv(reg, w') && FilesKept(w.rows, w'.rows)
  {
    hide ValidManifest, Fits;
    if FinalizeReadStep(w, w') {
      assert AllArrived(w.rows);
    } else {
      assert Begun(w);
    }
    AllViewsKept(reg.manifest, w, w');
    SameRowsKeep(reg, w, w');
  }

  lemma LostKeeps(reg: Registry, w: World, w': World, item: nat)
    requires Inv(reg, w) && (LostStep(w, w', item) || TickStep(w, w') || AbortStep(w, w', item) || RemoveStep(w, w', item))
    ensures Inv(reg, w') && FilesKept(w.rows, w'.rows)
  {
    hide ValidManifest, Fits;
    assert Begun(w') ==> Begun(w);
    AllViewsKept(reg.manifest, w, w');
    SameRowsKeep(reg, w, w');
  }

  /** Every step keeps the invariant, and no step changes a verified file. */
  lemma StepKeeps(reg: Registry, w: World, w': World)
    requires Inv(reg, w) && Step(reg, w, w')
    ensures Inv(reg, w') && FilesKept(w.rows, w'.rows)
  {
    hide Inv, FilesKept, ClaimStep, ReadStep, CommitStep, DropStep, InitiateStep, StoreStep, UploadedStep, LostStep,
         FinalizeReadStep, FinalizeCommitStep, FinalizeDropStep, RetryStep, AbortStep, RemoveStep, TickStep;
    if k :| ClaimStep(reg, w, w', k) {
      ClaimKeeps(reg, w, w', k);
    } else if k :| ReadStep(w, w', k) {
      ReadKeeps(reg, w, w', k);
    } else if k, answers :| CommitStep(reg, w, w', k, answers) {
      CommitKeeps(reg, w, w', k, answers);
    } else if k :| DropStep(w, w', k) {
      DropKeeps(reg, w, w', k);
    } else if item, uploadId :| InitiateStep(w, w', item, uploadId) {
      InitiateKeeps(reg, w, w', item, uploadId);
    } else if item, content :| StoreStep(w, w', item, content) {
      StoreKeeps(reg, w, w', item, content);
    } else if item :| UploadedStep(reg, w, w', item) {
      UploadedKeeps(reg, w, w', item);
    } else if item :| LostStep(w, w', item) {
      LostKeeps(reg, w, w', item);
    } else if item :| AbortStep(w, w', item) {
      LostKeeps(reg, w, w', item);
    } else if item :| RemoveStep(w, w', item) {
      LostKeeps(reg, w, w', item);
    } else if TickStep(w, w') {
      LostKeeps(reg, w, w', 0);
    } else {
      FinalizeKeeps(reg, w, w');
    }
  }

  // ---- Runs ----

  ghost predicate StepAt(reg: Registry, trace: seq<World>, i: nat)
    requires i + 1 < |trace|
  {
    Step(reg, trace[i], trace[i + 1])
  }

  ghost predicate Steps(reg: Registry, trace: seq<World>) {
    0 < |trace| && forall i :: 0 <= i < |trace| - 1 ==> StepAt(reg, trace, i)
  }

  ghost predicate Run(reg: Registry, trace: seq<World>) {
    Steps(reg, trace) && Init(reg, trace[0])
  }

  lemma {:induction false} RunInv(reg: Registry, trace: seq<World>, k: nat)
    requires Run(reg, trace) && k < |trace|
    ensures Inv(reg, trace[k])
  {
    hide Inv, Step, Init;
    if k == 0 {
      InitInv(reg, trace[0]);
    } else {
      RunInv(reg, trace, k - 1);
      assert StepAt(reg, trace, k - 1);
      StepKeeps(reg, trace[k - 1], trace[k]);
    }
  }

  /** The bytes that the store was given for every object are what the manifest says of its files. */
  ghost predicate AllFit(reg: Registry, w: World) {
    forall k :: 0 <= k < |reg.manifest.objects| ==> k in w.stored && Fits(reg, k, w.stored[k])
  }

  /** In a complete transfer every object was verified through one of its files. */
  lemma CompleteFits(reg: Registry, w: World)
    requires Inv(reg, w) && w.rows.status.Complete?
    ensures AllFit(reg, w)
  {
    forall k | 0 <= k < |reg.manifest.objects|
      ensures k in w.stored && Fits(reg, k, w.stored[k])
    {
      var i := CarriesSome(reg.manifest, k);
      hide ValidManifest, Fits, Carrier;
      assert Backed(reg, w, i);
    }
  }

  /** At every moment of every run the attempt count is the number of attempt rows and within the
      maximum. In a complete transfer the sizes and digests measured are the manifest's, and the
      bytes stored for every object are what the manifest says; they are still there unless a
      delete has removed them. */
  lemma RunSafe(reg: Registry, trace: seq<World>, k: nat)
    requires Run(reg, trace) && k < |trace|
    ensures var m, rows := reg.manifest, trace[k].rows;
      && rows.attemptCount == |rows.attempts| <= reg.settings.maxAttempts
      && |rows.files| == |m.files|
      && (rows.status.Complete? ==>
            && (forall i :: 0 <= i < |m.files| ==>
                  rows.files[i].verifiedSize == Some(m.files[i].size) && rows.files[i].verifiedDigest == Some(m.files[i].digest))
            && AllFit(reg, trace[k]))
  {
    RunInv(reg, trace, k);
    if trace[k].rows.status.Complete? {
      CompleteFits(reg, trace[k]);
    }
    hide ValidManifest, Fits, AllFit, Steps;
    assert forall i :: 0 <= i < |trace[k].rows.files| ==> FileHonest(reg.manifest.files[i], trace[k].rows.files[i]);
  }

  /** A verified file is never touched again, however long the run. */
  lemma {:induction false} VerifiedForever(reg: Registry, trace: seq<World>, j: nat, k: nat)
    requires Run(reg, trace) && j <= k < |trace|
    ensures FilesKept(trace[j].rows, trace[k].rows)
    decreases k - j
  {
    hide Inv, Step, Init;
    if j == k {
    } else {
      VerifiedForever(reg, trace, j, k - 1);
      RunInv(reg, trace, k - 1);
      assert StepAt(reg, trace, k - 1);
      StepKeeps(reg, trace[k - 1], trace[k]);
    }
  }

  ghost predicate Claims(reg: Registry, w: World, w': World) {
    exists k :: ClaimStep(reg, w, w', k)
  }

  /** Only a claim moves the attempt count, and it moves it by one. */
  lemma StepCounts(reg: Registry, w: World, w': World)
    requires Step(reg, w, w')
    ensures w'.rows.attemptCount == w.rows.attemptCount + if Claims(reg, w, w') then 1 else 0
  {
    if !Claims(reg, w, w') && w'.rows.attemptCount != w.rows.attemptCount {
      assert false;
    }
  }

  ghost function ClaimCount(reg: Registry, trace: seq<World>, k: nat): nat
    requires k < |trace|
  {
    if k == 0 then 0
    else ClaimCount(reg, trace, k - 1) + if Claims(reg, trace[k - 1], trace[k]) then 1 else 0
  }

  /** No run makes more claims than the maximum number of attempts. */
  lemma {:induction false} ClaimsBounded(reg: Registry, trace: seq<World>, k: nat)
    requires Run(reg, trace) && k < |trace|
    ensures ClaimCount(reg, trace, k) == trace[k].rows.attemptCount <= reg.settings.maxAttempts
  {
    RunInv(reg, trace, k);
    hide Step, Claims, ValidManifest;
    if k == 0 {
    } else {
      ClaimsBounded(reg, trace, k - 1);
      assert StepAt(reg, trace, k - 1);
      StepCounts(reg, trace[k - 1], trace[k]);
    }
  }

  // ---- When completion is final ----

  /** Every continuation ends complete. */
  ghost predicate Final(reg: Registry, w: World) {
    forall trace: seq<World> :: Steps(reg, trace) && trace[0] == w ==> trace[|trace| - 1].rows.status.Complete?
  }

  /** What a worker commits that can open no object. */
  function FailureVerdict(settings: Settings, read: Rows): TransferStatus {
    if read.attemptCount >= settings.maxAttempts then Failed else Finalizing
  }

  /** An idle worker, or one that read the very status that its failure would set: a session does
      not write a column that it leaves as it read it. */
  predicate Harmless(settings: Settings, worker: Worker) {
    worker.Idle? || (worker.Reading? && worker.read.status == FailureVerdict(settings, worker.read))
  }

  predicate Settled(reg: Registry, w: World) {
    && w.finalizing == 0
    && (reg.manifest.objects == [] || forall k :: 0 <= k < |w.workers| ==> Harmless(reg.settings, w.workers[k]))
  }

  /** With every stored object as it should be, only an error of the store can fail an attempt. */
  lemma CommittedStatus(reg: Registry, w: World, read: Rows, answers: seq<Answer>)
    requires AllFit(reg, w) && Honest(reg, w, answers)
    ensures Verdict(reg.settings, read, answers, PassedPrefix(reg, answers, 0)) ==
      if PassedPrefix(reg, answers, 0) == |answers| then Complete else FailureVerdict(reg.settings, read)
  {
    hide Fits;
  }

  lemma CommitStays(reg: Registry, w: World, w': World, k: nat, answers: seq<Answer>)
    requires AllFit(reg, w) && w.rows.status.Complete? && Settled(reg, w) && CommitStep(reg, w, w', k, answers)
    ensures w'.rows.status.Complete? && Settled(reg, w')
  {
    CommittedStatus(reg, w, w.workers[k].read, answers);
    assert PassedPrefix(reg, answers, 0) <= |answers|;
    hide Fits, AllFit, Honest, PassedPrefix, Verdict;
  }

  lemma SettledStays(reg: Registry, w: World, w': World)
    requires AllFit(reg, w) && Step(reg, w, w') && w.rows.status.Complete? && Settled(reg, w)
    ensures w'.rows.status.Complete? && Settled(reg, w')
  {
    hide AllFit, CommitStep;
    if k: nat, answers :| CommitStep(reg, w, w', k, answers) {
      CommitStays(reg, w, w', k, answers);
    }
  }

  lemma {:induction false} SettledForever(reg: Registry, trace: seq<World>, k: nat)
    requires Steps(reg, trace) && k < |trace|
    requires Inv(reg, trace[0]) && trace[0].rows.status.Complete? && Settled(reg, trace[0])
    ensures Inv(reg, trace[k]) && trace[k].rows.status.Complete? && Settled(reg, trace[k])
  {
    hide Inv, Step, Settled;
    if k == 0 {
    } else {
      SettledForever(reg, trace, k - 1);
      assert StepAt(reg, trace, k - 1);
      StepKeeps(reg, trace[k - 1], trace[k]);
      CompleteFits(reg, trace[k - 1]);
      SettledStays(reg, trace[k - 1], trace[k]);
    }
  }

  /** A worker that read anything else commits the failure of an error. */
  lemma LateCommitUndoes(reg: Registry, w: World, k: nat) returns (w': World)
    requires Inv(reg, w) && w.rows.status.Complete? && reg.manifest.objects != []
    requires k < |w.workers| && w.workers[k].Reading? && !Harmless(reg.settings, w.workers[k])
    ensures Step(reg, w, w') && !w'.rows.status.Complete?
  {
    hide ValidManifest, Fits;
    var read, answers := w.workers[k].read, seq(|reg.manifest.objects|, _ => Unreadable);
    assert WorkerOk(reg.manifest, w.rows, w.workers[k]);
    assert ReadOk(reg.manifest, w.rows, read);
    UnfitIfUnreadable(reg, 0);
    assert PassedPrefix(reg, answers, 0) == 0;
    w' := w.(rows := Committed(reg, read, w.rows, w.workers[k].attempt, answers), workers := w.workers[k := Idle]);
    assert CommitStep(reg, w, w', k, answers);
  }

  lemma Undone(reg: Registry, trace: seq<World>)
    requires Steps(reg, trace) && !trace[|trace| - 1].rows.status.Complete?
    ensures !Final(reg, trace[0])
  {
  }

  lemma UnsettledNotFinal(reg: Registry, w: World)
    requires Inv(reg, w) && w.rows.status.Complete? && !Settled(reg, w)
    ensures !Final(reg, w)
  {
    hide Inv, Final, Step;
    if 0 < w.finalizing {
      var w' := w.(rows := w.rows.(status := Finalizing), finalizing := w.finalizing - 1);
      OtherIsStep(reg, w, w');
      Undone(reg, [w, w']);
    } else {
      var k :| 0 <= k < |w.workers| && !Harmless(reg.settings, w.workers[k]);
      if w.workers[k].Reading? {
        var w' := LateCommitUndoes(reg, w, k);
        Undone(reg, [w, w']);
      } else {
        var reading := w.(workers := w.workers[k := Reading(w.workers[k].attempt, w.rows)]);
        ReadIsStep(reg, w, reading, k);
        StepKeeps(reg, w, reading);
        var w' := LateCommitUndoes(reg, reading, k);
        var trace := [w, reading, w'];
        assert Steps(reg, trace) by {
          assert StepAt(reg, trace, 0) && StepAt(reg, trace, 1);
        }
        Undone(reg, trace);
      }
    }
  }

  /** A complete transfer stays complete whatever follows, exactly when no finalize request is
      half-done and no worker can still commit a failure. */
  lemma CompletionFinalExactly(reg: Registry, w: World)
    requires Inv(reg, w) && w.rows.status.Complete?
    ensures Final(reg, w) <==> Settled(reg, w)
  {
    hide Inv, Step, Settled;
    if Settled(reg, w) {
      forall trace: seq<World> | Steps(reg, trace) && trace[0] == w
        ensures trace[|trace| - 1].rows.status.Complete?
      {
        SettledForever(reg, trace, |trace| - 1);
      }
    } else {
      UnsettledNotFinal(reg, w);
    }
  }

  lemma OneWorkerIdle(reg: Registry, w: World, w': World)
    requires Step(reg, w, w') && |w.workers| == 1
    requires w.rows.status.Complete? ==> w.workers[0].Idle?
    ensures |w'.workers| == 1
    ensures w'.rows.status.Complete? ==> w'.workers[0].Idle?
  {
    hide PassedPrefix;
  }

  lemma {:induction false} OneWorkerRun(reg: Registry, trace: seq<World>, k: nat)
    requires Run(reg, trace) && |trace[0].workers| == 1 && k < |trace|
    ensures |trace[k].workers| == 1
    ensures trace[k].rows.status.Complete? ==> trace[k].workers[0].Idle?
  {
    hide Step, ValidManifest;
    if k == 0 {
    } else {
      OneWorkerRun(reg, trace, k - 1);
      assert StepAt(reg, trace, k - 1);
      OneWorkerIdle(reg, trace[k - 1], trace[k]);
    }
  }

  /** With one worker, completion is final exactly when no finalize request is half-done. */
  lemma OneWorkerFinalExactly(reg: Registry, trace: seq<World>, k: nat)
    requires Run(reg, trace) && |trace[0].workers| == 1 && k < |trace| && trace[k].rows.status.Complete?
    ensures Final(reg, trace[k]) <==> trace[k].finalizing == 0
  {
    hide Inv, Run, Final;
    OneWorkerRun(reg, trace, k);
    RunInv(reg, trace, k);
    CompletionFinalExactly(reg, trace[k]);
  }
}
