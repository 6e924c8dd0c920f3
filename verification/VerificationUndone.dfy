/** Two runs that take a complete transfer back to finalizing, one with two workers, one with a
    single worker and two overlapping finalize requests; and a run that leaves a complete transfer
    without its object. */
module VerificationUndone {
  import opened Common
  import opened Files
  import opened PackFormat
  import opened TransportPlan
  import opened Manifest
  import opened ObjectContents
  import opened Verification
  import opened VerificationRuns

  const ZEROS := "00000000000000000000000000000000"

  /** One empty file, in an object of its own. */
  const EMPTY_FILE: TransferManifest :=
    TransferManifest(1, 0, [ManifestObject(0, FileObject, Uncompressed, 1, 0)], [ManifestFile("a", 0, XxHash3, ZEROS, 0, 0)])

  /** A lease of five minutes, three attempts, and a digest that is always zero. */
  const DEMO: Registry := Registry(Settings(300, 3), ZeroDigest, NoHeader, EMPTY_FILE)

  function ZeroDigest(algorithm: HashAlgorithm, bytes: seq<byte>): string {
    ZEROS
  }

  function NoHeader(bytes: seq<byte>): Option<Header> {
    None
  }

  lemma DemoFiles()
    ensures FilesOf(EMPTY_FILE, 0) == EMPTY_FILE.files && Contiguous(EMPTY_FILE.files)
  {
    assert Filed(EMPTY_FILE.files, 0, 0) == [];
    assert Filed(EMPTY_FILE.files, 0, 1) == EMPTY_FILE.files;
    assert HasIndex(EMPTY_FILE.files, 0) by {
      assert EMPTY_FILE.files[0].memberIndex == 0;
    }
  }

  lemma DemoAccepted()
    ensures ValidManifest(EMPTY_FILE)
  {
    assert "" + ['a'] == "a" && SplitFrom("a", 1, "a") == ["a"];
    assert Split("a") == ["a"];
    assert FieldsOk(EMPTY_FILE.files[0]);
    DemoFiles();
    assert KnownObject(EMPTY_FILE.objects, 0) by {
      assert EMPTY_FILE.objects[0].id == 0;
    }
  }

  lemma DemoFits()
    ensures Fits(DEMO, 0, Content([]))
  {
    DemoFiles();
  }

  // ---- From the accepted manifest to the uploaded object ----

  function Fresh(workers: seq<Worker>): World {
    World(Submitted(EMPTY_FILE), workers, 0, {}, map[], {}, {}, 0)
  }

  /** The rows before verification, with the object in this state. */
  function Receiving(item: ObjectRow, file: FileStatus): Rows {
    Rows(Ready, None, 0, [item], [FileRow(file, None, None)], [])
  }

  function Initiated(workers: seq<Worker>): World {
    World(Receiving(ObjectRow(Some(7), ObjectUploading), FilePending), workers, 0, {}, map[], {}, {}, 0)
  }

  function InStore(workers: seq<Worker>): World {
    World(Receiving(ObjectRow(Some(7), ObjectUploading), FilePending), workers, 0, {0}, map[0 := Content([])], {}, {7}, 0)
  }

  function UploadedRows(): Rows {
    Receiving(ObjectRow(Some(7), ObjectUploaded), FileUploaded)
  }

  /** The object is stored and its completion committed. */
  function Later(rows: Rows, workers: seq<Worker>, finalizing: nat, now: nat): World {
    World(rows, workers, finalizing, {}, map[0 := Content([])], {}, {7}, now)
  }

  function Upload(workers: seq<Worker>): seq<World> {
    [Fresh(workers), Initiated(workers), InStore(workers), Later(UploadedRows(), workers, 0, 0)]
  }

  lemma UploadRuns(workers: seq<Worker>)
    requires forall k :: 0 <= k < |workers| ==> workers[k].Idle?
    ensures Run(DEMO, Upload(workers))
  {
    DemoAccepted();
    hide ValidManifest;
    var trace := Upload(workers);
    assert InitiateStep(trace[0], trace[1], 0, 7);
    assert StoreStep(trace[1], trace[2], 0, Content([]));
    assert UploadedStep(DEMO, trace[2], trace[3], 0);
    assert StepAt(DEMO, trace, 0) && StepAt(DEMO, trace, 1) && StepAt(DEMO, trace, 2);
  }

  lemma Longer(trace: seq<World>, tail: seq<World>)
    requires Run(DEMO, trace) && Steps(DEMO, tail) && tail[0] == trace[|trace| - 1]
    ensures Run(DEMO, trace + tail[1..])
  {
    hide Step, Init;
    var longer := trace + tail[1..];
    forall i | 0 <= i < |longer| - 1
      ensures StepAt(DEMO, longer, i)
    {
      if i < |trace| - 1 {
        assert StepAt(DEMO, trace, i);
      } else {
        assert StepAt(DEMO, tail, i - (|trace| - 1));
      }
    }
  }

  // ---- Verification ----

  /** The transfer before its file is verified. */
  function Waiting(status: TransferStatus, startedAt: Option<nat>, attempts: seq<AttemptRow>): Rows {
    Rows(status, startedAt, |attempts|, [ObjectRow(Some(7), ObjectUploaded)], [FileRow(FileUploaded, None, None)], attempts)
  }

  /** The transfer once its file is verified. */
  function Checked(status: TransferStatus, startedAt: Option<nat>, attempts: seq<AttemptRow>): Rows {
    Rows(status, startedAt, |attempts|, [ObjectRow(Some(7), ObjectVerified)],
         [FileRow(FileVerified, Some(0), Some(ZEROS))], attempts)
  }

  lemma CommitsComplete(startedAt: nat, before: seq<AttemptRow>, attempt: AttemptRow)
    ensures var read := Waiting(Verifying, Some(startedAt), before + [attempt]);
      Committed(DEMO, read, read, |before|, [Content([])])
      == Checked(Complete, Some(startedAt), before + [attempt.(status := Succeeded)])
  {
    var answers := [Content([])];
    DemoFits();
    hide Fits;
    assert PassedPrefix(DEMO, answers, 0) == 1;
    assert MeasuredAt(DEMO, answers, 0) == Measured(0, ZEROS);
    var read := Waiting(Verifying, Some(startedAt), before + [attempt]);
    assert MarkFiles(DEMO, read, read, answers, 1) == [FileRow(FileVerified, Some(0), Some(ZEROS))];
    assert MarkObjects(read, read, 1) == [ObjectRow(Some(7), ObjectVerified)];
    assert (before + [attempt])[|before| := attempt.(status := Succeeded)] == before + [attempt.(status := Succeeded)];
  }

  lemma CommitsRetry(first: AttemptRow, second: AttemptRow)
    ensures Committed(DEMO, Waiting(Verifying, Some(0), [first]), Checked(Complete, Some(301), [first, second]), 0, [Unreadable])
      == Checked(Finalizing, Some(301), [first.(status := Retryable), second])
  {
    var read, rows, answers := Waiting(Verifying, Some(0), [first]), Checked(Complete, Some(301), [first, second]), [Unreadable];
    UnfitIfUnreadable(DEMO, 0);
    hide Fits;
    assert PassedPrefix(DEMO, answers, 0) == 0;
    assert MarkFiles(DEMO, read, rows, answers, 0) == rows.files;
    assert MarkObjects(read, rows, 0) == rows.objects;
  }

  // ---- Two workers ----

  function TwoWorkersTail(): seq<World> {
    var idle := [Idle, Idle];
    var first, second := AttemptRow(1, Running), AttemptRow(2, Running);
    var claimed := Waiting(Verifying, Some(0), [first]);
    var again := Waiting(Verifying, Some(301), [first, second]);
    [Later(UploadedRows(), idle, 0, 0),
     Later(UploadedRows(), idle, 1, 0),
     Later(Waiting(Finalizing, None, []), idle, 0, 0),
     Later(claimed, [Holding(0), Idle], 0, 0),
     Later(claimed, [Reading(0, claimed), Idle], 0, 0),
     Later(claimed, [Reading(0, claimed), Idle], 0, 301),
     Later(again, [Reading(0, claimed), Holding(1)], 0, 301),
     Later(again, [Reading(0, claimed), Reading(1, again)], 0, 301),
     Later(Checked(Complete, Some(301), [first, second.(status := Succeeded)]), [Reading(0, claimed), Idle], 0, 301),
     Later(Checked(Finalizing, Some(301), [first.(status := Retryable), second.(status := Succeeded)]), idle, 0, 301)]
  }

  function TwoWorkers(): seq<World> {
    Upload([Idle, Idle]) + TwoWorkersTail()[1..]
  }

  lemma FirstOfTwoReads()
    ensures forall i :: 0 <= i < 5 ==> StepAt(DEMO, TwoWorkersTail(), i)
  {
    hide Step;
    var t := TwoWorkersTail();
    OtherIsStep(DEMO, t[0], t[1]);
    OtherIsStep(DEMO, t[1], t[2]);
    ClaimIsStep(DEMO, t[2], t[3], 0);
    ReadIsStep(DEMO, t[3], t[4], 0);
    OtherIsStep(DEMO, t[4], t[5]);
  }

  lemma BothOfTwoCommit()
    ensures forall i :: 5 <= i < 9 ==> StepAt(DEMO, TwoWorkersTail(), i)
  {
    hide Step, Committed;
    var t := TwoWorkersTail();
    var first, second := AttemptRow(1, Running), AttemptRow(2, Running);
    ClaimIsStep(DEMO, t[5], t[6], 1);
    ReadIsStep(DEMO, t[6], t[7], 1);
    assert forall other: AttemptRow :: [first] + [other] == [first, other];
    CommitsComplete(301, [first], second);
    CommitIsStep(DEMO, t[7], t[8], 1, [Content([])]);
    CommitsRetry(first, second.(status := Succeeded));
    CommitIsStep(DEMO, t[8], t[9], 0, [Unreadable]);
  }

  /** A worker whose lease ran out commits its storage error after another worker completed the
      transfer: the run starts at the accepted manifest. */
  lemma TwoWorkersUndoCompletion()
    ensures Run(DEMO, TwoWorkers()) && |TwoWorkers()| == 13
    ensures TwoWorkers()[11].rows.status.Complete? && TwoWorkers()[12].rows.status.Finalizing?
  {
    UploadRuns([Idle, Idle]);
    FirstOfTwoReads();
    BothOfTwoCommit();
    hide Run, StepAt;
    Longer(Upload([Idle, Idle]), TwoWorkersTail());
  }

  // ---- One worker ----

  function OneWorkerTail(): seq<World> {
    var idle := [Idle];
    var attempt := AttemptRow(1, Running);
    var claimed := Waiting(Verifying, Some(0), [attempt]);
    [Later(UploadedRows(), idle, 0, 0),
     Later(UploadedRows(), idle, 1, 0),
     Later(UploadedRows(), idle, 2, 0),
     Later(Waiting(Finalizing, None, []), idle, 1, 0),
     Later(claimed, [Holding(0)], 1, 0),
     Later(claimed, [Reading(0, claimed)], 1, 0),
     Later(Checked(Complete, Some(0), [attempt.(status := Succeeded)]), idle, 1, 0),
     Later(Checked(Finalizing, Some(0), [attempt.(status := Succeeded)]), idle, 0, 0)]
  }

  function OneWorker(): seq<World> {
    Upload([Idle]) + OneWorkerTail()[1..]
  }

  lemma OnlyOneReads()
    ensures forall i :: 0 <= i < 5 ==> StepAt(DEMO, OneWorkerTail(), i)
  {
    hide Step;
    var t := OneWorkerTail();
    OtherIsStep(DEMO, t[0], t[1]);
    OtherIsStep(DEMO, t[1], t[2]);
    OtherIsStep(DEMO, t[2], t[3]);
    ClaimIsStep(DEMO, t[3], t[4], 0);
    ReadIsStep(DEMO, t[4], t[5], 0);
  }

  lemma OnlyOneCommits()
    ensures forall i :: 5 <= i < 7 ==> StepAt(DEMO, OneWorkerTail(), i)
  {
    hide Step, Committed;
    var t := OneWorkerTail();
    assert forall attempt: AttemptRow :: [] + [attempt] == [attempt];
    CommitsComplete(0, [], AttemptRow(1, Running));
    CommitIsStep(DEMO, t[5], t[6], 0, [Content([])]);
    OtherIsStep(DEMO, t[6], t[7]);
  }

  /** With a single worker, the second of two overlapping finalize requests commits after the
      transfer is complete. */
  lemma OneWorkerUndoesCompletion()
    ensures Run(DEMO, OneWorker()) && |OneWorker()[0].workers| == 1 && |OneWorker()| == 11
    ensures OneWorker()[9].rows.status.Complete? && OneWorker()[10].rows.status.Finalizing?
  {
    UploadRuns([Idle]);
    OnlyOneReads();
    OnlyOneCommits();
    hide Run, StepAt;
    Longer(Upload([Idle]), OneWorkerTail());
  }

  // ---- A delete that does not get through ----

  function HalfDeleted(): World {
    World(Checked(Complete, Some(0), [AttemptRow(1, Succeeded)]), [Idle], 1, {}, map[0 := Content([])], {0}, {7}, 0)
  }

  lemma RemovesObject()
    ensures Step(DEMO, OneWorkerTail()[6], HalfDeleted())
  {
    hide Step;
    RemoveIsStep(DEMO, OneWorkerTail()[6], HalfDeleted(), 0);
  }

  /** An administrator's delete that fails after it removed an object leaves the transfer complete. */
  lemma DeleteLosesObject()
    ensures var trace := OneWorker()[..10] + [HalfDeleted()];
      && Run(DEMO, trace) && trace[10] == HalfDeleted()
      && trace[10].rows.status.Complete? && 0 in trace[10].stored && 0 in trace[10].removed
  {
    OneWorkerUndoesCompletion();
    RemovesObject();
    hide Step, Init;
    var trace := OneWorker()[..10] + [HalfDeleted()];
    assert OneWorker()[9] == OneWorkerTail()[6];
    forall i | 0 <= i < |trace| - 1
      ensures StepAt(DEMO, trace, i)
    {
      if i < 9 {
        assert StepAt(DEMO, OneWorker(), i);
        assert trace[i] == OneWorker()[i] && trace[i + 1] == OneWorker()[i + 1];
      }
    }
  }
}
