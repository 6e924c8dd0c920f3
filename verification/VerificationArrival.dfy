/** What the client may rely on while its files arrive: when a transfer can be finalized, and when a
    failed one can be retried. */
module VerificationArrival {
  import opened Common
  import opened Manifest
  import opened Verification
  import opened VerificationRuns

  /** A file is pending as long as its object has not arrived. */
  ghost predicate FileFollows(m: TransferManifest, rows: Rows, i: nat)
    requires i < |m.files| == |rows.files|
  {
    var k := Carrier(m, i);
    k < |rows.objects| && (rows.files[i].status == FilePending <==> !Arrived(rows.objects[k]))
  }

  /** Before the first claim no object is verified. */
  ghost predicate Unverified(rows: Rows) {
    rows.status.Ready? ==> rows.attempts == [] && forall i :: 0 <= i < |rows.objects| ==> rows.objects[i].status != ObjectVerified
  }

  ghost predicate Follows(m: TransferManifest, rows: Rows) {
    && ForManifest(m, rows) && Unverified(rows)
    && forall i :: 0 <= i < |rows.files| ==> FileFollows(m, rows, i)
  }

  lemma SubmittedFollows(m: TransferManifest)
    requires ValidManifest(m)
    ensures Follows(m, Submitted(m))
  {
    forall i | 0 <= i < |m.files|
      ensures FileFollows(m, Submitted(m), i)
    {
      HasCarrier(m, i);
      hide ValidManifest;
    }
  }

  lemma CommitFollows(reg: Registry, w: World, w': World, k: nat, answers: seq<Answer>)
    requires Inv(reg, w) && Follows(reg.manifest, w.rows) && CommitStep(reg, w, w', k, answers)
    ensures Follows(reg.manifest, w'.rows)
  {
    CommitObjectsKeep(reg, w, w', k, answers);
    assert WorkerOk(reg.manifest, w.rows, w.workers[k]);
    assert ReadOk(reg.manifest, w.rows, w.workers[k].read);
    hide ValidManifest, Inv, Fits, PassedPrefix, Carrier, MeasuredAt;
    forall i | 0 <= i < |w'.rows.files|
      ensures FileFollows(reg.manifest, w'.rows, i)
    {
      assert FileFollows(reg.manifest, w.rows, i);
    }
  }

  lemma UploadedFollows(reg: Registry, w: World, w': World, item: nat)
    requires Inv(reg, w) && Follows(reg.manifest, w.rows) && UploadedStep(reg, w, w', item)
    ensures Follows(reg.manifest, w'.rows)
  {
    hide ValidManifest, Inv, Carrier;
    forall i | 0 <= i < |w'.rows.files|
      ensures FileFollows(reg.manifest, w'.rows, i)
    {
      assert FileFollows(reg.manifest, w.rows, i);
    }
  }

  lemma InitiateFollows(reg: Registry, w: World, w': World, item: nat, uploadId: nat)
    requires Inv(reg, w) && Follows(reg.manifest, w.rows) && InitiateStep(w, w', item, uploadId)
    ensures Follows(reg.manifest, w'.rows)
  {
    assert ArrivesOnce(w, item);
    hide ValidManifest, Inv, Carrier;
    assert !Arrived(w.rows.objects[item]) && !Arrived(w'.rows.objects[item]);
    forall i | 0 <= i < |w'.rows.files|
      ensures FileFollows(reg.manifest, w'.rows, i)
    {
      assert FileFollows(reg.manifest, w.rows, i);
    }
  }

  /** The other steps leave files and objects alone, and none of them makes a transfer ready. */
  lemma SameRowsFollow(m: TransferManifest, rows: Rows, rows': Rows)
    requires Follows(m, rows) && rows'.files == rows.files && rows'.objects == rows.objects
    requires rows'.status.Ready? ==> rows.status.Ready? && rows'.attempts == rows.attempts
    ensures Follows(m, rows')
  {
    hide Carrier;
    forall i | 0 <= i < |rows'.files|
      ensures FileFollows(m, rows', i)
    {
      assert FileFollows(m, rows, i);
    }
  }

  lemma StepFollows(reg: Registry, w: World, w': World)
    requires Inv(reg, w) && Follows(reg.manifest, w.rows) && Step(reg, w, w')
    ensures Follows(reg.manifest, w'.rows)
  {
    hide Inv, Follows, CommitStep, InitiateStep, UploadedStep;
    if k, answers :| CommitStep(reg, w, w', k, answers) {
      CommitFollows(reg, w, w', k, answers);
    } else if item, uploadId :| InitiateStep(w, w', item, uploadId) {
      InitiateFollows(reg, w, w', item, uploadId);
    } else if item :| UploadedStep(reg, w, w', item) {
      UploadedFollows(reg, w, w', item);
    } else {
      SameRowsFollow(reg.manifest, w.rows, w'.rows);
    }
  }

  lemma {:induction false} RunFollows(reg: Registry, trace: seq<World>, k: nat)
    requires Run(reg, trace) && k < |trace|
    ensures Follows(reg.manifest, trace[k].rows)
  {
    hide Inv, Step, Follows, ValidManifest;
    if k == 0 {
      SubmittedFollows(reg.manifest);
    } else {
      RunFollows(reg, trace, k - 1);
      RunInv(reg, trace, k - 1);
      assert StepAt(reg, trace, k - 1);
      StepFollows(reg, trace[k - 1], trace[k]);
    }
  }

  /** At every moment of every run a file is pending exactly until its object arrives. */
  lemma FilesFollowObjects(reg: Registry, trace: seq<World>, k: nat, i: nat)
    requires Run(reg, trace) && k < |trace| && i < |reg.manifest.files|
    ensures var rows, c := trace[k].rows, Carrier(reg.manifest, i);
      && i < |rows.files| && c < |rows.objects|
      && (rows.files[i].status == FilePending <==> rows.objects[c].status !in {ObjectUploaded, ObjectVerified})
  {
    RunFollows(reg, trace, k);
    hide Run, Carrier;
    assert FileFollows(reg.manifest, trace[k].rows, i);
  }

  /** A failed transfer of a run can always be retried, unless it has no files. */
  method RetryInRun(reg: Registry, tables: RegistryTables, ghost trace: seq<World>, ghost k: nat) returns (ok: bool)
    requires Run(reg, trace) && k < |trace| && tables.Abs() == trace[k].rows
    modifies tables
    ensures ok <==> old(tables.status) == Failed && reg.manifest.files != []
    ensures tables.Abs() == if ok then old(tables.Abs()).(status := Finalizing, startedAt := None) else old(tables.Abs())
  {
    NonePendingInFailed(reg, trace, k);
    hide Run, Step;
    ok := tables.RetryFailedTransfer();
  }

  lemma NonePendingInFailed(reg: Registry, trace: seq<World>, k: nat)
    requires Run(reg, trace) && k < |trace|
    ensures |trace[k].rows.files| == |reg.manifest.files|
    ensures !trace[k].rows.status.Ready? ==> forall i :: 0 <= i < |reg.manifest.files| ==> trace[k].rows.files[i].status != FilePending
  {
    RunFollows(reg, trace, k);
    RunInv(reg, trace, k);
    hide Run, ValidManifest, Carrier;
    if !trace[k].rows.status.Ready? {
      assert AllArrived(trace[k].rows) by { assert Begun(trace[k]); }
      forall i | 0 <= i < |reg.manifest.files|
        ensures trace[k].rows.files[i].status != FilePending
      {
        assert FileFollows(reg.manifest, trace[k].rows, i);
      }
    }
  }

  /** A transfer that waits for its files can be finalized exactly when none of them is pending. */
  method FinalizeInRun(reg: Registry, tables: RegistryTables, ghost trace: seq<World>, ghost k: nat) returns (ok: bool)
    requires Run(reg, trace) && k < |trace| && tables.Abs() == trace[k].rows && tables.status == Ready
    modifies tables
    ensures ok <==> forall i :: 0 <= i < |old(tables.files)| ==> old(tables.files[i]).status != FilePending
    ensures tables.Abs() == if ok then old(tables.Abs()).(status := Finalizing) else old(tables.Abs())
  {
    ReadyExactly(reg, trace, k);
    hide Run, Step;
    ok := tables.FinalizeTransfer(tables.Abs());
  }

  lemma ReadyExactly(reg: Registry, trace: seq<World>, k: nat)
    requires Run(reg, trace) && k < |trace| && trace[k].rows.status == Ready
    ensures ReadyToFinalize(trace[k].rows) <==>
      forall i :: 0 <= i < |trace[k].rows.files| ==> trace[k].rows.files[i].status != FilePending
  {
    RunFollows(reg, trace, k);
    var rows := trace[k].rows;
    if forall i :: 0 <= i < |rows.files| ==> rows.files[i].status != FilePending {
      assert ValidManifest(reg.manifest) by { assert Init(reg, trace[0]); }
      forall c | 0 <= c < |rows.objects|
        ensures rows.objects[c].status == ObjectUploaded
      {
        var i := CarriesSome(reg.manifest, c);
        hide Run, ValidManifest, Carrier;
        assert FileFollows(reg.manifest, rows, i);
      }
    } else {
      hide Run, Carrier;
      var i :| 0 <= i < |rows.files| && rows.files[i].status == FilePending;
      assert FileFollows(reg.manifest, rows, i);
    }
  }
}
