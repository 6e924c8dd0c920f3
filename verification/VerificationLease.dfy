/** What the lease and the attempts are for: when a transfer under verification is handed out again,
    and how an attempt ends. */
module VerificationLease {
  import opened Common
  import opened Manifest
  import opened Verification
  import opened VerificationRuns

  /** The transfer is handed to a worker between worlds `i` and `i + 1`. */
  ghost predicate HandedOut(trace: seq<World>, i: nat) {
    i + 1 < |trace| && trace[i].rows.attemptCount < trace[i + 1].rows.attemptCount
  }

  ghost predicate VerifyingFrom(trace: seq<World>, i: nat, k: nat)
    requires k < |trace|
  {
    forall m :: i <= m <= k ==> trace[m].rows.status == Verifying
  }

  lemma HandOut(reg: Registry, w: World, w': World)
    requires Step(reg, w, w') && w.rows.attemptCount < w'.rows.attemptCount
    ensures w.rows.status in {Finalizing, Verifying} && w.rows.attemptCount < reg.settings.maxAttempts
    ensures w.rows.status == Verifying ==>
      w.rows.startedAt.Some? && w.rows.startedAt.value + reg.settings.leaseSeconds < w.now
    ensures w'.rows.status == Verifying && w'.rows.startedAt == Some(w.now)
  {
    StepCounts(reg, w, w');
    hide Step;
    var k :| ClaimStep(reg, w, w', k);
  }

  /** Time does not go back, and nothing but a hand-out changes the start of a verification. */
  lemma StartKept(reg: Registry, w: World, w': World)
    requires Step(reg, w, w')
    ensures w.now <= w'.now
    ensures w.rows.status == Verifying && w.rows.attemptCount == w'.rows.attemptCount ==> w'.rows.startedAt == w.rows.startedAt
  {
    hide PassedPrefix, Verdict, MarkFiles, MarkObjects;
  }

  /** While the transfer stays under verification, its start is that of the last hand-out. */
  lemma {:induction false} StartIsHandOut(reg: Registry, trace: seq<World>, i: nat, k: nat)
    requires Run(reg, trace) && i < k < |trace| && HandedOut(trace, i) && VerifyingFrom(trace, i + 1, k)
    ensures trace[k].rows.startedAt.Some? && trace[i].now <= trace[k].rows.startedAt.value && trace[i].now <= trace[k].now
    ensures (forall m :: i < m < k ==> !HandedOut(trace, m)) ==> trace[k].rows.startedAt == Some(trace[i].now)
    decreases k
  {
    hide Step, Init;
    assert StepAt(reg, trace, k - 1);
    StartKept(reg, trace[k - 1], trace[k]);
    if k == i + 1 {
      HandOut(reg, trace[i], trace[i + 1]);
    } else {
      StartIsHandOut(reg, trace, i, k - 1);
      StepCounts(reg, trace[k - 1], trace[k]);
      if HandedOut(trace, k - 1) {
        HandOut(reg, trace[k - 1], trace[k]);
      }
    }
  }

  /** A transfer that stays under verification is handed out again only after the lease of the
      earlier hand-out. */
  lemma LeaseRespected(reg: Registry, trace: seq<World>, i: nat, j: nat)
    requires Run(reg, trace) && i < j && HandedOut(trace, i) && HandedOut(trace, j) && VerifyingFrom(trace, i + 1, j)
    ensures trace[i].now + reg.settings.leaseSeconds < trace[j].now
  {
    StartIsHandOut(reg, trace, i, j);
    hide Step, Init;
    assert StepAt(reg, trace, j);
    HandOut(reg, trace[j], trace[j + 1]);
  }

  ghost predicate CanBeHandedOut(reg: Registry, w: World) {
    exists w' :: Step(reg, w, w') && w.rows.attemptCount < w'.rows.attemptCount
  }

  lemma HandsOut(reg: Registry, w: World, k: nat)
    requires k < |w.workers| && w.workers[k].Idle? && w.rows.attemptCount < reg.settings.maxAttempts
    requires w.rows.status == Finalizing
      || (w.rows.status == Verifying && w.rows.startedAt.Some? && w.rows.startedAt.value + reg.settings.leaseSeconds < w.now)
    ensures CanBeHandedOut(reg, w)
  {
    var w' := w.(rows := Claimed(w.rows, w.now), workers := w.workers[k := Holding(|w.rows.attempts|)]);
    ClaimIsStep(reg, w, w', k);
    hide Step;
  }

  /** With attempts left and a worker idle, a transfer under verification can be handed out again
      exactly when the lease of its last hand-out is over. */
  lemma LeaseExactly(reg: Registry, trace: seq<World>, i: nat, k: nat, worker: nat)
    requires Run(reg, trace) && i < k < |trace| && HandedOut(trace, i) && VerifyingFrom(trace, i + 1, k)
    requires forall m :: i < m < k ==> !HandedOut(trace, m)
    requires trace[k].rows.attemptCount < reg.settings.maxAttempts
    requires worker < |trace[k].workers| && trace[k].workers[worker].Idle?
    ensures CanBeHandedOut(reg, trace[k]) <==> trace[i].now + reg.settings.leaseSeconds < trace[k].now
  {
    StartIsHandOut(reg, trace, i, k);
    hide Step, Run;
    if CanBeHandedOut(reg, trace[k]) {
      var w' :| Step(reg, trace[k], w') && trace[k].rows.attemptCount < w'.rows.attemptCount;
      HandOut(reg, trace[k], w');
    }
    if trace[i].now + reg.settings.leaseSeconds < trace[k].now {
      HandsOut(reg, trace[k], worker);
    }
  }

  /** A finalized transfer can be handed out as long as attempts are left, and one in any other
      state than these two cannot. */
  lemma StatesHandedOut(reg: Registry, w: World, worker: nat)
    requires worker < |w.workers| && w.workers[worker].Idle? && w.rows.status != Verifying
    ensures CanBeHandedOut(reg, w) <==> w.rows.status == Finalizing && w.rows.attemptCount < reg.settings.maxAttempts
  {
    hide Step;
    if CanBeHandedOut(reg, w) {
      var w' :| Step(reg, w, w') && w.rows.attemptCount < w'.rows.attemptCount;
      HandOut(reg, w, w');
    }
    if w.rows.status == Finalizing && w.rows.attemptCount < reg.settings.maxAttempts {
      HandsOut(reg, w, worker);
    }
  }

  /** The code's claim at such a moment succeeds exactly when the lease is over. */
  method ClaimAgain(reg: Registry, tables: RegistryTables, now: nat, ghost trace: seq<World>, ghost i: nat, ghost k: nat)
    returns (claim: Option<nat>)
    requires Run(reg, trace) && i < k < |trace| && HandedOut(trace, i) && VerifyingFrom(trace, i + 1, k)
    requires forall m :: i < m < k ==> !HandedOut(trace, m)
    requires trace[k].rows.attemptCount < reg.settings.maxAttempts
    requires tables.Abs() == trace[k].rows && now == trace[k].now
    modifies tables
    ensures claim.Some? <==> trace[i].now + reg.settings.leaseSeconds < now
    ensures claim.Some? ==> tables.attemptCount == old(tables.attemptCount) + 1 && tables.startedAt == Some(now)
    ensures claim.None? ==> tables.Abs() == old(tables.Abs())
  {
    StartIsHandOut(reg, trace, i, k);
    hide Run;
    claim := tables.ClaimTransfer(reg.settings, now);
  }

  // ---- How an attempt ends ----

  /** The first `k` objects open and fit, and the next one, if there is one, does not. */
  ghost predicate StopsAt(reg: Registry, answers: seq<Answer>, k: nat) {
    && k <= |answers| == |reg.manifest.objects|
    && (forall i :: 0 <= i < k ==> Fits(reg, i, answers[i]))
    && (k < |answers| ==> !Fits(reg, k, answers[k]))
  }

  /** When every object fits, the attempt succeeds and the transfer is complete. Bytes that do not
      fit fail both for good. An error of the store fails them on the last attempt, and otherwise
      leaves the transfer to be tried again. */
  lemma AttemptEnds(reg: Registry, w: World, w': World, worker: nat, answers: seq<Answer>, k: nat)
    requires CommitStep(reg, w, w', worker, answers) && StopsAt(reg, answers, k)
    requires w.workers[worker].read.status == Verifying
    ensures var read, attempt := w.workers[worker].read, w'.rows.attempts[w.workers[worker].attempt].status;
      if k == |answers| then attempt == Succeeded && w'.rows.status == Complete
      else if answers[k] != Unreadable || reg.settings.maxAttempts <= read.attemptCount then
        attempt == AttemptFailed && w'.rows.status == Failed
      else attempt == Retryable && w'.rows.status == Finalizing
  {
    PassedPrefixIs(reg, answers, 0, k);
    hide Fits, MarkFiles, MarkObjects, PassedPrefix, Honest;
  }

  /** The files of the objects that fit are verified, even when a later object fails the attempt. */
  lemma FittingFilesKept(reg: Registry, w: World, w': World, worker: nat, answers: seq<Answer>, k: nat, i: nat)
    requires Inv(reg, w) && CommitStep(reg, w, w', worker, answers) && StopsAt(reg, answers, k)
    requires i < |reg.manifest.files| && Carrier(reg.manifest, i) < k
    ensures i < |w'.rows.files| && w'.rows.files[i].status == FileVerified
    ensures w'.rows.files[i].verifiedSize == Some(reg.manifest.files[i].size)
    ensures w'.rows.files[i].verifiedDigest == Some(reg.manifest.files[i].digest)
  {
    hide ValidManifest, Fits, MarkFiles, MarkObjects, PassedPrefix, Carrier;
    PassedPrefixIs(reg, answers, 0, k);
    assert i < |w.rows.files|;
    CommittedFile(reg, w, w', worker, answers, i);
  }
}
