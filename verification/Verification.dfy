/** Registry verification of one transfer: claims under a lease, attempts, the objects read back
    and measured against the manifest, failure and retry. */
module Verification {
  import opened Common
  import opened PackFormat
  import PackCodec
  import opened TransportPlan
  import opened Manifest
  import opened ObjectContents

  datatype FileStatus = FilePending | FileUploaded | FileVerified

  datatype ObjectStatus = ObjectPending | ObjectUploading | ObjectUploaded | ObjectVerified

  datatype TransferStatus = Ready | Finalizing | Verifying | Complete | Failed

  datatype AttemptStatus = Running | Succeeded | AttemptFailed | Retryable

  /** What verification keeps of one file of the manifest. */
  datatype FileRow = FileRow(status: FileStatus, verifiedSize: Option<nat>, verifiedDigest: Option<string>)

  datatype ObjectRow = ObjectRow(uploadId: Option<nat>, status: ObjectStatus)

  datatype AttemptRow = AttemptRow(number: nat, status: AttemptStatus)

  /** The committed rows of one transfer, its objects and files in the manifest's order. */
  datatype Rows = Rows(
    status: TransferStatus,
    startedAt: Option<nat>,
    attemptCount: nat,
    objects: seq<ObjectRow>,
    files: seq<FileRow>,
    attempts: seq<AttemptRow>)

  datatype Settings = Settings(leaseSeconds: nat, maxAttempts: nat)

  /** What stays the same over a transfer's life: settings, digests, the header parser and the
      submitted manifest, which is immutable. */
  datatype Registry = Registry(settings: Settings, hash: Hash, parse: Parser, manifest: TransferManifest)

  /** What the store answers when an object is opened: its bytes, or an error on the way to them. */
  datatype Answer = Unreadable | Content(bytes: seq<byte>)

  // ---- What each operation does to the rows ----

  function Submitted(m: TransferManifest): Rows {
    Rows(Ready, None, 0,
         seq(|m.objects|, _ => ObjectRow(None, ObjectPending)),
         seq(|m.files|, _ => FileRow(FilePending, None, None)), [])
  }

  predicate ForManifest(m: TransferManifest, rows: Rows) {
    |rows.objects| == |m.objects| && |rows.files| == |m.files|
  }

  predicate Claimable(settings: Settings, rows: Rows, now: nat) {
    && rows.attemptCount < settings.maxAttempts
    && (rows.status.Finalizing?
        || (rows.status.Verifying? && rows.startedAt.Some? && rows.startedAt.value + settings.leaseSeconds < now))
  }

  function Claimed(rows: Rows, now: nat): Rows {
    rows.(status := Verifying, startedAt := Some(now), attemptCount := rows.attemptCount + 1,
          attempts := rows.attempts + [AttemptRow(rows.attemptCount + 1, Running)])
  }

  /** A session writes only the columns it changed from what it had read. */
  function Write<T(==)>(read: T, value: T, committed: T): T {
    if value == read then committed else value
  }

  /** The first object from `from` on with this id, or the number of objects. */
  function IndexOf(objects: seq<ManifestObject>, id: ObjectId, from: nat): (k: nat)
    requires from <= |objects|
    ensures from <= k <= |objects|
    ensures k < |objects| ==> objects[k].id == id
    ensures forall j :: from <= j < k ==> objects[j].id != id
    decreases |objects| - from
  {
    if from == |objects| || objects[from].id == id then from else IndexOf(objects, id, from + 1)
  }

  /** The object that carries file `i`. */
  function Carrier(m: TransferManifest, i: nat): (k: nat)
    requires i < |m.files|
    ensures k <= |m.objects|
  {
    IndexOf(m.objects, m.files[i].objectId, 0)
  }

  /** Object `k` opens, and holds what the manifest says of its files. */
  ghost predicate Fits(reg: Registry, k: nat, answer: Answer)
    requires k < |reg.manifest.objects|
  {
    && answer.Content?
    && ObjectFits(reg.hash, reg.parse, PackCodec.REGISTRY_LIMITS, reg.manifest.objects[k].kind,
                  FilesOf(reg.manifest, k), answer.bytes)
  }

  /** How many objects pass before the first that does not. */
  ghost function PassedPrefix(reg: Registry, answers: seq<Answer>, from: nat): (k: nat)
    requires from <= |answers| == |reg.manifest.objects|
    ensures from <= k <= |answers|
    ensures forall i :: from <= i < k ==> Fits(reg, i, answers[i])
    ensures k < |answers| ==> !Fits(reg, k, answers[k])
    decreases |answers| - from
  {
    if from == |answers| || !Fits(reg, from, answers[from]) then from else PassedPrefix(reg, answers, from + 1)
  }

  /** The content that an answer holds at a member index, if it holds any. */
  function ContentAt(reg: Registry, kind: Kind, answer: Answer, index: nat): seq<byte> {
    if answer.Unreadable? then []
    else
      match Pieces(reg.parse, PackCodec.REGISTRY_LIMITS, kind, answer.bytes)
      case None => []
      case Some(pieces) => if index < |pieces| then pieces[index].content else []
  }

  /** What the bytes of the object that carries file `i` measure for it. */
  function MeasuredAt(reg: Registry, answers: seq<Answer>, i: nat): Measured
    requires i < |reg.manifest.files| && |answers| == |reg.manifest.objects|
    requires Carrier(reg.manifest, i) < |answers|
  {
    var k, file := Carrier(reg.manifest, i), reg.manifest.files[i];
    Measure(reg.hash, ContentAt(reg, reg.manifest.objects[k].kind, answers[k], file.memberIndex), file)
  }

  function VerifiedFile(read: FileRow, row: FileRow, measured: Measured): FileRow {
    FileRow(Write(read.status, FileVerified, row.status),
            Write(read.verifiedSize, Some(measured.size), row.verifiedSize),
            Write(read.verifiedDigest, Some(measured.digest), row.verifiedDigest))
  }

  function VerifiedObject(read: ObjectRow, row: ObjectRow): ObjectRow {
    row.(status := Write(read.status, ObjectVerified, row.status))
  }

  /** The files of the first `k` objects get their measurements. */
  ghost function MarkFiles(reg: Registry, read: Rows, rows: Rows, answers: seq<Answer>, k: nat): seq<FileRow>
    requires ForManifest(reg.manifest, read) && ForManifest(reg.manifest, rows)
    requires k <= |answers| == |reg.manifest.objects|
  {
    seq(|rows.files|, i requires 0 <= i < |rows.files| =>
      if Carrier(reg.manifest, i) < k then VerifiedFile(read.files[i], rows.files[i], MeasuredAt(reg, answers, i))
      else rows.files[i])
  }

  function MarkObjects(read: Rows, rows: Rows, k: nat): seq<ObjectRow>
    requires |read.objects| == |rows.objects|
  {
    seq(|rows.objects|, i requires 0 <= i < |rows.objects| =>
      if i < k then VerifiedObject(read.objects[i], rows.objects[i]) else rows.objects[i])
  }

  /** The transfer's new status: only bytes that do not fit, or the last attempt, fail for good. */
  function Verdict(settings: Settings, read: Rows, answers: seq<Answer>, passed: nat): TransferStatus
    requires passed <= |answers|
  {
    if passed == |answers| then Complete
    else if answers[passed].Content? || read.attemptCount >= settings.maxAttempts then Failed
    else Finalizing
  }

  function AttemptVerdict(status: TransferStatus): AttemptStatus {
    if status.Complete? then Succeeded else if status.Failed? then AttemptFailed else Retryable
  }

  /** What a session commits that read `read` and then got `answers` from the store. */
  ghost function Committed(reg: Registry, read: Rows, rows: Rows, attempt: nat, answers: seq<Answer>): Rows
    requires ForManifest(reg.manifest, read) && ForManifest(reg.manifest, rows) && attempt < |rows.attempts|
    requires |answers| == |reg.manifest.objects|
  {
    var k := PassedPrefix(reg, answers, 0);
    var status := Verdict(reg.settings, read, answers, k);
    rows.(status := Write(read.status, status, rows.status),
          files := MarkFiles(reg, read, rows, answers, k),
          objects := MarkObjects(read, rows, k),
          attempts := rows.attempts[attempt := rows.attempts[attempt].(status := AttemptVerdict(status))])
  }

  function Uploaded(m: TransferManifest, rows: Rows, k: nat): Rows
    requires ForManifest(m, rows) && k < |m.objects|
  {
    rows.(objects := rows.objects[k := rows.objects[k].(status := ObjectUploaded)],
          files := seq(|rows.files|, i requires 0 <= i < |rows.files| =>
            if Carrier(m, i) == k then rows.files[i].(status := FileUploaded) else rows.files[i]))
  }

  predicate Retriable(rows: Rows) {
    && rows.status.Failed? && rows.files != []
    && forall i :: 0 <= i < |rows.files| ==> rows.files[i].status != FilePending
  }

  function Retried(rows: Rows): Rows {
    rows.(status := Finalizing, startedAt := None)
  }

  predicate ReadyToFinalize(rows: Rows) {
    rows.status.Ready? && forall i :: 0 <= i < |rows.objects| ==> rows.objects[i].status == ObjectUploaded
  }

  // ---- The code over the tables ----

  datatype Completion = AlreadyUploaded | NotInitiated | StoreRefused | Completed

  class RegistryTables {
    var status: TransferStatus
    var startedAt: Option<nat>
    var attemptCount: nat
    var objects: seq<ObjectRow>
    var files: seq<FileRow>
    var attempts: seq<AttemptRow>

    function Abs(): Rows
      reads this
    {
      Rows(status, startedAt, attemptCount, objects, files, attempts)
    }

    constructor (m: TransferManifest)
      ensures Abs() == Submitted(m)
    {
      status, startedAt, attemptCount, attempts := Ready, None, 0, [];
      objects := seq(|m.objects|, _ => ObjectRow(None, ObjectPending));
      files := seq(|m.files|, _ => FileRow(FilePending, None, None));
    }

    /** Takes the transfer under its row lock, if it may be taken. */
    method ClaimTransfer(settings: Settings, now: nat) returns (claim: Option<nat>)
      modifies this
      ensures claim.Some? <==> Claimable(settings, old(Abs()), now)
      ensures claim.Some? ==> claim.value == |old(attempts)| && Abs() == Claimed(old(Abs()), now)
      ensures claim.None? ==> Abs() == old(Abs())
    {
      if attemptCount >= settings.maxAttempts {
        return None;
      }
      if !status.Finalizing?
         && !(status.Verifying? && startedAt.Some? && startedAt.value + settings.leaseSeconds < now) {
        return None;
      }
      status, startedAt, attemptCount := Verifying, Some(now), attemptCount + 1;
      attempts := attempts + [AttemptRow(attemptCount, Running)];
      return Some(|attempts| - 1);
    }

    /** Verifies the objects in turn, in a session that read `read` beforehand, and commits
        everything at the end: what passed is kept even when a later object failed. */
    method VerifyClaim(reg: Registry, read: Rows, attempt: nat, answers: seq<Answer>)
      requires ValidManifest(reg.manifest) && ForManifest(reg.manifest, read) && ForManifest(reg.manifest, Abs())
      requires attempt < |attempts| && |answers| == |reg.manifest.objects|
      modifies this
      ensures Abs() == Committed(reg, read, old(Abs()), attempt, answers)
    {
      ghost var before := Abs();
      var m := reg.manifest;
      hide ValidManifest, Fits, VerifiedFile, MeasuredAt, Carrier;
      var newFiles, newObjects := files, objects;
      assert newFiles == MarkFiles(reg, read, before, answers, 0);
      var failed, mismatch := false, false;
      var k := 0;
      while k < |answers| && !failed
        invariant 0 <= k <= |answers| && Abs() == before
        invariant forall i :: 0 <= i < k ==> Fits(reg, i, answers[i])
        invariant mismatch ==> failed
        invariant failed ==> k < |answers| && !Fits(reg, k, answers[k]) && mismatch == answers[k].Content?
        invariant newFiles == MarkFiles(reg, read, before, answers, k)
        invariant newObjects == MarkObjects(read, before, k)
        decreases |answers| - k, !failed
      {
        if answers[k].Unreadable? {
          UnreadableFails(reg, k, answers[k]);
          failed := true;
        } else {
          ContiguousObject(m, k);
          var results := VerifyTransportObject(reg.hash, reg.parse, m.objects[k].kind, FilesOf(m, k), answers[k].bytes);
          FitsExactly(reg, k, answers[k]);
          if results.None? {
            failed, mismatch := true, true;
          } else {
            ResultsMeasure(reg, answers, k, results.value);
            newFiles := RecordResults(m, k, read.files, newFiles, results.value);
            newObjects := newObjects[k := VerifiedObject(read.objects[k], newObjects[k])];
            assert newFiles == MarkFiles(reg, read, before, answers, k + 1);
            assert newObjects == MarkObjects(read, before, k + 1);
            k := k + 1;
          }
        }
      }
      PassedPrefixIs(reg, answers, 0, k);
      var newStatus :=
        if !failed then Complete
        else if mismatch || read.attemptCount >= reg.settings.maxAttempts then Failed
        else Finalizing;
      files, objects := newFiles, newObjects;
      status := if newStatus == read.status then status else newStatus;
      attempts := attempts[attempt := attempts[attempt].(status := AttemptVerdict(newStatus))];
    }

    /** Completes an upload in the store; the rows follow only when the store did. */
    method CompleteMultipart(m: TransferManifest, k: nat, storeCompletes: bool) returns (reply: Completion)
      requires ForManifest(m, Abs()) && k < |m.objects|
      modifies this
      ensures reply == (
        if old(objects[k].status) == ObjectUploaded then AlreadyUploaded
        else if old(objects[k].uploadId).None? then NotInitiated
        else if !storeCompletes then StoreRefused
        else Completed)
      ensures Abs() == if reply.Completed? then Uploaded(m, old(Abs()), k) else old(Abs())
    {
      if objects[k].status == ObjectUploaded {
        return AlreadyUploaded;
      }
      if objects[k].uploadId.None? {
        return NotInitiated;
      }
      if !storeCompletes {
        return StoreRefused;
      }
      objects := objects[k := objects[k].(status := ObjectUploaded)];
      files := seq(|files|, i requires 0 <= i < |files| && |files| == |m.files| reads this =>
        if Carrier(m, i) == k then files[i].(status := FileUploaded) else files[i]);
      return Completed;
    }

    /** Finalizes in a session that read `read`; a transfer past that point is left alone. */
    method FinalizeTransfer(read: Rows) returns (ok: bool)
      modifies this
      ensures ok <==> !read.status.Failed? && (read.status.Ready? ==> ReadyToFinalize(read))
      ensures Abs() == if ReadyToFinalize(read) then old(Abs()).(status := Finalizing) else old(Abs())
    {
      if !read.status.Ready? {
        return !read.status.Failed?;
      }
      var i := 0;
      while i < |read.objects|
        invariant 0 <= i <= |read.objects| && Abs() == old(Abs())
        invariant forall j :: 0 <= j < i ==> read.objects[j].status == ObjectUploaded
      {
        if read.objects[i].status != ObjectUploaded {
          return false;
        }
        i := i + 1;
      }
      status := Finalizing;
      return true;
    }

    method RetryFailedTransfer() returns (ok: bool)
      modifies this
      ensures ok <==> Retriable(old(Abs()))
      ensures Abs() == if ok then Retried(old(Abs())) else old(Abs())
    {
      if !status.Failed? || files == [] {
        return false;
      }
      var i := 0;
      while i < |files|
        invariant 0 <= i <= |files| && Abs() == old(Abs())
        invariant forall j :: 0 <= j < i ==> files[j].status != FilePending
      {
        if files[i].status == FilePending {
          return false;
        }
        i := i + 1;
      }
      status, startedAt := Finalizing, None;
      return true;
    }
  }

  /** Writes the results of object `k` to its files. */
  method RecordResults(m: TransferManifest, k: nat, read: seq<FileRow>, rows: seq<FileRow>, results: seq<Measured>)
    returns (recorded: seq<FileRow>)
    requires |read| == |rows| == |m.files|
    requires forall i :: 0 <= i < |m.files| && Carrier(m, i) == k ==> m.files[i].memberIndex < |results|
    ensures |recorded| == |rows|
    ensures forall i :: 0 <= i < |rows| ==>
      recorded[i] == if Carrier(m, i) == k then VerifiedFile(read[i], rows[i], results[m.files[i].memberIndex]) else rows[i]
  {
    recorded := [];
    for i := 0 to |rows|
      invariant |recorded| == i
      invariant forall j :: 0 <= j < i ==>
        recorded[j] == if Carrier(m, j) == k then VerifiedFile(read[j], rows[j], results[m.files[j].memberIndex]) else rows[j]
    {
      if Carrier(m, i) == k {
        recorded := recorded + [VerifiedFile(read[i], rows[i], results[m.files[i].memberIndex])];
      } else {
        recorded := recorded + [rows[i]];
      }
    }
  }

  lemma {:induction false} PassedPrefixIs(reg: Registry, answers: seq<Answer>, from: nat, k: nat)
    requires from <= k <= |answers| == |reg.manifest.objects|
    requires forall i :: from <= i < k ==> Fits(reg, i, answers[i])
    requires k < |answers| ==> !Fits(reg, k, answers[k])
    ensures PassedPrefix(reg, answers, from) == k
    decreases k - from
  {
    hide Fits;
    if from == k {
      assert PassedPrefix(reg, answers, from) == from;
    } else {
      PassedPrefixIs(reg, answers, from + 1, k);
    }
  }

  lemma UnreadableFails(reg: Registry, k: nat, answer: Answer)
    requires k < |reg.manifest.objects| && answer.Unreadable?
    ensures !Fits(reg, k, answer)
  {
  }

  lemma FitsExactly(reg: Registry, k: nat, answer: Answer)
    requires k < |reg.manifest.objects| && answer.Content?
    ensures Fits(reg, k, answer) <==>
      ObjectFits(reg.hash, reg.parse, PackCodec.REGISTRY_LIMITS, reg.manifest.objects[k].kind,
                 FilesOf(reg.manifest, k), answer.bytes)
  {
    hide ObjectFits;
  }

  /** The files of an object of an accepted manifest are numbered from zero, and are not none. */
  lemma ContiguousObject(m: TransferManifest, k: nat)
    requires ValidManifest(m) && k < |m.objects|
    ensures Contiguous(FilesOf(m, k)) && FilesOf(m, k) != []
  {
    hide Contiguous, Filed, AllFieldsOk, AllKnown, SizeUpTo, DistinctEntries;
    assert ObjectOk(m.objects[k], Filed(m.files, m.objects[k].id, |m.files|));
  }

  /** The carrier of a file is the object whose files include it. */
  lemma CarriedBy(m: TransferManifest, i: nat) returns (j: nat)
    requires i < |m.files| && Carrier(m, i) < |m.objects|
    ensures j < |FilesOf(m, Carrier(m, i))| && FilesOf(m, Carrier(m, i))[j] == m.files[i]
  {
    FiledAre(m.files, m.files[i].objectId, |m.files|);
    assert m.files[i] in FilesOf(m, Carrier(m, i));
    j :| 0 <= j < |FilesOf(m, Carrier(m, i))| && FilesOf(m, Carrier(m, i))[j] == m.files[i];
  }

  /** In an accepted manifest every file has a carrier. */
  lemma HasCarrier(m: TransferManifest, i: nat)
    requires ValidManifest(m) && i < |m.files|
    ensures Carrier(m, i) < |m.objects|
  {
    hide AllFieldsOk, AllObjectsOk, SizeUpTo, DistinctEntries, DistinctObjects;
    assert KnownObject(m.objects, m.files[i].objectId);
  }

  /** In an accepted manifest every object carries a file. */
  lemma CarriesSome(m: TransferManifest, k: nat) returns (i: nat)
    requires ValidManifest(m) && k < |m.objects|
    ensures i < |m.files| && Carrier(m, i) == k
  {
    ContiguousObject(m, k);
    FiledAre(m.files, m.objects[k].id, |m.files|);
    assert DistinctObjects(m.objects);
    hide ValidManifest, Filed;
    var file := FilesOf(m, k)[0];
    assert file in FilesOf(m, k);
    i :| 0 <= i < |m.files| && m.files[i] == file;
  }

  /** What the Registry measured on an object that fits is what the manifest says. */
  lemma FitMeasures(reg: Registry, answers: seq<Answer>, i: nat)
    requires i < |reg.manifest.files| && |answers| == |reg.manifest.objects|
    requires Carrier(reg.manifest, i) < |answers| && Fits(reg, Carrier(reg.manifest, i), answers[Carrier(reg.manifest, i)])
    ensures MeasuredAt(reg, answers, i) == Measured(reg.manifest.files[i].size, reg.manifest.files[i].digest)
  {
    var j := CarriedBy(reg.manifest, i);
    hide Carrier, Pieces, Filed, Contiguous;
  }

  lemma ResultsMeasure(reg: Registry, answers: seq<Answer>, k: nat, results: seq<Measured>)
    requires k < |answers| == |reg.manifest.objects| && answers[k].Content?
    requires var pieces := Pieces(reg.parse, PackCodec.REGISTRY_LIMITS, reg.manifest.objects[k].kind, answers[k].bytes);
      pieces.Some? && Measures(reg.hash, pieces.value, FilesOf(reg.manifest, k), results)
    ensures forall i :: 0 <= i < |reg.manifest.files| && Carrier(reg.manifest, i) == k ==>
      && reg.manifest.files[i].memberIndex < |results|
      && results[reg.manifest.files[i].memberIndex] == MeasuredAt(reg, answers, i)
  {
    forall i | 0 <= i < |reg.manifest.files| && Carrier(reg.manifest, i) == k
      ensures reg.manifest.files[i].memberIndex < |results|
      ensures results[reg.manifest.files[i].memberIndex] == MeasuredAt(reg, answers, i)
    {
      var j := CarriedBy(reg.manifest, i);
      hide Carrier, Pieces, Filed;
    }
  }
}
