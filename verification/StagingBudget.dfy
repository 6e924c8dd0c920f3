/** What the staging accounts are worth: the cache stays within its budget exactly while no
    deleted pack is subtracted that was never added. */
module StagingBudget {
  import opened Common
  import opened Files
  import opened PackPlan
  import opened TransportPlan

  /** The account equals what is staged, and is within budget. */
  ghost predicate Balanced(budget: u64, account: Account) {
    account.staged == account.cached <= budget
  }

  lemma KeepBalanced(budget: u64, account: Account, size: nat)
    requires Balanced(budget, account)
    ensures Balanced(budget, Keep(budget, account, size))
  {
  }

  /** Throughout the pack loop the staged packs total the account, within budget. */
  lemma {:induction false} PackLoopBalanced(encoder: Encoder, budget: u64, packs: seq<seq<FileRecord>>, k: nat)
    requires k <= |packs|
    ensures Balanced(budget, AfterPacks(encoder, budget, packs, k))
  {
    if k == 0 {
    } else {
      PackLoopBalanced(encoder, budget, packs, k - 1);
      KeepBalanced(budget, AfterPacks(encoder, budget, packs, k - 1), PackSize(encoder, packs[k - 1]));
    }
  }

  /** A pack is staged whenever it fits beside the packs that are staged already. */
  lemma PackLoopStages(encoder: Encoder, budget: u64, packs: seq<seq<FileRecord>>, k: nat)
    requires k < |packs|
    ensures var before, size := AfterPacks(encoder, budget, packs, k).staged, PackSize(encoder, packs[k]);
      AfterPacks(encoder, budget, packs, k + 1).staged
      == before + if before < budget && before + size <= budget then size else 0
  {
    PackLoopBalanced(encoder, budget, packs, k);
    hide PackSize;
  }

  /** The large-file step without the subtraction. */
  function KeepOnlySmaller(budget: u64, account: Account, size: nat, original: u64): Account {
    if UsesPack(budget, size, original) then Keep(budget, account, size) else account
  }

  function AfterFilesCorrected(encoder: Encoder, budget: u64, start: Account, files: seq<FileRecord>, k: nat): Account
    requires k <= |files|
  {
    if k == 0 then start
    else KeepOnlySmaller(budget, AfterFilesCorrected(encoder, budget, start, files, k - 1),
                         PackSize(encoder, [files[k - 1]]), files[k - 1].size)
  }

  /** Without the subtraction the large-file loop keeps the balance too. */
  lemma {:induction false} CorrectedLoopBalanced(encoder: Encoder, budget: u64, start: Account, files: seq<FileRecord>, k: nat)
    requires k <= |files| && Balanced(budget, start)
    ensures Balanced(budget, AfterFilesCorrected(encoder, budget, start, files, k))
  {
    if k == 0 {
    } else {
      CorrectedLoopBalanced(encoder, budget, start, files, k - 1);
      KeepBalanced(budget, AfterFilesCorrected(encoder, budget, start, files, k - 1), PackSize(encoder, [files[k - 1]]));
    }
  }

  /** The step deletes a pack that saved nothing and lowers a positive account for it. */
  predicate Forgets(budget: u64, account: Account, size: nat, original: u64) {
    && !UsesPack(budget, size, original) && FitsCache(budget, account, size)
    && 0 < size && 0 < account.cached
  }

  predicate ForgetsAt(encoder: Encoder, budget: u64, start: Account, files: seq<FileRecord>, k: nat)
    requires k < |files|
  {
    Forgets(budget, AfterFiles(encoder, budget, start, files, k), PackSize(encoder, [files[k]]), files[k].size)
  }

  /** The staged bytes that the account has lost after `k` large files. */
  function Forgotten(encoder: Encoder, budget: u64, start: Account, files: seq<FileRecord>, k: nat): nat
    requires k <= |files|
  {
    if k == 0 then 0
    else
      Forgotten(encoder, budget, start, files, k - 1)
      + if ForgetsAt(encoder, budget, start, files, k - 1)
        then Min(PackSize(encoder, [files[k - 1]]), AfterFiles(encoder, budget, start, files, k - 1).cached)
        else 0
  }

  /** The source's loop: the cache holds the account plus everything the account has lost, so it
      exceeds the budget by at most that much. */
  lemma {:induction false} FileLoopAccounts(encoder: Encoder, budget: u64, start: Account, files: seq<FileRecord>, k: nat)
    requires k <= |files| && Balanced(budget, start)
    ensures var after := AfterFiles(encoder, budget, start, files, k);
      && after.cached <= budget
      && after.staged == after.cached + Forgotten(encoder, budget, start, files, k)
  {
    if k == 0 {
    } else {
      hide PackSize;
      FileLoopAccounts(encoder, budget, start, files, k - 1);
    }
  }

  lemma {:induction false} NothingForgotten(encoder: Encoder, budget: u64, start: Account, files: seq<FileRecord>, k: nat)
    requires k <= |files|
    ensures Forgotten(encoder, budget, start, files, k) == 0 <==>
      forall j :: 0 <= j < k ==> !ForgetsAt(encoder, budget, start, files, j)
  {
    hide PackSize, AfterFiles;
    if k == 0 {
    } else {
      NothingForgotten(encoder, budget, start, files, k - 1);
    }
  }

  /** The account of a finished plan is right exactly when no step forgot a pack. */
  lemma BalancedExactly(encoder: Encoder, budget: u64, plan: Plan)
    ensures var packed := AfterPacks(encoder, budget, plan.packs, |plan.packs|);
      Balanced(budget, AfterFiles(encoder, budget, packed, plan.standalone, |plan.standalone|)) <==>
      forall j :: 0 <= j < |plan.standalone| ==> !ForgetsAt(encoder, budget, packed, plan.standalone, j)
  {
    var packed := AfterPacks(encoder, budget, plan.packs, |plan.packs|);
    PackLoopBalanced(encoder, budget, plan.packs, |plan.packs|);
    FileLoopAccounts(encoder, budget, packed, plan.standalone, |plan.standalone|);
    NothingForgotten(encoder, budget, packed, plan.standalone, |plan.standalone|);
  }

  /** The source's loop follows the corrected one as long as no step forgets a pack. */
  lemma {:induction false} FollowsCorrected(encoder: Encoder, budget: u64, start: Account, files: seq<FileRecord>, k: nat)
    requires k <= |files| && Balanced(budget, start)
    requires forall j :: 0 <= j < k ==> !ForgetsAt(encoder, budget, start, files, j)
    ensures AfterFiles(encoder, budget, start, files, k) == AfterFilesCorrected(encoder, budget, start, files, k)
  {
    if k == 0 {
    } else {
      hide PackSize;
      FollowsCorrected(encoder, budget, start, files, k - 1);
      assert !ForgetsAt(encoder, budget, start, files, k - 1);
    }
  }

  // ---- Every byte on disk ----

  lemma {:induction false} TemporaryWithin(limit: nat, writes: seq<nat>, n: nat)
    requires n <= |writes|
    ensures Temporary(limit, writes, n) <= limit
  {
    if n == 0 {
      assert Temporary(limit, writes, n) == 0;
    } else {
      TemporaryWithin(limit, writes, n - 1);
    }
  }

  /** The staged packs and an open temporary never exceed the budget by more than the account has lost. */
  lemma HeldWithin(encoder: Encoder, budget: u64, account: Account, members: seq<FileRecord>)
    requires account.cached <= budget && account.cached <= account.staged
    ensures Held(encoder, budget, account, members) <= budget + (account.staged - account.cached)
  {
    if encoder(members).Some? {
      var writes := encoder(members).value;
      TemporaryWithin(SaturatingSub(budget, account.cached), writes, |writes|);
    }
  }

  /** At every write of the pack loop, the staged packs and the open temporary are within budget. */
  lemma {:induction false} PackLoopPeak(encoder: Encoder, budget: u64, packs: seq<seq<FileRecord>>, k: nat)
    requires k <= |packs|
    ensures PeakAfterPacks(encoder, budget, packs, k) <= budget
  {
    hide Held, AfterPacks;
    if k == 0 {
      assert PeakAfterPacks(encoder, budget, packs, k) == 0;
    } else {
      PackLoopPeak(encoder, budget, packs, k - 1);
      PackLoopBalanced(encoder, budget, packs, k - 1);
      HeldWithin(encoder, budget, AfterPacks(encoder, budget, packs, k - 1), packs[k - 1]);
    }
  }

  /** At every write of the large-file loop they exceed it by at most what the account has lost. */
  lemma {:induction false} FileLoopPeak(encoder: Encoder, budget: u64, start: Account, peak: nat, files: seq<FileRecord>, k: nat)
    requires k <= |files| && Balanced(budget, start) && peak <= budget
    ensures PeakAfterFiles(encoder, budget, start, peak, files, k) <= budget + Forgotten(encoder, budget, start, files, k)
  {
    hide Held, AfterFiles, ForgetsAt, PackSize;
    if k == 0 {
      assert PeakAfterFiles(encoder, budget, start, peak, files, k) == peak;
    } else {
      FileLoopPeak(encoder, budget, start, peak, files, k - 1);
      FileLoopAccounts(encoder, budget, start, files, k - 1);
      HeldWithin(encoder, budget, AfterFiles(encoder, budget, start, files, k - 1), [files[k - 1]]);
    }
  }

  // ---- A budget of 100 overrun ----

  function Sized(id: nat, letter: char, size: u64): FileRecord {
    FileRecord(id, [[letter]], size, Sha256, "")
  }

  /** Three files of 20 bytes, one of 40 and one of 200. */
  const A: FileRecord := Sized(0, 'a', 20)
  const B: FileRecord := Sized(1, 'b', 20)
  const C: FileRecord := Sized(2, 'c', 20)
  const D: FileRecord := Sized(3, 'd', 40)
  const E: FileRecord := Sized(4, 'e', 200)

  const DATA_SET: seq<FileRecord> := [A, B, C, D, E]

  const OPTIONS: PackOptions := PackOptions(30, 64)

  const PLAN: Plan := Plan([[A, B, C]], [D, E])

  /** The small files pack to 60 bytes, the file of 40 to 40 and the file of 200 to 80. */
  function Encode(members: seq<FileRecord>): Option<seq<nat>> {
    Some(if |members| == 3 then [60] else if |members| == 1 && members[0].size == 40 then [40] else [80])
  }

  lemma LetterOrder(x: char, y: char)
    requires x < y
    ensures PathLe([[x]], [[y]]) && [[x]] != [[y]]
  {
    assert [[x]][0] == [x] && [[y]][0] == [y];
    assert !ComponentLe([y], [x], 0) && ComponentLe([x], [y], 0);
  }

  lemma InOrder(files: seq<FileRecord>)
    requires SortedByPath(files) && DistinctPaths(files)
    ensures SortByPath(files) == files
  {
    SortCorrect(files);
    SortedUnique(files, SortByPath(files));
  }

  lemma DataSetOrdered()
    ensures SortedByPath(DATA_SET) && DistinctPaths(DATA_SET)
    ensures SortByPath([A, B, C]) == [A, B, C] && SortByPath([D, E]) == [D, E]
  {
    forall i, j | 0 <= i < j < |DATA_SET|
      ensures PathLe(DATA_SET[i].path, DATA_SET[j].path) && DATA_SET[i].path != DATA_SET[j].path
    {
      assert DATA_SET[i].path == [["abcde"[i]]] && DATA_SET[j].path == [["abcde"[j]]];
      LetterOrder("abcde"[i], "abcde"[j]);
    }
    hide PathLe;
    assert [A, B, C] == DATA_SET[..3] && [D, E] == DATA_SET[3..];
    InOrder(DATA_SET[..3]);
    InOrder(DATA_SET[3..]);
  }

  lemma DataSetSplit()
    ensures Select(DATA_SET, 5, 30, false) == [A, B, C] && Select(DATA_SET, 5, 30, true) == [D, E]
  {
    assert Select(DATA_SET, 0, 30, false) == [] && Select(DATA_SET, 0, 30, true) == [];
    assert Select(DATA_SET, 1, 30, false) == [A] && Select(DATA_SET, 1, 30, true) == [];
    assert Select(DATA_SET, 2, 30, false) == [A, B] && Select(DATA_SET, 2, 30, true) == [];
    assert Select(DATA_SET, 3, 30, false) == [A, B, C] && Select(DATA_SET, 3, 30, true) == [];
    assert Select(DATA_SET, 4, 30, false) == [A, B, C] && Select(DATA_SET, 4, 30, true) == [D];
  }

  lemma DataSetPlanned()
    ensures IsPlan(DATA_SET, OPTIONS, PLAN)
  {
    DataSetOrdered();
    DataSetSplit();
    hide Select, SortedByPath, DistinctPaths, SortByPath;
    var pack := [A, B, C];
    assert Sum(pack, 0, 0) == 0 && Sum(pack, 0, 1) == 20 && Sum(pack, 0, 2) == 40 && Sum(pack, 0, 3) == 60;
    assert Start(PLAN.packs, 0) == 0 && Start(PLAN.packs, 1) == 3;
    assert SplitAt(PLAN.packs, pack, 0);
  }

  lemma OneWrite(size: nat)
    ensures Bytes([size], 1) == size
  {
    assert Bytes([size], 0) == 0;
  }

  /** With a member limit of 30 and a pack target of 64 the cache ends with 140 staged bytes: the
      pack of 60 is staged, the file that stays at 40 is staged, deleted and subtracted, and then
      the pack of 80 seems to fit. */
  lemma BudgetOverrun()
    ensures IsPlan(DATA_SET, OPTIONS, PLAN) && DistinctPaths(DATA_SET) && Sane(Encode)
    ensures var packed := AfterPacks(Encode, 100, PLAN.packs, |PLAN.packs|);
      AfterFiles(Encode, 100, packed, PLAN.standalone, |PLAN.standalone|) == Account(140, 100)
  {
    DataSetPlanned();
    DataSetOrdered();
    OneWrite(60);
    OneWrite(40);
    OneWrite(80);
    assert Sane(Encode);
    var packed := AfterPacks(Encode, 100, PLAN.packs, 1);
    assert PackSize(Encode, PLAN.packs[0]) == 60;
    assert packed == Keep(100, AfterPacks(Encode, 100, PLAN.packs, 0), 60) == Account(60, 60);
    assert AfterFiles(Encode, 100, packed, PLAN.standalone, 0) == packed;
    var first := AfterFiles(Encode, 100, packed, PLAN.standalone, 1);
    assert PackSize(Encode, [PLAN.standalone[0]]) == 40;
    assert first == KeepIfSmaller(100, packed, 40, 40) == Account(60, 20);
    assert PackSize(Encode, [PLAN.standalone[1]]) == 80;
    assert AfterFiles(Encode, 100, packed, PLAN.standalone, 2) == KeepIfSmaller(100, first, 80, 200);
  }
}
