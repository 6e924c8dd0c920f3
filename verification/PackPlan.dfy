/** Greedy planning of transport packs for small files. */
module PackPlan {
  import opened Common
  import opened Files

  datatype PackOptions = PackOptions(maximumMemberSize: u64, targetPackSize: u64)

  datatype PackError = InvalidOptions

  datatype Plan = Plan(packs: seq<seq<FileRecord>>, standalone: seq<FileRecord>)

  /** The first `n` files that are (or are not) over the member limit, in input order. */
  function Select(files: seq<FileRecord>, n: nat, limit: u64, over: bool): seq<FileRecord>
    requires n <= |files|
  {
    if n == 0 then []
    else Select(files, n - 1, limit, over) + if (files[n - 1].size > limit) == over then [files[n - 1]] else []
  }

  function Candidates(files: seq<FileRecord>, options: PackOptions): seq<FileRecord> {
    SortByPath(Select(files, |files|, options.maximumMemberSize, false))
  }

  function Standalone(files: seq<FileRecord>, options: PackOptions): seq<FileRecord> {
    SortByPath(Select(files, |files|, options.maximumMemberSize, true))
  }

  /** The bytes of files `a` up to `b`. */
  function Sum(files: seq<FileRecord>, a: nat, b: nat): nat
    requires a <= b <= |files|
  {
    if a == b then 0 else Sum(files, a, b - 1) + files[b - 1].size
  }

  function Total(files: seq<FileRecord>): nat {
    Sum(files, 0, |files|)
  }

  /** The bytes as the planner counts them, in saturating 64-bit arithmetic. */
  function Load(files: seq<FileRecord>): u64 {
    Min(Total(files), U64_MAX)
  }

  /** How many files the first `k` packs hold. */
  function Start(packs: seq<seq<FileRecord>>, k: nat): nat
    requires k <= |packs|
  {
    if k == 0 then 0 else Start(packs, k - 1) + |packs[k - 1]|
  }

  /** The packs are consecutive stretches of the files, with nothing left over. */
  ghost predicate Splits(packs: seq<seq<FileRecord>>, files: seq<FileRecord>) {
    && Start(packs, |packs|) == |files|
    && forall k :: 0 <= k < |packs| ==> SplitAt(packs, files, k)
  }

  ghost predicate SplitAt(packs: seq<seq<FileRecord>>, files: seq<FileRecord>, k: nat)
    requires k < |packs|
  {
    Start(packs, k) + |packs[k]| <= |files| && packs[k] == files[Start(packs, k)..Start(packs, k) + |packs[k]|]
  }

  /** The pack is within target, or holds a single file. */
  ghost predicate Fits(pack: seq<FileRecord>, target: u64) {
    Load(pack) <= target || |pack| <= 1
  }

  ghost predicate AllFit(packs: seq<seq<FileRecord>>, target: u64) {
    forall k :: 0 <= k < |packs| ==> Fits(packs[k], target)
  }

  /** Pack `k` with the first file of the next pack would exceed the target. */
  ghost predicate Full(packs: seq<seq<FileRecord>>, k: nat, target: u64)
    requires k + 1 < |packs| && packs[k + 1] != []
  {
    Min(Total(packs[k]) + packs[k + 1][0].size, U64_MAX) > target
  }

  ghost predicate IsGreedy(packs: seq<seq<FileRecord>>, files: seq<FileRecord>, target: u64) {
    && Splits(packs, files)
    && AllFit(packs, target)
    && (forall k :: 0 <= k < |packs| ==> packs[k] != [])
    && (forall k :: 0 <= k < |packs| - 1 ==> Full(packs, k, target))
  }

  ghost predicate IsPlan(files: seq<FileRecord>, options: PackOptions, plan: Plan) {
    && plan.standalone == Standalone(files, options)
    && IsGreedy(plan.packs, Candidates(files, options), options.targetPackSize)
  }

  /** Fills packs in path order and leaves files over the member limit to themselves. */
  method PlanPacks(files: seq<FileRecord>, options: PackOptions) returns (r: Result<Plan, PackError>)
    ensures r.Failure? <==> options.maximumMemberSize == 0 || options.targetPackSize == 0
    ensures r.Success? ==> IsPlan(files, options, r.value)
  {
    if options.maximumMemberSize == 0 || options.targetPackSize == 0 {
      return Failure(InvalidOptions);
    }
    var candidates, standalone := SelectByLimit(files, options);
    var packs := FillPacks(SortByPath(candidates), options.targetPackSize);
    return Success(Plan(packs, SortByPath(standalone)));
  }

  method SelectByLimit(files: seq<FileRecord>, options: PackOptions)
    returns (candidates: seq<FileRecord>, standalone: seq<FileRecord>)
    ensures candidates == Select(files, |files|, options.maximumMemberSize, false)
    ensures standalone == Select(files, |files|, options.maximumMemberSize, true)
  {
    candidates, standalone := [], [];
    for i := 0 to |files|
      invariant candidates == Select(files, i, options.maximumMemberSize, false)
      invariant standalone == Select(files, i, options.maximumMemberSize, true)
    {
      if files[i].size <= options.maximumMemberSize {
        candidates := candidates + [files[i]];
      } else {
        standalone := standalone + [files[i]];
      }
    }
  }

  method FillPacks(files: seq<FileRecord>, target: u64) returns (packs: seq<seq<FileRecord>>)
    ensures IsGreedy(packs, files, target)
  {
    packs := [];
    var current: seq<FileRecord> := [];
    var currentSize: u64 := 0;
    assert FilledTo(packs, current, files, 0, target) && Load([]) == 0;
    hide FilledTo, IsGreedy, Load;
    for i := 0 to |files|
      invariant currentSize == Load(current)
      invariant i == 0 <==> current == []
      invariant FilledTo(packs, current, files, i, target)
    {
      packs, current, currentSize := AddFile(packs, current, currentSize, files, i, target);
    }
    if current != [] {
      LastPack(packs, current, files, target);
      packs := packs + [current];
    } else {
      NothingPacked(packs, files, target);
    }
  }

  /** Places file `i`, closing the open pack first when the file would overfill it. */
  method AddFile(packs: seq<seq<FileRecord>>, current: seq<FileRecord>, currentSize: u64,
                 files: seq<FileRecord>, i: nat, target: u64)
    returns (packs': seq<seq<FileRecord>>, current': seq<FileRecord>, currentSize': u64)
    requires i < |files| && currentSize == Load(current) && FilledTo(packs, current, files, i, target)
    ensures currentSize' == Load(current') && current' != [] && FilledTo(packs', current', files, i + 1, target)
  {
    packs', current', currentSize' := packs, current, currentSize;
    assert Load([]) == 0;
    hide FilledTo, Load;
    if current != [] && SaturatingAdd(currentSize, files[i].size) > target {
      ClosePack(packs, current, files, i, target);
      packs', current', currentSize' := packs + [current], [], 0;
    }
    GrowPack(packs', current', files, i, target);
    LoadOfLast(current', files[i]);
    currentSize' := SaturatingAdd(currentSize', files[i].size);
    current' := current' + [files[i]];
  }

  lemma NothingPacked(packs: seq<seq<FileRecord>>, files: seq<FileRecord>, target: u64)
    requires FilledTo(packs, [], files, |files|, target) && files == []
    ensures IsGreedy(packs, files, target)
  {
  }

  /** Closed packs and an open pack that hold the first `i` files. */
  ghost predicate FilledTo(packs: seq<seq<FileRecord>>, current: seq<FileRecord>, files: seq<FileRecord>, i: nat, target: u64) {
    && Start(packs, |packs|) + |current| == i <= |files|
    && current == files[i - |current|..i]
    && Fits(current, target)
    && (forall k :: 0 <= k < |packs| ==> SplitAt(packs, files, k))
    && AllFit(packs, target)
    && (forall k :: 0 <= k < |packs| ==> packs[k] != [])
    && (forall k :: 0 <= k < |packs| - 1 ==> Full(packs, k, target))
    && (packs != [] && i < |files| && current == [] ==>
         Min(Total(packs[|packs| - 1]) + files[i].size, U64_MAX) > target)
    && (packs != [] && current != [] ==>
         Min(Total(packs[|packs| - 1]) + current[0].size, U64_MAX) > target)
  }

  lemma {:induction false} StartOfLonger(packs: seq<seq<FileRecord>>, pack: seq<FileRecord>, k: nat)
    requires k <= |packs|
    ensures Start(packs + [pack], k) == Start(packs, k)
  {
    if k == 0 {
    } else {
      StartOfLonger(packs, pack, k - 1);
    }
  }

  /** Adding the open pack to the closed ones. */
  lemma AppendPack(packs: seq<seq<FileRecord>>, current: seq<FileRecord>, files: seq<FileRecord>, i: nat, target: u64)
    requires FilledTo(packs, current, files, i, target) && current != []
    ensures var longer := packs + [current];
      && Start(longer, |longer|) == i
      && (forall k :: 0 <= k < |longer| ==> SplitAt(longer, files, k))
      && AllFit(longer, target)
      && (forall k :: 0 <= k < |longer| ==> longer[k] != [])
      && (forall k :: 0 <= k < |longer| - 1 ==> Full(longer, k, target))
  {
    var longer := packs + [current];
    StartOfLonger(packs, current, |packs|);
    forall k | 0 <= k < |longer|
      ensures SplitAt(longer, files, k)
    {
      StartOfLonger(packs, current, k);
      if k < |packs| {
        assert SplitAt(packs, files, k);
      }
    }
    forall k | 0 <= k < |longer| - 1
      ensures Full(longer, k, target)
    {
      if k < |packs| - 1 {
        assert Full(packs, k, target);
      }
    }
  }

  lemma ClosePack(packs: seq<seq<FileRecord>>, current: seq<FileRecord>, files: seq<FileRecord>, i: nat, target: u64)
    requires FilledTo(packs, current, files, i, target) && current != [] && i < |files|
    requires SaturatingAdd(Load(current), files[i].size) > target
    ensures FilledTo(packs + [current], [], files, i, target)
  {
    AppendPack(packs, current, files, i, target);
  }

  lemma GrowPack(packs: seq<seq<FileRecord>>, current: seq<FileRecord>, files: seq<FileRecord>, i: nat, target: u64)
    requires FilledTo(packs, current, files, i, target) && i < |files|
    requires current == [] || SaturatingAdd(Load(current), files[i].size) <= target
    ensures FilledTo(packs, current + [files[i]], files, i + 1, target)
  {
    SumOfLast(current, files[i]);
    assert files[i - |current|..i + 1] == files[i - |current|..i] + [files[i]];
  }

  lemma LastPack(packs: seq<seq<FileRecord>>, current: seq<FileRecord>, files: seq<FileRecord>, target: u64)
    requires FilledTo(packs, current, files, |files|, target) && current != []
    ensures IsGreedy(packs + [current], files, target)
  {
    AppendPack(packs, current, files, |files|, target);
  }

  lemma {:induction false} SumExtends(a: seq<FileRecord>, b: seq<FileRecord>, from: nat, shift: nat, n: nat)
    requires from + n <= |a| && from + shift + n <= |b|
    requires forall i :: from <= i < from + n ==> a[i] == b[i + shift]
    ensures Sum(a, from, from + n) == Sum(b, from + shift, from + shift + n)
  {
    if n == 0 {
    } else {
      SumExtends(a, b, from, shift, n - 1);
    }
  }

  lemma SumOfLast(files: seq<FileRecord>, file: FileRecord)
    ensures Total(files + [file]) == Total(files) + file.size
  {
    SumExtends(files, files + [file], 0, 0, |files|);
  }

  lemma LoadOfLast(files: seq<FileRecord>, file: FileRecord)
    ensures Load(files + [file]) == SaturatingAdd(Load(files), file.size)
  {
    SumOfLast(files, file);
  }

  // ---- The packing is determined, and no packing uses fewer packs ----

  lemma {:induction false} SumMonotone(files: seq<FileRecord>, a: nat, a': nat, b': nat, b: nat)
    requires a <= a' <= b' <= b <= |files|
    ensures Sum(files, a', b') <= Sum(files, a, b)
    decreases b - a
  {
    if b' < b {
      SumMonotone(files, a, a', b', b - 1);
    } else if a' < b' {
      SumMonotone(files, a, a', b' - 1, b - 1);
    }
  }

  lemma PackTotal(packs: seq<seq<FileRecord>>, files: seq<FileRecord>, k: nat)
    requires k < |packs| && SplitAt(packs, files, k)
    ensures Start(packs, k + 1) == Start(packs, k) + |packs[k]| <= |files|
    ensures Total(packs[k]) == Sum(files, Start(packs, k), Start(packs, k + 1))
  {
    SumExtends(packs[k], files, 0, Start(packs, k), |packs[k]|);
  }

  /** After any number of packs, greedy packing has placed at least as many files as any other
      packing whose packs are within target or hold a single file. */
  lemma {:induction false} StaysAhead(greedy: seq<seq<FileRecord>>, other: seq<seq<FileRecord>>,
                                      files: seq<FileRecord>, target: u64, k: nat)
    requires IsGreedy(greedy, files, target)
    requires Splits(other, files) && AllFit(other, target)
    requires k <= |greedy| && k <= |other|
    ensures Start(other, k) <= Start(greedy, k)
  {
    if k == 0 {
    } else {
      StaysAhead(greedy, other, files, target, k - 1);
      assert SplitAt(greedy, files, k - 1) && SplitAt(other, files, k - 1);
      PackTotal(greedy, files, k - 1);
      PackTotal(other, files, k - 1);
      if Start(other, k) > Start(greedy, k) {
        Overfull(greedy, other, files, target, k);
      }
    }
  }

  /** A pack that starts no later than a greedy pack and ends after it cannot fit. */
  lemma Overfull(greedy: seq<seq<FileRecord>>, other: seq<seq<FileRecord>>, files: seq<FileRecord>, target: u64, k: nat)
    requires IsGreedy(greedy, files, target)
    requires Splits(other, files) && 0 < k <= |greedy| && k <= |other|
    requires Start(other, k - 1) <= Start(greedy, k - 1) && Start(greedy, k) < Start(other, k)
    ensures !Fits(other[k - 1], target)
  {
    assert SplitAt(other, files, k - 1);
    PackTotal(other, files, k - 1);
    GreedyStep(greedy, files, target, k, Start(other, k));
    SumMonotone(files, Start(other, k - 1), Start(greedy, k - 1), Start(greedy, k) + 1, Start(other, k));
  }

  /** One more file than a greedy pack holds is over the target. */
  lemma GreedyStep(greedy: seq<seq<FileRecord>>, files: seq<FileRecord>, target: u64, k: nat, end: nat)
    requires IsGreedy(greedy, files, target)
    requires 0 < k <= |greedy| && Start(greedy, k) < end <= |files|
    ensures Start(greedy, k - 1) < Start(greedy, k)
    ensures Min(Sum(files, Start(greedy, k - 1), Start(greedy, k) + 1), U64_MAX) > target
  {
    assert SplitAt(greedy, files, k - 1) && k < |greedy|;
    PackTotal(greedy, files, k - 1);
    assert SplitAt(greedy, files, k) && Full(greedy, k - 1, target);
    assert greedy[k][0] == files[Start(greedy, k)];
  }

  lemma {:induction false} StartGrows(packs: seq<seq<FileRecord>>, j: nat, k: nat)
    requires j <= k <= |packs| && forall i :: 0 <= i < |packs| ==> packs[i] != []
    ensures Start(packs, j) + (k - j) <= Start(packs, k)
    decreases k - j
  {
    if j == k {
    } else {
      StartGrows(packs, j, k - 1);
    }
  }

  /** No packing of the same files, in the same order, uses fewer packs. */
  lemma GreedyOptimal(greedy: seq<seq<FileRecord>>, other: seq<seq<FileRecord>>, files: seq<FileRecord>, target: u64)
    requires IsGreedy(greedy, files, target)
    requires Splits(other, files) && AllFit(other, target)
    ensures |greedy| <= |other|
  {
    if |other| < |greedy| {
      StaysAhead(greedy, other, files, target, |other|);
      StartGrows(greedy, |other|, |greedy|);
    }
  }

  lemma GreedyUnique(a: seq<seq<FileRecord>>, b: seq<seq<FileRecord>>, files: seq<FileRecord>, target: u64)
    requires IsGreedy(a, files, target) && IsGreedy(b, files, target)
    ensures a == b
  {
    GreedyOptimal(a, b, files, target);
    GreedyOptimal(b, a, files, target);
    forall k | 0 <= k < |a|
      ensures a[k] == b[k]
    {
      StaysAhead(a, b, files, target, k);
      StaysAhead(b, a, files, target, k);
      StaysAhead(a, b, files, target, k + 1);
      StaysAhead(b, a, files, target, k + 1);
      assert SplitAt(a, files, k) && SplitAt(b, files, k);
    }
  }

  // ---- The plan as a whole ----

  /** Every file of the first `k` packs. */
  function Packed(packs: seq<seq<FileRecord>>, k: nat): multiset<FileRecord>
    requires k <= |packs|
  {
    if k == 0 then multiset{} else Packed(packs, k - 1) + multiset(packs[k - 1])
  }

  lemma {:induction false} PackedPrefix(packs: seq<seq<FileRecord>>, files: seq<FileRecord>, k: nat)
    requires k <= |packs| && Splits(packs, files)
    ensures Start(packs, k) <= |files|
    ensures Packed(packs, k) == multiset(files[..Start(packs, k)])
  {
    if k == 0 {
    } else {
      PackedPrefix(packs, files, k - 1);
      assert SplitAt(packs, files, k - 1);
      assert files[..Start(packs, k)] == files[..Start(packs, k - 1)] + packs[k - 1];
    }
  }

  function Occurrences(files: seq<FileRecord>, n: nat, file: FileRecord): nat
    requires n <= |files|
  {
    multiset(files[..n])[file]
  }

  lemma OccursOnceMore(files: seq<FileRecord>, n: nat, file: FileRecord)
    requires 0 < n <= |files|
    ensures Occurrences(files, n, file) == Occurrences(files, n - 1, file) + if files[n - 1] == file then 1 else 0
  {
    TakeOneMore(files, n);
  }

  function Selected(files: seq<FileRecord>, n: nat, limit: u64, over: bool, file: FileRecord): nat
    requires n <= |files|
  {
    multiset(Select(files, n, limit, over))[file]
  }

  lemma SelectedOnceMore(files: seq<FileRecord>, n: nat, limit: u64, over: bool, file: FileRecord)
    requires 0 < n <= |files|
    ensures var last := files[n - 1];
      Selected(files, n, limit, over, file)
      == Selected(files, n - 1, limit, over, file) + if (last.size > limit) == over && last == file then 1 else 0
  {
    assert multiset(Select(files, n, limit, over)) == multiset(Select(files, n - 1, limit, over))
      + if (files[n - 1].size > limit) == over then multiset{files[n - 1]} else multiset{};
  }

  lemma SelectedNone(files: seq<FileRecord>, limit: u64, over: bool, file: FileRecord)
    ensures Selected(files, 0, limit, over, file) == 0 == Occurrences(files, 0, file)
  {
  }

  lemma {:induction false} SelectedCounts(files: seq<FileRecord>, n: nat, limit: u64, over: bool, file: FileRecord)
    requires n <= |files|
    ensures Selected(files, n, limit, over, file) ==
      if (file.size > limit) == over then Occurrences(files, n, file) else 0
  {
    hide *;
    if n == 0 {
      SelectedNone(files, limit, over, file);
    } else {
      SelectedCounts(files, n - 1, limit, over, file);
      SelectedOnceMore(files, n, limit, over, file);
      OccursOnceMore(files, n, file);
    }
  }

  lemma SelectCounts(files: seq<FileRecord>, n: nat, limit: u64, over: bool, file: FileRecord)
    requires n <= |files|
    ensures multiset(Select(files, n, limit, over))[file] ==
      if (file.size > limit) == over then multiset(files[..n])[file] else 0
  {
    SelectedCounts(files, n, limit, over, file);
    hide Select;
  }

  /** The packs and the standalone files are the input, each file once, and the member limit
      decides which. */
  lemma PlanPartitions(files: seq<FileRecord>, options: PackOptions, plan: Plan)
    requires IsPlan(files, options, plan)
    ensures Packed(plan.packs, |plan.packs|) + multiset(plan.standalone) == multiset(files)
    ensures forall file :: file in Packed(plan.packs, |plan.packs|) ==> file.size <= options.maximumMemberSize
    ensures forall file :: file in plan.standalone ==> file.size > options.maximumMemberSize
  {
    var small := Select(files, |files|, options.maximumMemberSize, false);
    var large := Select(files, |files|, options.maximumMemberSize, true);
    SortCorrect(small);
    SortCorrect(large);
    var candidates := Candidates(files, options);
    PackedPrefix(plan.packs, candidates, |plan.packs|);
    assert candidates[..|candidates|] == candidates && files[..|files|] == files;
    SelectsPartition(files, options.maximumMemberSize);
    hide *;
    assert Packed(plan.packs, |plan.packs|) == multiset(small);
    assert multiset(plan.standalone) == multiset(large);
    assert forall file :: file in plan.standalone ==> file in multiset(large);
  }

  lemma {:induction false} EmptySum(files: seq<FileRecord>, n: nat)
    requires n <= |files| && forall i :: 0 <= i < n ==> files[i].size == 0
    ensures Sum(files, 0, n) == 0
  {
    if n == 0 {
      assert Sum(files, 0, n) == 0;
    } else {
      EmptySum(files, n - 1);
    }
  }

  lemma {:induction false} PackedCount(packs: seq<seq<FileRecord>>, k: nat, n: nat)
    requires k < n <= |packs|
    ensures multiset(packs[k]) <= Packed(packs, n)
    decreases n
  {
    if k < n - 1 {
      PackedCount(packs, k, n - 1);
    } else {
      assert Packed(packs, n) == Packed(packs, n - 1) + multiset(packs[k]);
    }
  }

  /** Empty files fill no pack: however many there are, they all travel in one. */
  lemma EmptyFilesShareAPack(files: seq<FileRecord>, options: PackOptions, plan: Plan)
    requires IsPlan(files, options, plan) && files != [] && forall i :: 0 <= i < |files| ==> files[i].size == 0
    ensures plan.standalone == [] && |plan.packs| == 1 && |plan.packs[0]| == |files|
  {
    PlanPartitions(files, options, plan);
    hide IsPlan, Standalone;
    var all := Packed(plan.packs, |plan.packs|) + multiset(plan.standalone);
    forall file | file in all
      ensures file.size == 0
    {
      assert file in multiset(files) && file in files;
    }
    NoneLarge(plan.standalone, options.maximumMemberSize, all);
    assert Packed(plan.packs, 0) == multiset{};
    assert |all| == |multiset(files)|;
    OnePack(files, options, plan);
    assert Packed(plan.packs, 1) == Packed(plan.packs, 0) + multiset(plan.packs[0]);
    assert |multiset(plan.packs[0])| == |plan.packs[0]|;
  }

  lemma EmptyPack(packs: seq<seq<FileRecord>>, k: nat)
    requires k < |packs| && forall file :: file in Packed(packs, |packs|) ==> file.size == 0
    ensures Total(packs[k]) == 0 && (packs[k] != [] ==> packs[k][0].size == 0)
  {
    PackedCount(packs, k, |packs|);
    forall i | 0 <= i < |packs[k]|
      ensures packs[k][i].size == 0
    {
      assert packs[k][i] in multiset(packs[k]);
    }
    EmptySum(packs[k], |packs[k]|);
  }

  lemma NoneLarge(large: seq<FileRecord>, limit: u64, all: multiset<FileRecord>)
    requires multiset(large) <= all && forall file :: file in all ==> file.size == 0
    requires forall file :: file in large ==> file.size > limit
    ensures large == []
  {
    forall file: FileRecord
      ensures file !in multiset(large)
    {
      assert file in multiset(large) ==> file in large && file in all;
    }
    assert |multiset(large)| == |large|;
    assert multiset(large) == multiset{};
  }

  lemma OnePack(files: seq<FileRecord>, options: PackOptions, plan: Plan)
    requires IsPlan(files, options, plan)
    requires forall file :: file in Packed(plan.packs, |plan.packs|) ==> file.size == 0
    ensures |plan.packs| <= 1
  {
    assert 1 < |plan.packs| ==> Full(plan.packs, 0, options.targetPackSize);
    hide Total, Packed;
    if 1 < |plan.packs| {
      EmptyPack(plan.packs, 0);
      EmptyPack(plan.packs, 1);
      assert false;
    }
  }

  lemma {:induction false} SelectsPartition(files: seq<FileRecord>, limit: u64)
    ensures var small := multiset(Select(files, |files|, limit, false));
      var large := multiset(Select(files, |files|, limit, true));
      && small + large == multiset(files)
      && (forall file :: file in small ==> file.size <= limit)
      && (forall file :: file in large ==> file.size > limit)
  {
    assert files[..|files|] == files;
    forall file: FileRecord
      ensures multiset(Select(files, |files|, limit, false))[file] == if file.size <= limit then multiset(files)[file] else 0
      ensures multiset(Select(files, |files|, limit, true))[file] == if file.size <= limit then 0 else multiset(files)[file]
    {
      SelectCounts(files, |files|, limit, false, file);
      SelectCounts(files, |files|, limit, true, file);
    }
  }

  lemma {:induction false} SelectPermutes(files: seq<FileRecord>, shuffled: seq<FileRecord>, limit: u64, over: bool)
    requires multiset(files) == multiset(shuffled)
    ensures multiset(Select(files, |files|, limit, over)) == multiset(Select(shuffled, |shuffled|, limit, over))
  {
    assert files[..|files|] == files && shuffled[..|shuffled|] == shuffled;
    forall file: FileRecord
      ensures multiset(Select(files, |files|, limit, over))[file] == multiset(Select(shuffled, |shuffled|, limit, over))[file]
    {
      SelectCounts(files, |files|, limit, over, file);
      SelectCounts(shuffled, |shuffled|, limit, over, file);
    }
  }

  lemma DistinctByCount(files: seq<FileRecord>, part: seq<FileRecord>)
    requires DistinctPaths(files) && multiset(part) <= multiset(files)
    ensures DistinctPaths(part)
  {
    forall i, j | 0 <= i < j < |part|
      ensures part[i].path != part[j].path
    {
      if part[i].path == part[j].path {
        assert part[i] in multiset(files) && part[j] in multiset(files);
        SamePathSameFile(files, part[i], part[j]);
        assert part == part[..i] + [part[i]] + part[i + 1..j] + [part[j]] + part[j + 1..];
        assert multiset(part)[part[i]] >= 2;
        CountAtMostOne(files, part[i]);
      }
    }
  }

  lemma {:induction false} CountAtMostOne(files: seq<FileRecord>, file: FileRecord)
    requires DistinctPaths(files)
    ensures multiset(files)[file] <= 1
  {
    if files == [] {
    } else {
      FrontOf(files);
      var last := files[|files| - 1];
      var front := files[..|files| - 1];
      CountAtMostOne(front, file);
      assert last !in front;
    }
  }

  lemma SortPermutes(a: seq<FileRecord>, b: seq<FileRecord>)
    requires multiset(a) == multiset(b) && DistinctPaths(a)
    ensures SortByPath(a) == SortByPath(b)
  {
    SortCorrect(a);
    SortCorrect(b);
    DistinctByCount(a, SortByPath(a));
    SortedUnique(SortByPath(a), SortByPath(b));
  }

  /** With distinct paths, the order in which files are given does not matter. */
  lemma PlanIgnoresOrder(files: seq<FileRecord>, shuffled: seq<FileRecord>, options: PackOptions, a: Plan, b: Plan)
    requires multiset(files) == multiset(shuffled) && DistinctPaths(files)
    requires IsPlan(files, options, a) && IsPlan(shuffled, options, b)
    ensures a == b
  {
    var limit := options.maximumMemberSize;
    assert files[..|files|] == files;
    forall over: bool
      ensures SortByPath(Select(files, |files|, limit, over)) == SortByPath(Select(shuffled, |shuffled|, limit, over))
    {
      SelectPermutes(files, shuffled, limit, over);
      forall file: FileRecord
        ensures multiset(Select(files, |files|, limit, over))[file] <= multiset(files)[file]
      {
        SelectCounts(files, |files|, limit, over, file);
      }
      DistinctByCount(files, Select(files, |files|, limit, over));
      SortPermutes(Select(files, |files|, limit, over), Select(shuffled, |shuffled|, limit, over));
    }
    GreedyUnique(a.packs, b.packs, Candidates(files, options), options.targetPackSize);
  }
}
