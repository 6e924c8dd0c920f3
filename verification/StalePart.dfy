/** A run in which a grown listing, sizes and all, passes the check and yields the wrong object. */
module StalePart {
  import opened Common
  import opened Planner
  import opened Replan
  import opened UploadProtocol
  import opened PageGrowth

  const M: u64 := 16 * MIB

  function Source(): (source: seq<byte>)
    ensures |source| == 9 * M
  {
    seq(9 * M, i => if i < 8 * M then 0 else 1)
  }

  /** A plan made with a 64 MiB target: two large parts and a 16 MiB last part. */
  function OldRows(): seq<PartRecord> {
    [FreshPart(0, 1, 0, 4 * M), FreshPart(0, 2, 4 * M, 4 * M), FreshPart(0, 3, 8 * M, M)]
  }

  function Demo(): Setup {
    Setup(0, Source())
  }

  function Whole(part: PartRecord): ETag {
    Sent(Demo(), part)
  }

  /** Every listing gives the sizes of its parts. */
  const ALL_SIZES: set<nat> := {1, 2, 3, 4, 5, 6}

  function FirstDone(): PartRecord {
    OldRows()[0].(status := Complete, etag := Some(Whole(OldRows()[0])))
  }

  /** The first part is confirmed and the rest re-cut to 16 MiB. */
  function NewRows(): seq<PartRecord> {
    [FirstDone(), FreshPart(0, 2, 4 * M, M), FreshPart(0, 3, 5 * M, M),
     FreshPart(0, 4, 6 * M, M), FreshPart(0, 5, 7 * M, M), FreshPart(0, 6, 8 * M, M)]
  }

  function SentAt(n: nat): ETag
    requires 1 <= n <= 3
  {
    Whole(OldRows()[n - 1])
  }

  /** The parts of the old plan that the store accepted first. */
  function FirstParts(k: nat): RemoteParts
    requires k <= 3
  {
    map n | 1 <= n <= k :: SentAt(n)
  }

  /** What the store holds once the parts of the new plan are sent, except part 3. */
  function HeldAt(n: nat): ETag
    requires 1 <= n <= 6
  {
    if n == 1 || n == 3 then SentAt(n) else Whole(NewRows()[n - 1])
  }

  function HeldParts(k: nat): RemoteParts
    requires k <= 6
  {
    map n | 1 <= n <= k :: HeldAt(n)
  }

  function FinalRows(): seq<PartRecord> {
    seq(6, i requires 0 <= i < 6 => NewRows()[i].(status := Complete, etag := Some(HeldAt(i + 1))))
  }

  function Planned(): World {
    World(OldRows(), None, map[], 0, None, None, 1)
  }

  function Begun(): World {
    World(OldRows(), None, map[0 := map[]], 1, None, None, 1)
  }

  function ListedOne(): World {
    Open([FirstDone(), OldRows()[1], OldRows()[2]], FirstParts(3), 1)
  }

  function Delivered(): World {
    World(FinalRows(), Some(0), map[], 1, Some(Assembled(FinalRows(), 6)), None, 6)
  }

  /** Three parts are accepted; a listing of one leads to a re-cut; parts 2, 4, 5 and 6 are sent
      again; a listing of six then confirms the old part 3 for the new one. */
  function WorldAt(i: nat): World {
    if i == 0 then Planned()
    else if i == 1 then Begun()
    else if i <= 5 then Open(OldRows(), FirstParts(i - 2), 1)
    else if i == 6 then ListedOne()
    else if i == 7 then Open(NewRows(), FirstParts(3), 1)
    else if i <= 11 then Open(NewRows(), HeldParts(i - 5), 1)
    else if i == 12 then Open(NewRows(), HeldParts(6), 6)
    else if i == 13 then Open(FinalRows(), HeldParts(6), 6)
    else Delivered()
  }

  function Trace(): seq<World> {
    seq(15, i requires 0 <= i < 15 => WorldAt(i))
  }

  lemma CountsOnPage(parts: RemoteParts)
    requires parts.Keys == {1, 2, 3}
    ensures CountBelow(parts, 1) == 0 && CountBelow(parts, 2) == 1 && CountBelow(parts, 3) == 2
  {
    assert CountBelow(parts, 0) == 0;
  }

  lemma StartsFresh()
    ensures Init(Demo(), Planned()) && !AllSmall(OldRows())
  {
    hide Source;
    var rows := OldRows();
    assert Adjacent(rows, 0) && Adjacent(rows, 1);
    assert rows[0].sourceLength == 4 * M;
  }

  lemma FirstPartsGrow(k: nat)
    requires k < 3
    ensures FirstParts(k + 1) == WithPart(FirstParts(k), k + 1, Whole(OldRows()[k]))
  {
  }

  lemma HeldPartsGrow(k: nat)
    requires 3 <= k < 6
    ensures HeldParts(k + 1) == WithPart(HeldParts(k), k + 1, Whole(NewRows()[k]))
    ensures HeldParts(3) == WithPart(FirstParts(3), 2, Whole(NewRows()[1]))
  {
    hide Whole, OldRows;
  }

  lemma Begins()
    ensures GrowingStep(Demo(), Planned(), Begun())
    ensures GrowingStep(Demo(), Begun(), Open(OldRows(), FirstParts(0), 1))
  {
    hide GrowingStep, Source, OldRows;
    assert FirstParts(0) == map[];
    OpenIsMove(Demo(), Planned(), Begun(), 0);
    OpenIsMove(Demo(), Begun(), Open(OldRows(), FirstParts(0), 1), 0);
  }

  lemma SendsFirst(k: nat)
    requires k < 3
    ensures GrowingStep(Demo(), Open(OldRows(), FirstParts(k), 1), Open(OldRows(), FirstParts(k + 1), 1))
  {
    FirstPartsGrow(k);
    hide GrowingStep, Source, FirstParts, Whole;
    SendsPart(Demo(), OldRows(), FirstParts(k), 1, k + 1);
  }

  lemma SendsAgain(k: nat)
    requires 3 <= k < 6
    ensures GrowingStep(Demo(), Open(NewRows(), HeldParts(k), 1), Open(NewRows(), HeldParts(k + 1), 1))
    ensures GrowingStep(Demo(), Open(NewRows(), FirstParts(3), 1), Open(NewRows(), HeldParts(3), 1))
  {
    HeldPartsGrow(k);
    hide GrowingStep, Source, FirstParts, HeldParts, Whole;
    SendsPart(Demo(), NewRows(), HeldParts(k), 1, k + 1);
    SendsPart(Demo(), NewRows(), FirstParts(3), 1, 2);
  }

  /** A page of one shows the first of the three parts. */
  lemma OnePart(n: nat)
    ensures Listed(FirstParts(3), 1, n) <==> n == 1
    ensures FirstParts(3)[1] == Whole(OldRows()[0])
  {
    CountsOnPage(FirstParts(3));
    hide CountBelow, Whole, OldRows;
  }

  /** Its only part is planned and has the planned size. */
  lemma FirstPasses()
    ensures ListingPasses(Open(OldRows(), FirstParts(3), 1), ALL_SIZES)
  {
    PartBytes(OldRows()[0]);
    hide Range, Whole, FirstParts, Listed;
    forall n: nat
      ensures Listed(FirstParts(3), 1, n) <==> n == 1
    {
      OnePart(n);
    }
    OnePart(1);
    assert Plans(OldRows(), 1) by {
      assert OldRows()[0].partNumber == 1;
    }
  }

  lemma FirstListing()
    ensures CheckedReconcileStep(Open(OldRows(), FirstParts(3), 1), ListedOne(), ALL_SIZES)
    ensures AgreesWithListing(ListedOne().rows, FirstParts(3), 1)
  {
    FirstPasses();
    hide ListingPasses, Range, Whole, FirstParts, Listed;
    forall n: nat
      ensures Listed(FirstParts(3), 1, n) <==> n == 1
    {
      OnePart(n);
    }
    OnePart(1);
  }

  lemma NeedsRecut()
    ensures var rows := ListedOne().rows;
      ConfirmedPrefix(rows) == 1 < |rows| && rows[1].sourceLength > DEFAULT_LIMITS.targetPartSize && NeedsReplan(rows)
  {
    var rows := ListedOne().rows;
    assert ConfirmedFrom(rows, 1) == 1;
    assert ConfirmedPrefix(rows) == 1;
  }

  lemma RecutFollows()
    ensures ReplanStep(Demo(), ListedOne(), Open(NewRows(), FirstParts(3), 1))
  {
    FirstListing();
    NeedsRecut();
    hide ConfirmedFrom, ConfirmedPrefix, NeedsReplan, Whole, Source, AgreesWithListing, FirstParts;
    var rows := ListedOne().rows;
    var limits := TailLimits(1);
    assert DivCeil(5 * M, limits.maximumParts) == 8390;
    assert PartSize(5 * M, limits) == M;
    assert DivCeil(5 * M, M) == 5;
    var tail := Cut(0, 5 * M, M);
    assert TailPlan(rows, 0, 9 * M) == Success(tail);
    forall i | 0 <= i < 5
      ensures tail[i] == FreshPart(0, i + 1, i * M, M)
    {
      CutAt(0, 5 * M, M, i);
    }
    assert Joins(rows, 1, tail, NewRows());
  }

  lemma HeldAllListed(n: nat)
    ensures Listed(HeldParts(6), 6, n) <==> 1 <= n <= 6
    ensures 1 <= n <= 6 ==> n in HeldParts(6) && HeldParts(6)[n] == HeldAt(n)
  {
    CountBelowBound(HeldParts(6), n);
    hide HeldAt, CountBelow;
  }

  /** The old part 3 has the size of the new one. */
  lemma HeldSize(i: nat)
    requires i < 6
    ensures NewRows()[i].partNumber == i + 1 && |HeldAt(i + 1).bytes| == NewRows()[i].sourceLength
  {
    if i == 0 || i == 2 {
      PartBytes(OldRows()[i]);
    } else {
      PartBytes(NewRows()[i]);
    }
    hide Whole;
  }

  lemma FinalRow(i: nat)
    requires i < 6
    ensures |NewRows()| == 6 == |FinalRows()| && NewRows()[i].partNumber == i + 1
    ensures FinalRows()[i] == ReconciledRow(NewRows()[i], HeldParts(6), 6)
  {
    HeldAllListed(i + 1);
    hide Listed, HeldAt, HeldParts, Whole;
  }

  /** Every part of the listing is planned and has the planned size. */
  lemma LastPasses()
    ensures ListingPasses(Open(NewRows(), HeldParts(6), 6), ALL_SIZES)
  {
    hide Listed, HeldAt, HeldParts, NewRows;
    forall n: nat | Listed(HeldParts(6), 6, n)
      ensures Plans(NewRows(), n)
    {
      HeldAllListed(n);
      FinalRow(n - 1);
    }
    forall i | 0 <= i < |NewRows()|
      ensures NewRows()[i].partNumber == i + 1 && i < 6
      ensures i + 1 in HeldParts(6) && |HeldParts(6)[i + 1].bytes| == NewRows()[i].sourceLength
    {
      FinalRow(0);
      HeldSize(i);
      HeldAllListed(i + 1);
    }
  }

  /** All six parts are listed, and confirmed as they are. */
  lemma LastListing()
    ensures CheckedReconcileStep(Open(NewRows(), HeldParts(6), 6), Open(FinalRows(), HeldParts(6), 6), ALL_SIZES)
  {
    LastPasses();
    FinalRow(0);
    hide ListingPasses, HeldParts, FinalRows, NewRows, ReconciledRow;
    forall i | 0 <= i < |NewRows()|
      ensures FinalRows()[i] == ReconciledRow(NewRows()[i], HeldParts(6), 6)
    {
      FinalRow(i);
    }
  }

  lemma Delivers()
    ensures CompleteStep(Open(FinalRows(), HeldParts(6), 6), Delivered())
  {
    hide Whole, Assembled;
    forall i | 0 <= i < 6
      ensures FinalRows()[i].partNumber == i + 1 && FinalRows()[i].etag == Some(HeldParts(6)[i + 1])
    {
    }
  }

  lemma CompleteIsStep(s: Setup, w: World, w': World)
    requires CompleteStep(w, w')
    ensures GrowingStep(s, w, w')
  {
  }

  lemma {:induction false} AssembledGrows(rows: seq<PartRecord>, j: nat, k: nat)
    requires j <= k <= |rows|
    ensures Assembled(rows, j) <= Assembled(rows, k)
    decreases k - j
  {
    if j == k {
      assert Assembled(rows, j) == Assembled(rows, k);
    } else {
      AssembledGrows(rows, j, k - 1);
    }
  }

  /** The byte at 80 MiB comes from the old part 3. */
  lemma WrongByte()
    ensures var bytes := Assembled(FinalRows(), 6); 5 * M < |bytes| && bytes[5 * M] == 1 && Source()[5 * M] == 0
  {
    var rows := FinalRows();
    assert Assembled(rows, 0) == [];
    assert rows[0].etag == Some(Whole(OldRows()[0])) && rows[1].etag == Some(Whole(NewRows()[1]));
    assert rows[2].etag == Some(Whole(OldRows()[2]));
    PartBytes(OldRows()[0]);
    PartBytes(NewRows()[1]);
    PartBytes(OldRows()[2]);
    hide Whole, FinalRows;
    assert |Assembled(rows, 1)| == 4 * M;
    assert |Assembled(rows, 2)| == 5 * M;
    assert Assembled(rows, 3) == Assembled(rows, 2) + Whole(OldRows()[2]).bytes;
    assert Assembled(rows, 3)[5 * M] == 1;
    AssembledGrows(rows, 3, 6);
  }

  lemma PartBytes(part: PartRecord)
    requires part.End() <= 9 * M
    ensures |Whole(part).bytes| == part.sourceLength
    ensures part.sourceOffset == 8 * M && 0 < part.sourceLength ==> Whole(part).bytes[0] == 1
  {
  }

  lemma MorePages(rows: seq<PartRecord>, parts: RemoteParts)
    ensures GrowingStep(Demo(), Open(rows, parts, 1), Open(rows, parts, 6))
  {
    assert AnyPageStep(Open(rows, parts, 1), Open(rows, parts, 6));
  }

  lemma GrowsAt(i: nat)
    requires i < 14
    ensures GrowingStep(Demo(), WorldAt(i), WorldAt(i + 1))
  {
    hide GrowingStep, CheckedReconcileStep, ReplanStep, CompleteStep, Source, Planned, Begun, Open, OldRows, NewRows,
         FirstParts, HeldParts, ListedOne, FinalRows, Delivered;
    var s := Demo();
    if i <= 1 {
      Begins();
    } else if i <= 4 {
      SendsFirst(i - 2);
    } else if i == 5 {
      FirstListing();
      ReconcileIsGrowing(s, WorldAt(5), WorldAt(6), ALL_SIZES);
    } else if i == 6 {
      RecutFollows();
      ReplanIsGrowing(s, WorldAt(6), WorldAt(7));
    } else if i == 7 {
      SendsAgain(3);
    } else if i <= 10 {
      SendsAgain(i - 5);
    } else if i == 11 {
      MorePages(NewRows(), HeldParts(6));
    } else if i == 12 {
      LastListing();
      ReconcileIsGrowing(s, WorldAt(12), WorldAt(13), ALL_SIZES);
    } else {
      Delivers();
      CompleteIsStep(s, WorldAt(13), WorldAt(14));
    }
  }

  lemma PublishesWrong()
    ensures Delivered().published.Some? && Delivered().published.value != Source()
  {
    WrongByte();
    hide Assembled;
  }

  /** From a fresh plan over the target size, with listings that show one part and later six, each
      with its size, a run publishes an object that is not the source. */
  lemma GrownPagePublishesWrongBytes()
    ensures var s := Demo();
      && Init(s, Trace()[0]) && GrowingRun(s, Trace())
      && var last := Trace()[|Trace()| - 1];
      last.published.Some? && last.published.value != s.source
  {
    hide GrowingStep, Init, Source, WorldAt;
    var s, t := Demo(), Trace();
    StartsFresh();
    PublishesWrong();
    Ends();
    forall i | 0 <= i < |t| - 1
      ensures GrowingStepAt(s, t, i)
    {
      GrowsAt(i);
    }
  }

  lemma Ends()
    ensures WorldAt(0) == Planned() && WorldAt(14) == Delivered()
  {
    hide Planned, Delivered;
  }
}
