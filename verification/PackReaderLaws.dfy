/** The incremental reader accepts what the batch decoder accepts and the manifest describes. */
module PackReaderLaws {
  import opened Common
  import opened Files
  import opened PackFormat
  import opened PackReader

  /** These members, read after `index` others of `bodyTotal` bytes, complete the plan. */
  ghost predicate Fulfils(plan: DownloadPlan, members: seq<Member>, index: nat, bodyTotal: nat) {
    && index + |members| == plan.packMemberCount
    && bodyTotal + SizeSum(members) == plan.packOriginalBytes
    && plan.memberIndex < index + |members|
    && (index <= plan.memberIndex ==> members[plan.memberIndex - index].header == plan.selected)
  }

  /** What extraction delivers: the selected member's bytes. */
  ghost function Selected(plan: DownloadPlan, members: seq<Member>, index: nat): seq<byte> {
    if index <= plan.memberIndex < index + |members| then members[plan.memberIndex - index].content else []
  }

  /** The batch decoder takes the stream within the browser's limits, and the manifest's totals
      and selected member match. */
  ghost predicate Downloadable(plan: DownloadPlan, parse: Parser, s: seq<byte>) {
    && Decode(parse, BROWSER_LIMITS, s).Some?
    && Fulfils(plan, Decode(parse, BROWSER_LIMITS, s).value, 0, 0)
  }

  /** Feeding `s` ends in acceptance exactly when `members` were decoded and complete the plan. */
  ghost predicate Agrees(plan: DownloadPlan, parse: Parser, st: State, s: seq<byte>, members: Option<seq<Member>>) {
    var end := Feed(plan, parse, st, s);
    && (Finishes(plan, end) <==> members.Some? && Fulfils(plan, members.value, st.index, st.bodyTotal))
    && (Finishes(plan, end) ==> end.consumed == st.consumed + Selected(plan, members.value, st.index))
  }

  ghost predicate Between(plan: DownloadPlan, st: State) {
    && st.pending == [] && st.bodyTotal <= plan.packOriginalBytes
    && st.found == (plan.memberIndex < st.index)
  }

  lemma Rejected(plan: DownloadPlan, parse: Parser, st: State, s: seq<byte>)
    requires st.phase.Failed?
    ensures !Finishes(plan, Feed(plan, parse, st, s))
  {
    FeedFailed(plan, parse, st, s);
  }

  /** A stream that ends inside a field is not accepted. */
  lemma Truncated(plan: DownloadPlan, parse: Parser, st: State, s: seq<byte>)
    requires InField(st) && st.pending == [] && |s| < Required(st.phase)
    ensures !Finishes(plan, Feed(plan, parse, st, s))
  {
    FeedField(plan, parse, st, s);
  }

  /** A whole field at the front of the stream. */
  lemma WholeField(plan: DownloadPlan, parse: Parser, st: State, s: seq<byte>, n: nat)
    requires InField(st) && st.pending == [] && n == Required(st.phase) <= |s|
    ensures Feed(plan, parse, st, s) == Feed(plan, parse, Complete(plan, parse, st, s[..n]), s[n..])
  {
    CutChunk(plan, parse, st, s, 0, n);
    FeedField(plan, parse, st, s[0..n]);
    assert s[0..n] == s[..n] && s[0..] == s && [] + s[..n] == s[..n] && st.(pending := []) == st;
  }

  lemma {:induction false} FeedBlocks(plan: DownloadPlan, parse: Parser, st: State, s: seq<byte>)
    requires st.phase.HeaderSize? && Between(plan, st)
    ensures Agrees(plan, parse, st, s, DecodeBlocks(parse, BROWSER_LIMITS, s))
    decreases |s|, 2
  {
    hide Feed;
    if |s| < 4 {
      Truncated(plan, parse, st, s);
    } else {
      WholeField(plan, parse, st, s, 4);
      var length := FromLittleEndian(s[..4]);
      var next := Complete(plan, parse, st, s[..4]);
      if next.phase.Failed? {
        Rejected(plan, parse, next, s[4..]);
        TooManyMembers(plan, parse, st, s);
      } else if length == 0 {
        EndOfPack(plan, parse, next, s[4..]);
      } else {
        FeedHeader(plan, parse, next, s[4..]);
        DecodeAfterLength(parse, s, length);
      }
    }
  }

  ghost function AfterLength(parse: Parser, length: nat, s: seq<byte>): Option<seq<Member>> {
    if |s| < length || parse(s[..length]).None? then None
    else DecodeContent(parse, BROWSER_LIMITS, parse(s[..length]).value, s[length..])
  }

  lemma {:induction false} DecodeAfterLength(parse: Parser, s: seq<byte>, length: nat)
    requires 4 <= |s| && length == FromLittleEndian(s[..4]) && 0 < length <= MAXIMUM_HEADER_BYTES
    ensures DecodeBlocks(parse, BROWSER_LIMITS, s) == AfterLength(parse, length, s[4..])
  {
    if 4 + length <= |s| {
      assert s[4..][..length] == s[4..4 + length];
      assert s[4..][length..] == s[4 + length..];
    }
  }

  /** A header over the limit, or one more member than planned, cannot complete the plan. */
  lemma TooManyMembers(plan: DownloadPlan, parse: Parser, st: State, s: seq<byte>)
    requires 4 <= |s| && Complete(plan, parse, st, s[..4]).phase.Failed? && st.phase.HeaderSize?
    ensures var members := DecodeBlocks(parse, BROWSER_LIMITS, s);
      members.None? || !Fulfils(plan, members.value, st.index, st.bodyTotal)
  {
  }

  lemma EndOfPack(plan: DownloadPlan, parse: Parser, st: State, s: seq<byte>)
    requires st.phase.Done? && Between(plan, st)
    ensures Agrees(plan, parse, st, s, if s == [] then Some([]) else None)
  {
    if s != [] {
      TrailingByte(plan, parse, st, s);
    } else {
      assert st.consumed + [] == st.consumed;
    }
  }

  lemma {:induction false} FeedHeader(plan: DownloadPlan, parse: Parser, st: State, s: seq<byte>)
    requires st.phase.HeaderText? && 0 < st.phase.size && Between(plan, st) && st.index < plan.packMemberCount
    ensures Agrees(plan, parse, st, s, AfterLength(parse, st.phase.size, s))
    decreases |s|, 1
  {
    hide Feed;
    var length := st.phase.size;
    if |s| < length {
      Truncated(plan, parse, st, s);
    } else {
      WholeField(plan, parse, st, s, length);
      var next := Complete(plan, parse, st, s[..length]);
      if next.phase.Failed? {
        Rejected(plan, parse, next, s[length..]);
      } else {
        FeedSize(plan, parse, next, s[length..]);
      }
    }
  }

  lemma {:induction false} FeedSize(plan: DownloadPlan, parse: Parser, st: State, s: seq<byte>)
    requires st.phase.Size? && Between(plan, st) && st.index < plan.packMemberCount
    ensures Agrees(plan, parse, st, s, DecodeContent(parse, BROWSER_LIMITS, st.phase.header, s))
    decreases |s|, 0
  {
    hide Feed, DecodeBlocks;
    if |s| < 8 {
      Truncated(plan, parse, st, s);
    } else {
      WholeField(plan, parse, st, s, 8);
      var size := FromLittleEndian(s[..8]);
      var next := Complete(plan, parse, st, s[..8]);
      if next.phase.Failed? {
        Rejected(plan, parse, next, s[8..]);
        WrongMember(plan, parse, st, s);
      } else if |s| < 8 + size {
        CutBody(plan, parse, next, s[8..]);
      } else {
        var after := AfterBody(plan, st, s[8..8 + size]);
        WholeBody(plan, parse, st, s, size);
        FeedBlocks(plan, parse, after, s[8 + size..]);
        PrependAgrees(plan, parse, st, s, size);
      }
    }
  }

  /** The state once a member's body has been read. */
  ghost function AfterBody(plan: DownloadPlan, st: State, content: seq<byte>): State {
    var selected := st.index == plan.memberIndex;
    st.(phase := HeaderSize, index := st.index + 1, bodyTotal := st.bodyTotal + |content|,
        found := st.found || selected,
        consumed := if selected then st.consumed + content else st.consumed)
  }

  lemma CutBody(plan: DownloadPlan, parse: Parser, st: State, s: seq<byte>)
    requires st.phase.Body? && |s| < st.phase.remaining
    ensures !Finishes(plan, Feed(plan, parse, st, s))
  {
    FeedBody(plan, parse, st, s);
  }

  lemma WholeBody(plan: DownloadPlan, parse: Parser, st: State, s: seq<byte>, size: nat)
    requires st.phase.Size? && st.pending == [] && 8 + size <= |s| && size == FromLittleEndian(s[..8])
    requires !Complete(plan, parse, st, s[..8]).phase.Failed?
    ensures Feed(plan, parse, Complete(plan, parse, st, s[..8]), s[8..])
         == Feed(plan, parse, AfterBody(plan, st, s[8..8 + size]), s[8 + size..])
  {
    var next := Complete(plan, parse, st, s[..8]);
    var content := s[8..8 + size];
    if size == 0 {
      assert content == [] && st.consumed + content == st.consumed;
    } else {
      CutChunk(plan, parse, next, s[8..], 0, size);
      assert s[8..][0..] == s[8..] && s[8..][0..0 + size] == content && s[8..][0 + size..] == s[8 + size..];
      FeedBody(plan, parse, next, content);
    }
  }

  lemma {:induction false} WrongMember(plan: DownloadPlan, parse: Parser, st: State, s: seq<byte>)
    requires st.phase.Size? && Between(plan, st) && 8 <= |s| && Complete(plan, parse, st, s[..8]).phase.Failed?
    ensures var members := DecodeContent(parse, BROWSER_LIMITS, st.phase.header, s);
      members.None? || !Fulfils(plan, members.value, st.index, st.bodyTotal)
  {
    hide DecodeBlocks;
    var members := DecodeContent(parse, BROWSER_LIMITS, st.phase.header, s);
    if members.Some? {
      var size := FromLittleEndian(s[..8]);
      var rest := DecodeBlocks(parse, BROWSER_LIMITS, s[8 + size..]).value;
      var member := Member(st.phase.header, s[8..8 + size]);
      assert members == Some([member] + rest);
      hide Fulfils;
      MemberFits(plan, member, rest, st.index, st.bodyTotal);
    }
  }

  lemma MemberFits(plan: DownloadPlan, member: Member, rest: seq<Member>, index: nat, bodyTotal: nat)
    ensures Fulfils(plan, [member] + rest, index, bodyTotal) ==>
      && bodyTotal + member.header.size <= plan.packOriginalBytes
      && (index == plan.memberIndex ==> member.header == plan.selected)
  {
    assert ([member] + rest)[1..] == rest;
  }

  lemma PrependAgrees(plan: DownloadPlan, parse: Parser, st: State, s: seq<byte>, size: nat)
    requires st.phase.Size? && Between(plan, st) && 8 + size <= |s| && size == FromLittleEndian(s[..8])
    requires !Complete(plan, parse, st, s[..8]).phase.Failed?
    requires Agrees(plan, parse, AfterBody(plan, st, s[8..8 + size]), s[8 + size..],
                    DecodeBlocks(parse, BROWSER_LIMITS, s[8 + size..]))
    requires Feed(plan, parse, st, s) == Feed(plan, parse, AfterBody(plan, st, s[8..8 + size]), s[8 + size..])
    ensures Agrees(plan, parse, st, s, DecodeContent(parse, BROWSER_LIMITS, st.phase.header, s))
  {
    hide DecodeBlocks, Feed;
    var rest := DecodeBlocks(parse, BROWSER_LIMITS, s[8 + size..]);
    if rest.Some? {
      var content := s[8..8 + size];
      var members := [Member(st.phase.header, content)] + rest.value;
      assert members[1..] == rest.value;
      FulfilsPrepend(plan, members[0], rest.value, st.index, st.bodyTotal);
      SelectedPrepend(plan, members[0], rest.value, st);
    }
  }

  lemma FulfilsPrepend(plan: DownloadPlan, member: Member, rest: seq<Member>, index: nat, bodyTotal: nat)
    requires index == plan.memberIndex ==> member.header == plan.selected
    ensures Fulfils(plan, [member] + rest, index, bodyTotal)
       <==> Fulfils(plan, rest, index + 1, bodyTotal + member.header.size)
  {
    var members := [member] + rest;
    assert members[1..] == rest;
    if index < plan.memberIndex < index + |members| {
      assert members[plan.memberIndex - index] == rest[plan.memberIndex - (index + 1)];
    }
  }

  lemma SelectedPrepend(plan: DownloadPlan, member: Member, rest: seq<Member>, st: State)
    ensures AfterBody(plan, st, member.content).consumed + Selected(plan, rest, st.index + 1)
         == st.consumed + Selected(plan, [member] + rest, st.index)
  {
    var members := [member] + rest;
    if st.index == plan.memberIndex {
      assert Selected(plan, rest, st.index + 1) == [];
    } else if st.index < plan.memberIndex < st.index + |members| {
      assert members[plan.memberIndex - st.index] == rest[plan.memberIndex - (st.index + 1)];
    }
  }

  /** Fed from the start, the reader accepts exactly the downloadable streams, and has then
      consumed exactly the selected member. */
  lemma FeedAccepts(plan: DownloadPlan, parse: Parser, s: seq<byte>)
    ensures var end := Feed(plan, parse, START, s);
      && (Finishes(plan, end) <==> Downloadable(plan, parse, s))
      && (Finishes(plan, end) ==>
            end.consumed == Decode(parse, BROWSER_LIMITS, s).value[plan.memberIndex].content)
  {
    hide Feed, DecodeBlocks;
    if |s| < 8 {
      Truncated(plan, parse, START, s);
    } else {
      WholeField(plan, parse, START, s, 8);
      var next := Complete(plan, parse, START, s[..8]);
      if next.phase.Failed? {
        Rejected(plan, parse, next, s[8..]);
      } else {
        FeedBlocks(plan, parse, next, s[8..]);
      }
    }
  }

  /** The decoding bound refuses nothing that the other checks would accept. */
  lemma BoundIsSlack(plan: DownloadPlan, parse: Parser, s: seq<byte>)
    requires Downloadable(plan, parse, s)
    ensures |s| <= plan.MaximumDecoded()
  {
    LengthBound(parse, BROWSER_LIMITS, s[8..]);
  }

  /** A failure in a prefix of the stream is a refusal of the stream. */
  lemma {:induction false} PrefixRefused(plan: DownloadPlan, parse: Parser, start: seq<byte>, s: seq<byte>)
    requires start <= s
    requires |start| > plan.MaximumDecoded() || Feed(plan, parse, START, start).phase.Failed?
    ensures !Downloadable(plan, parse, s)
  {
    if Downloadable(plan, parse, s) {
      BoundIsSlack(plan, parse, s);
      assert s == start + s[|start|..];
      FeedAppend(plan, parse, START, start, s[|start|..]);
      FeedFailed(plan, parse, Feed(plan, parse, START, start), s[|start|..]);
      FeedAccepts(plan, parse, s);
    }
  }

  // ---- Chunks ----

  /** How many chunks, counted on from `i`, arrive before the decoding bound is exceeded. */
  function WithinBound(plan: DownloadPlan, chunks: seq<seq<byte>>, i: nat): (k: nat)
    requires i <= |chunks|
    ensures i <= k <= |chunks|
    decreases |chunks| - i
  {
    if i < |chunks| && |Concat(chunks, i + 1)| <= plan.MaximumDecoded() then WithinBound(plan, chunks, i + 1) else i
  }

  /** What a download has handed on when it ends, accepted or refused. */
  function ConsumedBy(plan: DownloadPlan, parse: Parser, chunks: seq<seq<byte>>): seq<byte> {
    Feed(plan, parse, START, Concat(chunks, WithinBound(plan, chunks, 0))).consumed
  }

  lemma {:induction false} AllWithinBound(plan: DownloadPlan, chunks: seq<seq<byte>>, i: nat)
    requires i <= |chunks| && |Concat(chunks, |chunks|)| <= plan.MaximumDecoded()
    ensures WithinBound(plan, chunks, i) == |chunks|
    decreases |chunks| - i
  {
    if i == |chunks| {
      assert WithinBound(plan, chunks, i) == i;
    } else {
      ConcatPrefix(chunks, i + 1, |chunks|);
      AllWithinBound(plan, chunks, i + 1);
    }
  }

  /** For a stream within the decoding bound, accepted or refused, what was handed on does not
      depend on the chunks. */
  lemma ChunksDoNotMatter(plan: DownloadPlan, parse: Parser, chunks: seq<seq<byte>>)
    requires |Concat(chunks, |chunks|)| <= plan.MaximumDecoded()
    ensures ConsumedBy(plan, parse, chunks) == Feed(plan, parse, START, Concat(chunks, |chunks|)).consumed
  {
    AllWithinBound(plan, chunks, 0);
  }

  /** What was handed on is never taken back. */
  lemma {:induction false} ConsumedGrows(plan: DownloadPlan, parse: Parser, st: State, s: seq<byte>)
    ensures st.consumed <= Feed(plan, parse, st, s).consumed
    decreases |s|
  {
    if s == [] {
      NothingFed(plan, parse, st, s);
    } else {
      ByteConsumes(plan, parse, st, s[0]);
      ConsumedGrows(plan, parse, StepByte(plan, parse, st, s[0]), s[1..]);
      hide StepByte;
    }
  }

  lemma ByteConsumes(plan: DownloadPlan, parse: Parser, st: State, b: byte)
    ensures st.consumed <= StepByte(plan, parse, st, b).consumed
  {
    CompleteConsumesNothing(plan, parse, st.(pending := []), st.pending + [b]);
    hide Complete;
  }

  /** A shorter start of the stream hands on no more than a longer one. */
  lemma PrefixConsumes(plan: DownloadPlan, parse: Parser, start: seq<byte>, s: seq<byte>)
    requires start <= s
    ensures Feed(plan, parse, START, start).consumed <= Feed(plan, parse, START, s).consumed
  {
    assert s == start + s[|start|..];
    FeedAppend(plan, parse, START, start, s[|start|..]);
    ConsumedGrows(plan, parse, Feed(plan, parse, START, start), s[|start|..]);
  }

  lemma {:induction false} WithinBoundIsWithin(plan: DownloadPlan, chunks: seq<seq<byte>>, i: nat)
    requires i <= |chunks| && |Concat(chunks, i)| <= plan.MaximumDecoded()
    ensures |Concat(chunks, WithinBound(plan, chunks, i))| <= plan.MaximumDecoded()
    decreases |chunks| - i
  {
    if i == |chunks| {
      assert WithinBound(plan, chunks, i) == i;
    } else if |Concat(chunks, i + 1)| <= plan.MaximumDecoded() {
      WithinBoundIsWithin(plan, chunks, i + 1);
    }
  }

  lemma WholeOrNothing(plan: DownloadPlan, parse: Parser, s: seq<byte>)
    ensures Concat([s], 1) == s
    ensures ConsumedBy(plan, parse, [s]) == if |s| <= plan.MaximumDecoded() then Feed(plan, parse, START, s).consumed else []
  {
    assert Concat([s], 0) == [] && Concat([s], 1) == [] + s == s;
    NothingFed(plan, parse, START, []);
    hide Feed;
    if |s| <= plan.MaximumDecoded() {
      AllWithinBound(plan, [s], 0);
    } else {
      assert WithinBound(plan, [s], 0) == 0;
    }
  }

  /** Every way to cut the stream into chunks hands on what one whole chunk does. */
  ghost predicate ChunksAgree(plan: DownloadPlan, parse: Parser, s: seq<byte>) {
    forall chunks :: Concat(chunks, |chunks|) == s ==> ConsumedBy(plan, parse, chunks) == ConsumedBy(plan, parse, [s])
  }

  /** An over-long stream cut at the bound hands on what the walk does up to there. */
  lemma CutAtBound(plan: DownloadPlan, parse: Parser, s: seq<byte>)
    requires plan.MaximumDecoded() < |s|
    ensures var chunks := [s[..plan.MaximumDecoded()], s[plan.MaximumDecoded()..]];
      && Concat(chunks, 2) == s
      && ConsumedBy(plan, parse, chunks) == Feed(plan, parse, START, s[..plan.MaximumDecoded()]).consumed
  {
    hide Feed;
    var start, rest := s[..plan.MaximumDecoded()], s[plan.MaximumDecoded()..];
    var chunks := [start, rest];
    assert Concat(chunks, 0) == [] && Concat(chunks, 1) == [] + start == start;
    assert Concat(chunks, 2) == start + rest == s;
    assert WithinBound(plan, chunks, 1) == 1 == WithinBound(plan, chunks, 0);
  }

  /** The chunks make no difference to what is handed on, exactly when the stream is within the
      decoding bound or hands on nothing before it. */
  lemma ChunksAgreeExactly(plan: DownloadPlan, parse: Parser, s: seq<byte>)
    ensures ChunksAgree(plan, parse, s) <==>
      |s| <= plan.MaximumDecoded() || Feed(plan, parse, START, s[..plan.MaximumDecoded()]).consumed == []
  {
    hide Feed, ConsumedBy;
    var bound := plan.MaximumDecoded();
    WholeOrNothing(plan, parse, s);
    if |s| <= bound {
      forall chunks | Concat(chunks, |chunks|) == s
        ensures ConsumedBy(plan, parse, chunks) == ConsumedBy(plan, parse, [s])
      {
        ChunksDoNotMatter(plan, parse, chunks);
      }
    } else {
      CutAtBound(plan, parse, s);
      if Feed(plan, parse, START, s[..bound]).consumed == [] {
        forall chunks | Concat(chunks, |chunks|) == s
          ensures ConsumedBy(plan, parse, chunks) == ConsumedBy(plan, parse, [s])
        {
          ConsumedBeforeBound(plan, parse, chunks);
        }
      }
    }
  }

  lemma ConsumedBeforeBound(plan: DownloadPlan, parse: Parser, chunks: seq<seq<byte>>)
    requires plan.MaximumDecoded() < |Concat(chunks, |chunks|)|
    ensures ConsumedBy(plan, parse, chunks) <= Feed(plan, parse, START, Concat(chunks, |chunks|)[..plan.MaximumDecoded()]).consumed
  {
    hide Feed;
    var k := WithinBound(plan, chunks, 0);
    var s := Concat(chunks, |chunks|);
    assert Concat(chunks, 0) == [];
    WithinBoundIsWithin(plan, chunks, 0);
    ConcatPrefix(chunks, k, |chunks|);
    assert Concat(chunks, k) <= s[..plan.MaximumDecoded()];
    PrefixConsumes(plan, parse, Concat(chunks, k), s[..plan.MaximumDecoded()]);
  }

  /** Nothing is handed on after the walk has failed. */
  lemma FailedConsumes(plan: DownloadPlan, parse: Parser, chunks: seq<seq<byte>>, j: nat, k: nat)
    requires j <= k <= |chunks| && Feed(plan, parse, START, Concat(chunks, j)).phase.Failed?
    ensures Feed(plan, parse, START, Concat(chunks, k)) == Feed(plan, parse, START, Concat(chunks, j))
  {
    ConcatPrefix(chunks, j, k);
    var before, after := Concat(chunks, j), Concat(chunks, k);
    assert after == before + after[|before|..];
    FeedAppend(plan, parse, START, before, after[|before|..]);
    FeedFailed(plan, parse, Feed(plan, parse, START, before), after[|before|..]);
  }

  /** Where the download stops at chunk `i`: over the bound, or at a byte that fails. */
  lemma StopsAt(plan: DownloadPlan, parse: Parser, chunks: seq<seq<byte>>, i: nat, consumed: seq<byte>)
    requires i < |chunks| && WithinBound(plan, chunks, 0) == WithinBound(plan, chunks, i)
    requires var before, after := Concat(chunks, i), Concat(chunks, i + 1);
      if |after| > plan.MaximumDecoded() then consumed == Feed(plan, parse, START, before).consumed
      else Feed(plan, parse, START, after).phase.Failed? && consumed == Feed(plan, parse, START, after).consumed
    ensures !Downloadable(plan, parse, Concat(chunks, |chunks|))
    ensures consumed == ConsumedBy(plan, parse, chunks)
  {
    hide Downloadable, Feed;
    ConcatPrefix(chunks, i + 1, |chunks|);
    PrefixRefused(plan, parse, Concat(chunks, i + 1), Concat(chunks, |chunks|));
    if |Concat(chunks, i + 1)| <= plan.MaximumDecoded() {
      FailedConsumes(plan, parse, chunks, i + 1, WithinBound(plan, chunks, i));
    }
  }

  lemma GoesOn(plan: DownloadPlan, chunks: seq<seq<byte>>, i: nat)
    requires i < |chunks|
    ensures Concat(chunks, i + 1) == Concat(chunks, i) + chunks[i]
    ensures |Concat(chunks, i + 1)| <= plan.MaximumDecoded() ==>
      WithinBound(plan, chunks, i) == WithinBound(plan, chunks, i + 1)
  {
  }

  lemma AllConsumed(plan: DownloadPlan, parse: Parser, chunks: seq<seq<byte>>)
    requires WithinBound(plan, chunks, 0) == WithinBound(plan, chunks, |chunks|)
    ensures ConsumedBy(plan, parse, chunks) == Feed(plan, parse, START, Concat(chunks, |chunks|)).consumed
  {
    hide Feed;
  }

  /** However the stream is cut into chunks, the download is accepted exactly when the whole
      stream is downloadable, and it then delivers the selected member. */
  method Download(plan: DownloadPlan, parse: Parser, chunks: seq<seq<byte>>)
    returns (content: Option<seq<byte>>, consumed: seq<byte>)
    ensures content.Some? <==> Downloadable(plan, parse, Concat(chunks, |chunks|))
    ensures content.Some? ==>
      content.value == Decode(parse, BROWSER_LIMITS, Concat(chunks, |chunks|)).value[plan.memberIndex].content
    ensures consumed == ConsumedBy(plan, parse, chunks)
  {
    hide *;
    var reader := new CourierPackReader(plan, parse);
    NothingFed(plan, parse, START, []);
    var i := 0;
    assert Concat(chunks, 0) == [] by {
      NothingYet(chunks);
    }
    while i < |chunks|
      invariant 0 <= i <= |chunks|
      invariant fresh(reader) && reader.Valid() && reader.plan == plan && reader.parse == parse
      invariant reader.Abs() == Feed(plan, parse, START, Concat(chunks, i))
      invariant reader.total == |Concat(chunks, i)|
      invariant WithinBound(plan, chunks, 0) == WithinBound(plan, chunks, i)
    {
      GoesOn(plan, chunks, i);
      FeedAppend(plan, parse, START, Concat(chunks, i), chunks[i]);
      var ok := reader.Push(chunks[i]);
      if !ok {
        StopsAt(plan, parse, chunks, i, reader.consumed);
        return None, reader.consumed;
      }
      i := i + 1;
    }
    FeedAccepts(plan, parse, Concat(chunks, |chunks|));
    AllConsumed(plan, parse, chunks);
    var ok := reader.Finish();
    return if ok then Some(reader.consumed) else None, reader.consumed;
  }

  lemma NothingYet(chunks: seq<seq<byte>>)
    ensures Concat(chunks, 0) == []
  {
  }

  // ---- A stream over the bound ----

  const HEADER: Header := Header("a", 1, Sha256, "")

  function ParseAny(bytes: seq<byte>): Option<Header> {
    Some(HEADER)
  }

  /** One member of one byte. */
  const ONE_BYTE: DownloadPlan := DownloadPlan(1, 1, 0, HEADER)

  /** A pack up to the end of its only member, with a header of one byte. */
  const UP_TO_BODY: seq<byte> := MAGIC + [1, 0, 0, 0] + [0] + [1, 0, 0, 0, 0, 0, 0, 0] + [7]

  function Zeros(): (zeros: seq<byte>)
    ensures |zeros| == ONE_BYTE.MaximumDecoded()
  {
    seq(ONE_BYTE.MaximumDecoded(), _ => 0)
  }

  lemma MagicRead(s: seq<byte>)
    requires 8 <= |s| && s[..8] == MAGIC
    ensures Feed(ONE_BYTE, ParseAny, START, s) == Feed(ONE_BYTE, ParseAny, START.(phase := HeaderSize), s[8..])
  {
    hide Feed;
    WholeField(ONE_BYTE, ParseAny, START, s, 8);
  }

  lemma LengthRead(s: seq<byte>)
    requires 4 <= |s| && s[..4] == [1, 0, 0, 0]
    ensures Feed(ONE_BYTE, ParseAny, START.(phase := HeaderSize), s)
         == Feed(ONE_BYTE, ParseAny, START.(phase := HeaderText(1)), s[4..])
  {
    OneInFour();
    hide Feed, FromLittleEndian;
    WholeField(ONE_BYTE, ParseAny, START.(phase := HeaderSize), s, 4);
  }

  lemma HeaderRead(s: seq<byte>)
    requires 1 <= |s|
    ensures Feed(ONE_BYTE, ParseAny, START.(phase := HeaderText(1)), s)
         == Feed(ONE_BYTE, ParseAny, START.(phase := Size(HEADER)), s[1..])
  {
    hide Feed;
    WholeField(ONE_BYTE, ParseAny, START.(phase := HeaderText(1)), s, 1);
  }

  lemma SizeRead(s: seq<byte>)
    requires 8 <= |s| && s[..8] == [1, 0, 0, 0, 0, 0, 0, 0]
    ensures Feed(ONE_BYTE, ParseAny, START.(phase := Size(HEADER)), s)
         == Feed(ONE_BYTE, ParseAny, State(Body(1, true), [], 0, 1, true, []), s[8..])
  {
    OneInEight();
    hide Feed, FromLittleEndian;
    WholeField(ONE_BYTE, ParseAny, START.(phase := Size(HEADER)), s, 8);
  }

  lemma BodyConsumed()
    ensures Feed(ONE_BYTE, ParseAny, START, UP_TO_BODY).consumed == [7]
  {
    hide Feed;
    var s := UP_TO_BODY;
    assert s[..8] == MAGIC;
    MagicRead(s);
    assert s[8..][..4] == [1, 0, 0, 0] && s[8..][4..] == s[12..];
    LengthRead(s[8..]);
    assert s[12..][1..] == s[13..];
    HeaderRead(s[12..]);
    assert s[13..][..8] == [1, 0, 0, 0, 0, 0, 0, 0] && s[13..][8..] == [7];
    SizeRead(s[13..]);
    FeedBody(ONE_BYTE, ParseAny, State(Body(1, true), [], 0, 1, true, []), [7]);
    assert [] + [7] == [7];
  }

  lemma OneInFour()
    ensures FromLittleEndian([1, 0, 0, 0]) == 1
  {
    Widths();
    LittleEndianRoundTrip(1, 4);
    assert LittleEndian(1, 4) == [1] + LittleEndian(0, 3);
    assert LittleEndian(0, 3) == [0, 0, 0];
  }

  lemma OneInEight()
    ensures FromLittleEndian([1, 0, 0, 0, 0, 0, 0, 0]) == 1
  {
    Widths();
    LittleEndianRoundTrip(1, 8);
    assert LittleEndian(0, 3) == [0, 0, 0];
    assert LittleEndian(0, 7) == [0, 0, 0, 0] + LittleEndian(0, 3);
    assert LittleEndian(1, 8) == [1] + LittleEndian(0, 7);
  }

  /** Over the bound the chunks matter: in one chunk the stream is refused unread, in two the
      member is handed on first. */
  lemma ChunksMatterOverBound()
    ensures var one, two := [UP_TO_BODY + Zeros()], [UP_TO_BODY, Zeros()];
      && Concat(one, 1) == Concat(two, 2)
      && ConsumedBy(ONE_BYTE, ParseAny, one) == [] && ConsumedBy(ONE_BYTE, ParseAny, two) == [7]
  {
    var one, two := [UP_TO_BODY + Zeros()], [UP_TO_BODY, Zeros()];
    BodyConsumed();
    hide Feed;
    assert Concat(one, 0) == [] && Concat(one, 1) == [] + one[0] == one[0];
    assert Concat(two, 0) == [] && Concat(two, 1) == [] + two[0] == two[0];
    assert Concat(two, 2) == two[0] + two[1];
    assert WithinBound(ONE_BYTE, one, 0) == 0;
    NothingFed(ONE_BYTE, ParseAny, START, []);
    assert WithinBound(ONE_BYTE, two, 1) == 1 == WithinBound(ONE_BYTE, two, 0);
  }
}
