/** The browser's guard in front of its Zstandard decoder, against the frame grammar of
    section 3.1.1 of RFC 8878. */
module ZstdGuard {
  import opened Common
  import opened PackFormat

  const MAXIMUM_WINDOW: nat := 32 * 1024 * 1024

  const MAXIMUM_BLOCK: nat := 131072

  // ---- The frame grammar ----

  function Power2(n: nat): nat {
    if n == 0 then 1 else 2 * Power2(n - 1)
  }

  /** Frame_Header_Descriptor: bits 7-6 size flag, 5 single segment, 4 unused, 3 reserved,
      2 checksum, 1-0 dictionary. */
  function SizeFlag(descriptor: byte): nat {
    descriptor / 64
  }

  predicate SingleSegment(descriptor: byte) {
    descriptor / 32 % 2 == 1
  }

  predicate HasChecksum(descriptor: byte) {
    descriptor / 4 % 2 == 1
  }

  /** No dictionary, and the unused and reserved bits clear. */
  predicate PlainDescriptor(descriptor: byte) {
    descriptor % 4 == 0 && descriptor / 8 % 2 == 0 && descriptor / 16 % 2 == 0
  }

  /** The width of Frame_Content_Size. */
  function SizeBytes(descriptor: byte): nat {
    if SizeFlag(descriptor) != 0 then Power2(SizeFlag(descriptor))
    else if SingleSegment(descriptor) then 1 else 0
  }

  function SizeOffset(descriptor: byte): nat {
    if SingleSegment(descriptor) then 5 else 6
  }

  function HeaderLength(descriptor: byte): (length: nat)
    ensures 6 <= length <= 14
  {
    assert Power2(1) == 2 && Power2(2) == 4 && Power2(3) == 8;
    SizeOffset(descriptor) + SizeBytes(descriptor)
  }

  function ContentSize(header: seq<byte>): nat
    requires 5 <= |header| == HeaderLength(header[4])
  {
    FromLittleEndian(header[SizeOffset(header[4])..]) + if SizeFlag(header[4]) == 1 then 256 else 0
  }

  /** Window_Descriptor: exponent in bits 7-3, eighths of it in bits 2-0. */
  function WindowSize(header: seq<byte>): nat
    requires 5 <= |header| == HeaderLength(header[4])
  {
    if SingleSegment(header[4]) then ContentSize(header)
    else
      var base := Power2(10 + header[5] / 8);
      base + base / 8 * (header[5] % 8)
  }

  predicate StartsLikeFrame(s: seq<byte>)
    requires 5 <= |s|
  {
    s[0] == 0x28 && s[1] == 0xB5 && s[2] == 0x2F && s[3] == 0xFD && PlainDescriptor(s[4])
  }

  /** The declared sizes are within the browser's memory and the manifest's bound. */
  predicate Affordable(maximum: nat, header: seq<byte>)
    requires 5 <= |header| == HeaderLength(header[4])
  {
    WindowSize(header) <= MAXIMUM_WINDOW && (SizeBytes(header[4]) != 0 ==> ContentSize(header) <= maximum)
  }

  /** Block_Header: bit 0 last block, bits 2-1 type, the rest the size. */
  function BlockHeader(s: seq<byte>): nat
    requires |s| == 3
  {
    s[0] as int + 256 * (s[1] as int) + 65536 * (s[2] as int)
  }

  predicate LastBlock(header: nat) {
    header % 2 == 1
  }

  /** Types are raw 0, run-length 1, compressed 2 and reserved 3. */
  function BlockType(header: nat): nat {
    header / 2 % 4
  }

  function BlockSize(header: nat): nat {
    header / 8
  }

  predicate GoodBlock(header: nat) {
    BlockType(header) != 3 && BlockSize(header) <= MAXIMUM_BLOCK
  }

  /** A run-length block stores one byte however long the run. */
  function StoredBytes(header: nat): nat {
    if BlockType(header) == 1 then 1 else BlockSize(header)
  }

  /** Blocks up to the last one, the checksum if there is one, and nothing after. */
  predicate IsBlocks(checksum: bool, s: seq<byte>)
    decreases |s|
  {
    && 3 <= |s|
    && var header := BlockHeader(s[..3]);
    && GoodBlock(header)
    && 3 + StoredBytes(header) <= |s|
    && var rest := s[3 + StoredBytes(header)..];
    if LastBlock(header) then |rest| == (if checksum then 4 else 0) else IsBlocks(checksum, rest)
  }

  /** One whole frame, within the browser's bounds. */
  predicate IsCourierFrame(maximum: nat, s: seq<byte>) {
    && 5 <= |s|
    && StartsLikeFrame(s)
    && HeaderLength(s[4]) <= |s|
    && Affordable(maximum, s[..HeaderLength(s[4])])
    && IsBlocks(HasChecksum(s[4]), s[HeaderLength(s[4])..])
  }

  // ---- One byte at a time ----

  datatype Phase = Header | Block | Body(remaining: nat, last: bool) | Checksum(remaining: nat) | Done | Failed

  datatype State = State(phase: Phase, pending: seq<byte>, checksum: bool)

  const START: State := State(Phase.Header, [], false)

  /** The state once a block's stored bytes are over. */
  function AfterBlock(st: State, last: bool): State {
    st.(phase := if !last then Block else if st.checksum then Checksum(4) else Done, pending := [])
  }

  /** The state when the bytes so far of an unfinished header are `bytes`. */
  function HeaderState(maximum: nat, st: State, bytes: seq<byte>): State {
    if |bytes| < 5 then st.(pending := bytes)
    else if !StartsLikeFrame(bytes) then st.(phase := Failed, pending := [])
    else if |bytes| != HeaderLength(bytes[4]) then st.(pending := bytes)
    else if !Affordable(maximum, bytes) then st.(phase := Failed, pending := [])
    else State(Block, [], HasChecksum(bytes[4]))
  }

  function BlockState(st: State, bytes: seq<byte>): State {
    if |bytes| != 3 then st.(pending := bytes)
    else
      var header := BlockHeader(bytes);
      if !GoodBlock(header) then st.(phase := Failed, pending := [])
      else if StoredBytes(header) == 0 then AfterBlock(st, LastBlock(header))
      else st.(phase := Body(StoredBytes(header), LastBlock(header)), pending := [])
  }

  function StepByte(maximum: nat, st: State, b: byte): State {
    match st.phase
    case Done => st.(phase := Failed)
    case Failed => st
    case Body(remaining, last) =>
      if remaining <= 1 then AfterBlock(st, last) else st.(phase := Body(remaining - 1, last))
    case Checksum(remaining) =>
      st.(phase := if remaining <= 1 then Done else Checksum(remaining - 1))
    case Header => HeaderState(maximum, st, st.pending + [b])
    case Block => BlockState(st, st.pending + [b])
  }

  function Feed(maximum: nat, st: State, s: seq<byte>): State
    decreases |s|
  {
    if s == [] then st else Feed(maximum, StepByte(maximum, st, s[0]), s[1..])
  }

  /** Chunk boundaries do not matter. */
  lemma {:induction false} FeedAppend(maximum: nat, st: State, a: seq<byte>, b: seq<byte>)
    ensures Feed(maximum, st, a + b) == Feed(maximum, Feed(maximum, st, a), b)
    decreases |a|
  {
    hide StepByte;
    if a == [] {
      assert a + b == b;
    } else {
      assert (a + b)[1..] == a[1..] + b;
      FeedAppend(maximum, StepByte(maximum, st, a[0]), a[1..], b);
    }
  }

  lemma {:induction false} FeedFailed(maximum: nat, st: State, s: seq<byte>)
    requires st.phase.Failed?
    ensures Feed(maximum, st, s) == st
    decreases |s|
  {
    if s == [] {
    } else {
      FeedFailed(maximum, st, s[1..]);
    }
  }

  lemma {:induction false} FeedBody(maximum: nat, st: State, s: seq<byte>)
    requires st.phase.Body? && 0 < |s| <= st.phase.remaining
    ensures Feed(maximum, st, s) ==
      if |s| < st.phase.remaining then st.(phase := Body(st.phase.remaining - |s|, st.phase.last))
      else AfterBlock(st, st.phase.last)
    decreases |s|
  {
    if 1 < |s| {
      FeedBody(maximum, StepByte(maximum, st, s[0]), s[1..]);
    } else {
      assert s[1..] == [];
    }
  }

  lemma {:induction false} FeedChecksum(maximum: nat, st: State, s: seq<byte>)
    requires st.phase.Checksum? && 0 < |s| <= st.phase.remaining
    ensures Feed(maximum, st, s) ==
      st.(phase := if |s| < st.phase.remaining then Checksum(st.phase.remaining - |s|) else Done)
    decreases |s|
  {
    if 1 < |s| {
      FeedChecksum(maximum, StepByte(maximum, st, s[0]), s[1..]);
    } else {
      assert s[1..] == [];
    }
  }

  lemma FeedOne(maximum: nat, st: State, b: byte)
    ensures Feed(maximum, st, [b]) == StepByte(maximum, st, b)
  {
    assert [b][1..] == [];
  }

  /** The last byte steps from where the others lead. */
  lemma {:induction false} FeedLast(maximum: nat, st: State, s: seq<byte>)
    requires s != []
    ensures s[..|s| - 1] + [s[|s| - 1]] == s
    ensures Feed(maximum, st, s) == StepByte(maximum, Feed(maximum, st, s[..|s| - 1]), s[|s| - 1])
  {
    hide *;
    CutAt(maximum, st, s, |s| - 1);
    assert s[|s| - 1..] == [s[|s| - 1]];
    FeedOne(maximum, Feed(maximum, st, s[..|s| - 1]), s[|s| - 1]);
  }

  lemma CutAt(maximum: nat, st: State, s: seq<byte>, n: nat)
    requires n <= |s|
    ensures Feed(maximum, st, s) == Feed(maximum, Feed(maximum, st, s[..n]), s[n..])
  {
    hide *;
    FeedAppend(maximum, st, s[..n], s[n..]);
    assert s[..n] + s[n..] == s;
  }

  // ---- The guard ----

  datatype PhaseName = AtHeader | AtBlock | AtBody | AtChecksum | AtDone

  class CourierZstdGuard {
    const maximumDecoded: nat
    var phase: PhaseName
    var pending: seq<byte>
    var headerReady: bool
    var remaining: nat
    var last: bool
    var checksum: bool

    ghost function Abs(): State
      reads this
    {
      var current := match phase
        case AtHeader => Phase.Header
        case AtBlock => Block
        case AtBody => Body(remaining, last)
        case AtChecksum => Checksum(remaining)
        case AtDone => Done;
      State(current, pending, checksum)
    }

    ghost predicate Valid()
      reads this
    {
      && (phase.AtBody? || phase.AtChecksum? ==> 0 < remaining && pending == [])
      && (phase.AtBlock? ==> |pending| < 3)
      && (phase.AtDone? ==> pending == [])
      && (headerReady <==> !phase.AtHeader?)
      && (phase.AtHeader? ==> !checksum && (5 <= |pending| ==> |pending| < HeaderLength(pending[4])))
    }

    constructor (maximum: nat)
      ensures Valid() && Abs() == START && maximumDecoded == maximum
    {
      maximumDecoded, phase, pending, headerReady := maximum, AtHeader, [], false;
      remaining, last, checksum := 0, false, false;
    }

    /** Accepts one more header or block-header byte; a false result is the thrown error. */
    method PushByte(b: byte) returns (ok: bool)
      requires Valid() && (phase.AtHeader? || phase.AtBlock?)
      modifies this
      ensures ok <==> !StepByte(maximumDecoded, old(Abs()), b).phase.Failed?
      ensures ok ==> Valid() && Abs() == StepByte(maximumDecoded, old(Abs()), b)
    {
      hide Affordable, StartsLikeFrame, Power2;
      pending := pending + [b];
      if phase.AtHeader? {
        if |pending| < 5 {
          return true;
        }
        if !StartsLikeFrame(pending) {
          return false;
        }
        if |pending| < HeaderLength(pending[4]) {
          return true;
        }
        if !Affordable(maximumDecoded, pending) {
          return false;
        }
        checksum, headerReady, phase, pending := HasChecksum(pending[4]), true, AtBlock, [];
      } else if |pending| == 3 {
        var header := BlockHeader(pending);
        if !GoodBlock(header) {
          return false;
        }
        last, remaining, pending := LastBlock(header), StoredBytes(header), [];
        phase := if remaining != 0 then AtBody else if !last then AtBlock else if checksum then AtChecksum else AtDone;
        if phase.AtChecksum? {
          remaining := 4;
        }
      }
      return true;
    }

    /** Skips stored bytes that the guard need not look at. */
    method Skip(piece: seq<byte>)
      requires Valid() && (phase.AtBody? || phase.AtChecksum?) && 0 < |piece| <= remaining
      modifies this
      ensures Valid() && Abs() == Feed(maximumDecoded, old(Abs()), piece)
    {
      if phase.AtBody? {
        FeedBody(maximumDecoded, Abs(), piece);
      } else {
        FeedChecksum(maximumDecoded, Abs(), piece);
      }
      hide Feed;
      remaining := remaining - |piece|;
      if remaining == 0 {
        phase := if phase.AtChecksum? then AtDone
                 else if last then (if checksum then AtChecksum else AtDone) else AtBlock;
        if phase.AtChecksum? {
          remaining := 4;
        }
      }
    }

    /** A chunk passes exactly when no byte of it fails, and then moves the guard on as its bytes
        would one by one. */
    method Push(chunk: seq<byte>) returns (ok: bool)
      requires Valid()
      modifies this
      ensures ok <==> !Feed(maximumDecoded, old(Abs()), chunk).phase.Failed?
      ensures ok ==> Valid() && Abs() == Feed(maximumDecoded, old(Abs()), chunk)
    {
      hide Feed, StepByte;
      ghost var target := Feed(maximumDecoded, Abs(), chunk);
      assert chunk[0..] == chunk;
      var offset := 0;
      while offset < |chunk|
        invariant 0 <= offset <= |chunk| && Valid()
        invariant Feed(maximumDecoded, Abs(), chunk[offset..]) == target
      {
        if phase.AtDone? {
          TrailingByte(maximumDecoded, Abs(), chunk[offset..]);
          return false;
        }
        var count := if phase.AtBody? || phase.AtChecksum? then Min(remaining, |chunk| - offset) else 1;
        var piece := chunk[offset..offset + count];
        CutAt(maximumDecoded, Abs(), chunk[offset..], count);
        assert chunk[offset..][..count] == piece && chunk[offset..][count..] == chunk[offset + count..];
        if phase.AtBody? || phase.AtChecksum? {
          Skip(piece);
        } else {
          ghost var st := Abs();
          assert piece == [chunk[offset]];
          FeedOne(maximumDecoded, st, chunk[offset]);
          var passed := PushByte(chunk[offset]);
          if !passed {
            FeedFailed(maximumDecoded, Feed(maximumDecoded, st, piece), chunk[offset + count..]);
            return false;
          }
        }
        offset := offset + count;
      }
      NothingFed(maximumDecoded, Abs(), chunk[offset..]);
      return true;
    }

    method Finish() returns (ok: bool)
      ensures ok <==> Abs().phase.Done?
    {
      return phase.AtDone?;
    }
  }

  lemma NothingFed(maximum: nat, st: State, s: seq<byte>)
    requires s == []
    ensures Feed(maximum, st, s) == st
  {
  }

  lemma TrailingByte(maximum: nat, st: State, s: seq<byte>)
    requires st.phase.Done? && s != []
    ensures Feed(maximum, st, s) == st.(phase := Failed)
  {
    FeedFailed(maximum, st.(phase := Failed), s[1..]);
  }

  // ---- The guard accepts the grammar ----

  lemma EndsDone(maximum: nat, st: State, s: seq<byte>)
    requires st.phase.Done?
    ensures Feed(maximum, st, s).phase.Done? <==> s == []
  {
    if s != [] {
      TrailingByte(maximum, st, s);
    }
  }

  lemma EndsAfterChecksum(maximum: nat, st: State, s: seq<byte>)
    requires st.phase == Checksum(4)
    ensures Feed(maximum, st, s).phase.Done? <==> |s| == 4
  {
    if 0 < |s| {
      var n := Min(|s|, 4);
      CutAt(maximum, st, s, n);
      FeedChecksum(maximum, st, s[..n]);
      EndsAfterCut(maximum, Feed(maximum, st, s[..n]), s[n..]);
    }
  }

  lemma EndsAfterCut(maximum: nat, st: State, s: seq<byte>)
    requires st.phase.Done? || s == []
    ensures Feed(maximum, st, s).phase.Done? <==> st.phase.Done? && s == []
  {
    if st.phase.Done? {
      EndsDone(maximum, st, s);
    }
  }

  /** Fewer bytes than a block header are only remembered. */
  lemma FeedBlockHeader(maximum: nat, st: State, s: seq<byte>)
    requires st.phase.Block? && st.pending == [] && |s| <= 3
    ensures Feed(maximum, st, s) == BlockState(st, s)
  {
    if 0 < |s| {
      FeedBlockFront(maximum, st, s[..|s| - 1]);
      FeedLast(maximum, st, s);
      hide Feed;
    }
  }

  lemma {:induction false} FeedBlockFront(maximum: nat, st: State, s: seq<byte>)
    requires st.phase.Block? && st.pending == [] && |s| < 3
    ensures Feed(maximum, st, s) == st.(pending := s)
    decreases |s|
  {
    if |s| == 0 {
    } else {
      FeedBlockFront(maximum, st, s[..|s| - 1]);
      FeedLast(maximum, st, s);
    }
  }

  lemma {:induction false} FeedBlocks(maximum: nat, st: State, s: seq<byte>)
    requires st.phase.Block? && st.pending == []
    ensures Feed(maximum, st, s).phase.Done? <==> IsBlocks(st.checksum, s)
    decreases |s|
  {
    hide Feed;
    if |s| < 3 {
      FeedBlockHeader(maximum, st, s);
    } else {
      CutAt(maximum, st, s, 3);
      FeedBlockHeader(maximum, st, s[..3]);
      var header := BlockHeader(s[..3]);
      var next := BlockState(st, s[..3]);
      if !GoodBlock(header) {
        FeedFailed(maximum, next, s[3..]);
      } else {
        FeedStored(maximum, st, header, s[3..]);
        var n := StoredBytes(header);
        if n <= |s[3..]| {
          assert s[3..][n..] == s[3 + n..];
          var after := AfterBlock(st, LastBlock(header));
          if LastBlock(header) {
            if st.checksum {
              EndsAfterChecksum(maximum, after, s[3 + n..]);
            } else {
              EndsDone(maximum, after, s[3 + n..]);
            }
          } else {
            FeedBlocks(maximum, after, s[3 + n..]);
          }
        }
      }
    }
  }

  /** A block's stored bytes, all there or cut short. */
  lemma FeedStored(maximum: nat, st: State, header: nat, s: seq<byte>)
    requires st.phase.Block? && st.pending == [] && GoodBlock(header)
    ensures var n := StoredBytes(header);
      var next := if n == 0 then AfterBlock(st, LastBlock(header)) else st.(phase := Body(n, LastBlock(header)));
      if n <= |s| then Feed(maximum, next, s) == Feed(maximum, AfterBlock(st, LastBlock(header)), s[n..])
      else !Feed(maximum, next, s).phase.Done?
  {
    var n := StoredBytes(header);
    if n == 0 {
      assert s[0..] == s;
    } else {
      var next := st.(phase := Body(n, LastBlock(header)));
      if n <= |s| {
        CutAt(maximum, next, s, n);
        FeedBody(maximum, next, s[..n]);
      } else if 0 < |s| {
        FeedBody(maximum, next, s);
      }
    }
  }

  /** No prefix of these bytes settles the header. */
  ghost predicate Undecided(s: seq<byte>) {
    5 <= |s| ==> StartsLikeFrame(s) && |s| < HeaderLength(s[4])
  }

  lemma {:induction false} FeedUndecided(maximum: nat, s: seq<byte>)
    requires Undecided(s)
    ensures Feed(maximum, START, s) == START.(pending := s)
    decreases |s|
  {
    if |s| == 0 {
    } else {
      FeedUndecided(maximum, s[..|s| - 1]);
      FeedLast(maximum, START, s);
      hide Affordable, Power2;
    }
  }

  /** The byte that settles the header. */
  lemma FeedHeader(maximum: nat, s: seq<byte>)
    requires s != [] && Undecided(s[..|s| - 1])
    ensures Feed(maximum, START, s) == HeaderState(maximum, START, s)
  {
    hide Feed, Affordable, StartsLikeFrame, HeaderLength, Power2, SizeBytes;
    FeedUndecided(maximum, s[..|s| - 1]);
    FeedLast(maximum, START, s);
  }

  /** The guard ends satisfied exactly where the grammar holds. */
  lemma FeedDecides(maximum: nat, s: seq<byte>)
    ensures Feed(maximum, START, s).phase.Done? <==> IsCourierFrame(maximum, s)
  {
    hide Feed, Affordable, IsBlocks;
    if Undecided(s) {
      FeedUndecided(maximum, s);
    } else if !StartsLikeFrame(s[..5]) {
      CutAt(maximum, START, s, 5);
      FeedHeader(maximum, s[..5]);
      FeedFailed(maximum, HeaderState(maximum, START, s[..5]), s[5..]);
    } else {
      var n := HeaderLength(s[4]);
      CutAt(maximum, START, s, n);
      assert Undecided(s[..n][..n - 1]);
      FeedHeader(maximum, s[..n]);
      var next := HeaderState(maximum, START, s[..n]);
      if next.phase.Failed? {
        FeedFailed(maximum, next, s[n..]);
      } else {
        FeedBlocks(maximum, next, s[n..]);
      }
    }
  }
}
