/** The guard accepts exactly the frames that can be written within the browser's bounds. */
module ZstdLaws {
  import opened Common
  import opened PackFormat
  import opened ZstdGuard
  import ZstdFrame

  // ---- Headers ----

  lemma {:induction false} TwoPowers(times: nat)
    ensures Power2(10 + times) == ZstdFrame.Doubled(1024, times)
  {
    if times == 0 {
      assert Power2(2) == 4 && Power2(4) == 4 * Power2(2) && Power2(6) == 4 * Power2(4);
      assert Power2(8) == 4 * Power2(6) && Power2(10) == 4 * Power2(8);
    } else {
      TwoPowers(times - 1);
      assert Power2(10 + times) == 2 * Power2(9 + times);
    }
  }

  lemma {:induction false} DoubledScales(n: nat, k: nat, times: nat)
    ensures ZstdFrame.Doubled(k * n, times) == k * ZstdFrame.Doubled(n, times)
  {
    if times == 0 {
      assert ZstdFrame.Doubled(n, times) == n;
    } else {
      DoubledScales(n, k, times - 1);
    }
  }

  /** The window that a window byte describes. */
  lemma DescribedWindow(exponent: nat, eighths: nat)
    ensures var base := Power2(10 + exponent);
      base + base / 8 * eighths == ZstdFrame.Doubled(128 * (8 + eighths), exponent)
  {
    TwoPowers(exponent);
    DoubledScales(128, 8, exponent);
    DoubledScales(128, 8 + eighths, exponent);
    var unit := ZstdFrame.Doubled(128, exponent);
    assert (8 + eighths) * unit == 8 * unit + unit * eighths;
    assert 128 * (8 + eighths) == (8 + eighths) * 128;
    hide Power2, ZstdFrame.Doubled;
    assert Power2(10 + exponent) / 8 == unit;
  }

  lemma LittleFrom(d: seq<byte>, i: nat)
    requires i < |d|
    ensures FromLittleEndian(d[i..]) == d[i] + 256 * FromLittleEndian(d[i + 1..])
  {
    assert d[i..][1..] == d[i + 1..];
  }

  lemma {:induction false} LittleSums(d: seq<byte>, i: nat)
    requires i <= |d|
    ensures i == |d| ==> FromLittleEndian(d[i..]) == 0
    ensures forall j :: i <= j < |d| ==> FromLittleEndian(d[j..]) == d[j] + 256 * FromLittleEndian(d[j + 1..])
    ensures FromLittleEndian(d[|d|..]) == 0
  {
    forall j | i <= j < |d|
      ensures FromLittleEndian(d[j..]) == d[j] + 256 * FromLittleEndian(d[j + 1..])
    {
      LittleFrom(d, j);
    }
  }

  /** The bytes of a declared size, each in its place. */
  lemma DeclaredBytes(f: ZstdFrame.Frame)
    requires ZstdFrame.WellFormed(f)
    ensures FromLittleEndian(f.declared) + (if f.flag == 1 then 256 else 0) == ZstdFrame.DeclaredSize(f)
  {
    var d := f.declared;
    LittleSums(d, 0);
    assert d[0..] == d;
    hide FromLittleEndian;
  }

  lemma DescriptorRead(f: ZstdFrame.Frame)
    requires ZstdFrame.WellFormed(f)
    ensures var d := ZstdFrame.Descriptor(f);
      && d < 256 && SizeFlag(d) == f.flag && SingleSegment(d) == f.window.SingleSegment?
      && HasChecksum(d) == f.checksum.Some? && PlainDescriptor(d)
  {
  }

  lemma DescriptorWritten(d: byte)
    requires PlainDescriptor(d)
    ensures SizeFlag(d) <= 3
    ensures 64 * SizeFlag(d) + (if SingleSegment(d) then 32 else 0) + (if HasChecksum(d) then 4 else 0) == d
  {
  }

  lemma Widths()
    ensures Power2(0) == 1 && Power2(1) == 2 && Power2(2) == 4 && Power2(3) == 8
  {
  }

  /** The parts of a written header. */
  lemma HeaderParts(f: ZstdFrame.Frame)
    requires ZstdFrame.WellFormed(f)
    ensures var h := ZstdFrame.PrintHeader(f);
      && 5 <= |h| == HeaderLength(h[4]) && StartsLikeFrame(h) && h[4] == ZstdFrame.Descriptor(f)
      && SizeBytes(h[4]) == |f.declared| && h[SizeOffset(h[4])..] == f.declared
      && (f.window.Described? ==> 5 < |h| && h[5] == 8 * f.window.exponent + f.window.eighths)
  {
    DescriptorRead(f);
    Widths();
    hide Power2, SizeFlag, SingleSegment, HasChecksum, PlainDescriptor, ZstdFrame.Descriptor;
  }

  lemma WindowByte(exponent: nat, eighths: nat)
    requires eighths < 8
    ensures (8 * exponent + eighths) / 8 == exponent && (8 * exponent + eighths) % 8 == eighths
  {
  }

  /** What the guard reads in a written header is what was written. */
  lemma HeaderRead(f: ZstdFrame.Frame)
    requires ZstdFrame.WellFormed(f)
    ensures var h := ZstdFrame.PrintHeader(f);
      && 5 <= |h| == HeaderLength(h[4])
      && StartsLikeFrame(h) && HasChecksum(h[4]) == f.checksum.Some?
      && SizeBytes(h[4]) == |f.declared|
      && ContentSize(h) == ZstdFrame.DeclaredSize(f) && WindowSize(h) == ZstdFrame.WindowBytes(f)
  {
    HeaderParts(f);
    DescriptorRead(f);
    DeclaredBytes(f);
    if f.window.Described? {
      WindowByte(f.window.exponent, f.window.eighths);
      DescribedWindow(f.window.exponent, f.window.eighths);
    }
    hide Power2, ZstdFrame.Doubled, FromLittleEndian, ZstdFrame.DeclaredSize, ZstdFrame.PrintHeader, HeaderLength,
         SizeFlag, SingleSegment, HasChecksum, PlainDescriptor, ZstdFrame.Descriptor, StartsLikeFrame, SizeBytes, SizeOffset;
  }

  /** A header that the guard takes is written from its fields. */
  lemma HeaderWritten(h: seq<byte>, blocks: seq<ZstdFrame.Block>, sum: seq<byte>) returns (f: ZstdFrame.Frame)
    requires 5 <= |h| == HeaderLength(h[4]) && StartsLikeFrame(h)
    requires blocks != [] && (forall i :: 0 <= i < |blocks| ==> ZstdFrame.WellFormedBlock(blocks[i]))
    requires |sum| == if HasChecksum(h[4]) then 4 else 0
    ensures ZstdFrame.WellFormed(f) && f.blocks == blocks
    ensures ZstdFrame.PrintHeader(f) == h && sum == if f.checksum.Some? then f.checksum.value else []
  {
    Widths();
    DescriptorWritten(h[4]);
    hide Power2, SizeFlag, SingleSegment, HasChecksum, PlainDescriptor, ZstdFrame.WellFormedBlock;
    var window := if SingleSegment(h[4]) then ZstdFrame.SingleSegment else ZstdFrame.Described(h[5] / 8, h[5] % 8);
    var rest := h[SizeOffset(h[4])..];
    f := ZstdFrame.Frame(SizeFlag(h[4]), window, rest, blocks, if HasChecksum(h[4]) then Some(sum) else None);
    assert ZstdFrame.Descriptor(f) == h[4];
    assert h == h[..SizeOffset(h[4])] + rest;
    assert h[..5] == [0x28, 0xB5, 0x2F, 0xFD, h[4]];
    hide ZstdFrame.Descriptor;
    if !SingleSegment(h[4]) {
      assert h[..6] == h[..5] + [h[5]];
    }
  }

  // ---- Blocks ----

  function HeaderNumber(kind: nat, size: nat, last: bool): nat {
    (if last then 1 else 0) + 2 * kind + 8 * size
  }

  lemma HeaderBits(kind: nat, size: nat, last: bool)
    requires kind < 4
    ensures var header := HeaderNumber(kind, size, last);
      LastBlock(header) == last && BlockType(header) == kind && BlockSize(header) == size
  {
  }

  lemma HeaderFromBits(header: nat)
    ensures HeaderNumber(BlockType(header), BlockSize(header), LastBlock(header)) == header
  {
  }

  lemma ThreeBytes(header: nat)
    requires header < 0x100_0000
    ensures header % 0x100 + 256 * (header / 0x100 % 0x100) + 65536 * (header / 0x1_0000) == header
  {
    assert header / 0x1_0000 == header / 0x100 / 0x100;
  }

  lemma BytesOfThree(a: byte, b: byte, c: byte)
    ensures var header: nat := a + 256 * b + 65536 * c;
      header < 0x100_0000 && header % 0x100 == a && header / 0x100 % 0x100 == b && header / 0x1_0000 == c
  {
    var header: nat := a + 256 * b + 65536 * c;
    assert header / 0x100 == b + 256 * c;
  }

  /** What the guard reads in a written block is what was written. */
  lemma BlockRead(b: ZstdFrame.Block, last: bool)
    requires ZstdFrame.WellFormedBlock(b)
    ensures var s := ZstdFrame.PrintBlock(b, last);
      && 3 <= |s|
      && var header := BlockHeader(s[..3]);
      && LastBlock(header) == last && BlockType(header) == b.kind && BlockSize(header) == b.size
      && s[3..] == b.content && |s| == 3 + StoredBytes(header)
  {
    var header := HeaderNumber(b.kind, b.size, last);
    HeaderBits(b.kind, b.size, last);
    ThreeBytes(header);
    hide LastBlock, BlockType, BlockSize;
    var s := ZstdFrame.PrintBlock(b, last);
    assert s[..3] == [header % 0x100, header / 0x100 % 0x100, header / 0x1_0000];
    assert BlockHeader(s[..3]) == header;
    hide BlockHeader;
  }

  /** A block that the guard takes is written from its fields. */
  lemma BlockWritten(s: seq<byte>) returns (b: ZstdFrame.Block)
    requires 3 <= |s| && var header := BlockHeader(s[..3]); GoodBlock(header) && |s| == 3 + StoredBytes(header)
    ensures ZstdFrame.WellFormedBlock(b) && b.size <= 131_072
    ensures ZstdFrame.PrintBlock(b, LastBlock(BlockHeader(s[..3]))) == s
  {
    var header := BlockHeader(s[..3]);
    BytesOfThree(s[0], s[1], s[2]);
    HeaderFromBits(header);
    KindsBelowFour(header);
    hide BlockHeader, LastBlock, BlockType, BlockSize;
    b := ZstdFrame.Block(BlockType(header), BlockSize(header), s[3..]);
    assert s == [s[0], s[1], s[2]] + s[3..];
  }

  lemma KindsBelowFour(header: nat)
    ensures BlockType(header) < 4
  {
  }

  ghost predicate AllWellFormed(blocks: seq<ZstdFrame.Block>) {
    forall i :: 0 <= i < |blocks| ==> ZstdFrame.WellFormedBlock(blocks[i])
  }

  ghost predicate AllSmall(blocks: seq<ZstdFrame.Block>) {
    forall i :: 0 <= i < |blocks| ==> blocks[i].size <= 131_072
  }

  lemma TakeFirst(checksum: bool, first: seq<byte>, rest: seq<byte>)
    requires 3 <= |first| && var header := BlockHeader(first[..3]); GoodBlock(header) && |first| == 3 + StoredBytes(header)
    ensures IsBlocks(checksum, first + rest) <==>
      if LastBlock(BlockHeader(first[..3])) then |rest| == (if checksum then 4 else 0) else IsBlocks(checksum, rest)
  {
    var s := first + rest;
    assert s[..3] == first[..3] && s[|first|..] == rest;
    hide BlockHeader, LastBlock, StoredBytes;
  }

  lemma PrintedFirst(blocks: seq<ZstdFrame.Block>, sum: seq<byte>)
    requires blocks != [] && AllWellFormed(blocks)
    ensures ZstdFrame.PrintBlocks(blocks) + sum
         == ZstdFrame.PrintBlock(blocks[0], |blocks| == 1) + (ZstdFrame.PrintBlocks(blocks[1..]) + sum)
    ensures |blocks| == 1 ==> ZstdFrame.PrintBlocks(blocks[1..]) + sum == sum
  {
    hide ZstdFrame.PrintBlock, ZstdFrame.PrintBlocks, ZstdFrame.WellFormedBlock;
    PrintBlocksFirst(blocks);
    var first, rest := ZstdFrame.PrintBlock(blocks[0], |blocks| == 1), ZstdFrame.PrintBlocks(blocks[1..]);
    assert (first + rest) + sum == first + (rest + sum);
  }

  lemma PrintBlocksFirst(blocks: seq<ZstdFrame.Block>)
    requires blocks != [] && AllWellFormed(blocks)
    ensures ZstdFrame.PrintBlocks(blocks)
         == ZstdFrame.PrintBlock(blocks[0], |blocks| == 1) + ZstdFrame.PrintBlocks(blocks[1..])
    ensures |blocks| == 1 ==> ZstdFrame.PrintBlocks(blocks[1..]) == []
  {
    hide ZstdFrame.PrintBlock, ZstdFrame.WellFormedBlock;
  }

  /** Written blocks within the bound are taken. */
  lemma {:induction false} BlocksTaken(blocks: seq<ZstdFrame.Block>, sum: seq<byte>, checksum: bool)
    requires blocks != [] && AllWellFormed(blocks) && AllSmall(blocks) && |sum| == if checksum then 4 else 0
    ensures IsBlocks(checksum, ZstdFrame.PrintBlocks(blocks) + sum)
    decreases |blocks|
  {
    hide ZstdFrame.PrintBlocks, ZstdFrame.PrintBlock, BlockHeader, LastBlock, StoredBytes, IsBlocks, BlockType, BlockSize,
         ZstdFrame.WellFormedBlock;
    BlockRead(blocks[0], |blocks| == 1);
    WellFormedKind(blocks[0]);
    PrintedFirst(blocks, sum);
    TakeFirst(checksum, ZstdFrame.PrintBlock(blocks[0], |blocks| == 1), ZstdFrame.PrintBlocks(blocks[1..]) + sum);
    if 1 < |blocks| {
      BlocksTaken(blocks[1..], sum, checksum);
    }
  }

  lemma WellFormedKind(b: ZstdFrame.Block)
    requires ZstdFrame.WellFormedBlock(b)
    ensures b.kind <= 2
  {
  }

  /** Blocks that the guard takes are written from their fields. */
  lemma {:induction false} BlocksWritten(checksum: bool, s: seq<byte>) returns (blocks: seq<ZstdFrame.Block>, sum: seq<byte>)
    requires IsBlocks(checksum, s)
    ensures blocks != [] && AllWellFormed(blocks) && AllSmall(blocks) && |sum| == if checksum then 4 else 0
    ensures s == ZstdFrame.PrintBlocks(blocks) + sum
    decreases |s|
  {
    hide BlockHeader, ZstdFrame.PrintBlock, ZstdFrame.WellFormedBlock, StoredBytes, LastBlock, BlockType, BlockSize, ZstdFrame.PrintBlocks;
    var header := BlockHeader(s[..3]);
    var n := 3 + StoredBytes(header);
    assert s[..n][..3] == s[..3];
    var first := BlockWritten(s[..n]);
    assert s == s[..n] + s[n..];
    if LastBlock(header) {
      blocks, sum := [first], s[n..];
      PrintedFirst(blocks, sum);
    } else {
      var others;
      others, sum := BlocksWritten(checksum, s[n..]);
      blocks := [first] + others;
      assert blocks[1..] == others;
      PrintedFirst(blocks, sum);
    }
  }

  // ---- Frames ----

  lemma FrameTaken(maximum: nat, f: ZstdFrame.Frame)
    requires ZstdFrame.WellFormed(f) && ZstdFrame.Affordable(maximum, f)
    ensures IsCourierFrame(maximum, ZstdFrame.Print(f))
  {
    HeaderRead(f);
    var sum := if f.checksum.Some? then f.checksum.value else [];
    BlocksTaken(f.blocks, sum, f.checksum.Some?);
    hide ZstdFrame.PrintHeader, ZstdFrame.PrintBlocks, HeaderLength, ContentSize, WindowSize, SizeBytes, HasChecksum, IsBlocks;
    var h, s := ZstdFrame.PrintHeader(f), ZstdFrame.Print(f);
    assert s == h + (ZstdFrame.PrintBlocks(f.blocks) + sum);
    assert s[..|h|] == h && s[|h|..] == ZstdFrame.PrintBlocks(f.blocks) + sum && s[4] == h[4];
  }

  lemma FrameWritten(maximum: nat, s: seq<byte>) returns (f: ZstdFrame.Frame)
    requires IsCourierFrame(maximum, s)
    ensures ZstdFrame.WellFormed(f) && ZstdFrame.Affordable(maximum, f) && s == ZstdFrame.Print(f)
  {
    hide IsBlocks, ContentSize, WindowSize, SizeBytes, HasChecksum, HeaderLength;
    var n := HeaderLength(s[4]);
    var blocks, sum := BlocksWritten(HasChecksum(s[4]), s[n..]);
    assert s[..n][4] == s[4];
    f := HeaderWritten(s[..n], blocks, sum);
    HeaderRead(f);
    assert s == s[..n] + s[n..];
  }

  /** The guard's grammar holds of exactly the written frames that the browser takes. */
  lemma GrammarIsFrames(maximum: nat, s: seq<byte>)
    ensures IsCourierFrame(maximum, s) <==> ZstdFrame.IsFrame(maximum, s)
  {
    hide IsCourierFrame, ZstdFrame.WellFormed, ZstdFrame.Affordable, ZstdFrame.Print;
    if IsCourierFrame(maximum, s) {
      var f := FrameWritten(maximum, s);
    }
    if ZstdFrame.IsFrame(maximum, s) {
      var f :| ZstdFrame.WellFormed(f) && ZstdFrame.Affordable(maximum, f) && s == ZstdFrame.Print(f);
      FrameTaken(maximum, f);
    }
  }

  /** However the bytes are cut, the guard ends satisfied exactly on one whole frame within its
      bounds. */
  lemma FeedAccepts(maximum: nat, s: seq<byte>)
    ensures Feed(maximum, START, s).phase.Done? <==> ZstdFrame.IsFrame(maximum, s)
  {
    hide *;
    FeedDecides(maximum, s);
    GrammarIsFrames(maximum, s);
  }

  lemma PrefixRefused(maximum: nat, start: seq<byte>, s: seq<byte>)
    requires start <= s && Feed(maximum, START, start).phase.Failed?
    ensures !ZstdFrame.IsFrame(maximum, s)
  {
    hide ZstdFrame.IsFrame;
    assert s == start + s[|start|..];
    FeedAppend(maximum, START, start, s[|start|..]);
    FeedFailed(maximum, Feed(maximum, START, start), s[|start|..]);
    FeedAccepts(maximum, s);
  }

  /** Guarding a whole object, however it is cut into chunks. */
  method Guard(maximum: nat, chunks: seq<seq<byte>>) returns (ok: bool)
    ensures ok <==> ZstdFrame.IsFrame(maximum, Concat(chunks, |chunks|))
  {
    hide Feed, ZstdFrame.IsFrame;
    var guard := new CourierZstdGuard(maximum);
    NothingFed(maximum, START, []);
    var i := 0;
    while i < |chunks|
      invariant 0 <= i <= |chunks|
      invariant fresh(guard) && guard.Valid() && guard.maximumDecoded == maximum
      invariant guard.Abs() == Feed(maximum, START, Concat(chunks, i))
    {
      FeedAppend(maximum, START, Concat(chunks, i), chunks[i]);
      var passed := guard.Push(chunks[i]);
      if !passed {
        ConcatPrefix(chunks, i + 1, |chunks|);
        PrefixRefused(maximum, Concat(chunks, i + 1), Concat(chunks, |chunks|));
        return false;
      }
      i := i + 1;
    }
    FeedAccepts(maximum, Concat(chunks, |chunks|));
    ok := guard.Finish();
  }
}
