/** How a Zstandard frame of section 3.1.1 of RFC 8878 is written, from its fields. */
module ZstdFrame {
  import opened Common

  /** A window is the whole frame content, or 2^(10 + exponent) bytes and `eighths` eighths more. */
  datatype Window = SingleSegment | Described(exponent: nat, eighths: nat)

  /** Raw blocks have kind 0, run-length blocks 1 and compressed ones 2. */
  datatype Block = Block(kind: nat, size: nat, content: seq<byte>)

  /** `flag` selects the width of the declared size, of which `declared` are the bytes. */
  datatype Frame = Frame(flag: nat, window: Window, declared: seq<byte>, blocks: seq<Block>, checksum: Option<seq<byte>>)

  predicate WellFormed(f: Frame) {
    && f.flag <= 3
    && (f.window.Described? ==> f.window.exponent < 32 && f.window.eighths < 8)
    && |f.declared| == DeclaredWidth(f)
    && f.blocks != [] && (forall i :: 0 <= i < |f.blocks| ==> WellFormedBlock(f.blocks[i]))
    && (f.checksum.Some? ==> |f.checksum.value| == 4)
  }

  predicate WellFormedBlock(b: Block) {
    && b.kind <= 2 && b.size < 0x20_0000
    && |b.content| == if b.kind == 1 then 1 else b.size
  }

  function DeclaredWidth(f: Frame): nat {
    match f.flag
    case 0 => if f.window.SingleSegment? then 1 else 0
    case 1 => 2
    case 2 => 4
    case _ => 8
  }

  /** The declared content size; two bytes count from 256. */
  function DeclaredSize(f: Frame): nat {
    var d: seq<int> := f.declared;
    if |d| == 1 then d[0]
    else if |d| == 2 then 256 + d[0] + 0x100 * d[1]
    else if |d| == 4 then d[0] + 0x100 * d[1] + 0x1_0000 * d[2] + 0x100_0000 * d[3]
    else if |d| == 8 then
      d[0] + 0x100 * d[1] + 0x1_0000 * d[2] + 0x100_0000 * d[3] + 0x1_0000_0000 * d[4]
      + 0x100_0000_0000 * d[5] + 0x1_0000_0000_0000 * d[6] + 0x100_0000_0000_0000 * d[7]
    else 0
  }

  function Doubled(n: nat, times: nat): nat {
    if times == 0 then n else 2 * Doubled(n, times - 1)
  }

  /** The memory that decoding takes: 2^(10 + exponent) * (8 + eighths) / 8 bytes. */
  function WindowBytes(f: Frame): nat {
    match f.window
    case SingleSegment => DeclaredSize(f)
    case Described(exponent, eighths) => Doubled(128 * (8 + eighths), exponent)
  }

  function Descriptor(f: Frame): nat {
    64 * f.flag + (if f.window.SingleSegment? then 32 else 0) + if f.checksum.Some? then 4 else 0
  }

  function PrintHeader(f: Frame): seq<byte>
    requires WellFormed(f)
  {
    [0x28, 0xB5, 0x2F, 0xFD, Descriptor(f)]
    + (match f.window
       case SingleSegment => []
       case Described(exponent, eighths) => [8 * exponent + eighths])
    + f.declared
  }

  /** Three bytes, the lowest first, and the block's content. */
  function PrintBlock(b: Block, last: bool): seq<byte>
    requires WellFormedBlock(b)
  {
    var header := (if last then 1 else 0) + 2 * b.kind + 8 * b.size;
    [header % 0x100, header / 0x100 % 0x100, header / 0x1_0000] + b.content
  }

  function PrintBlocks(blocks: seq<Block>): seq<byte>
    requires forall i :: 0 <= i < |blocks| ==> WellFormedBlock(blocks[i])
  {
    if blocks == [] then [] else PrintBlock(blocks[0], |blocks| == 1) + PrintBlocks(blocks[1..])
  }

  function Print(f: Frame): seq<byte>
    requires WellFormed(f)
  {
    PrintHeader(f) + PrintBlocks(f.blocks) + if f.checksum.Some? then f.checksum.value else []
  }

  /** What the browser takes: a window of at most 32 MiB, a declared size within `maximum`, and
      blocks of at most 128 KiB. */
  predicate Affordable(maximum: nat, f: Frame) {
    && WindowBytes(f) <= 33_554_432
    && (f.declared != [] ==> DeclaredSize(f) <= maximum)
    && forall i :: 0 <= i < |f.blocks| ==> f.blocks[i].size <= 131_072
  }

  /** The bytes are a whole frame that the browser takes, and nothing else. */
  ghost predicate IsFrame(maximum: nat, s: seq<byte>) {
    exists f :: WellFormed(f) && Affordable(maximum, f) && s == Print(f)
  }
}
