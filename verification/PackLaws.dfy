/** The container byte by byte, and what packing keeps of its sources. */
module PackLaws {
  import opened Common
  import opened Files
  import opened PackFormat
  import opened PackCodec
  import opened PackReader
  import opened PackReaderLaws

  function FourBytes(n: nat): seq<byte> {
    [n % 0x100, n / 0x100 % 0x100, n / 0x1_0000 % 0x100, n / 0x100_0000 % 0x100]
  }

  function EightBytes(n: nat): seq<byte> {
    FourBytes(n) + FourBytes(n / 0x1_0000_0000)
  }

  lemma TwoMore(n: nat, width: nat)
    requires 2 <= width
    ensures LittleEndian(n, width) == [n % 0x100, n / 0x100 % 0x100] + LittleEndian(n / 0x1_0000, width - 2)
  {
    assert n / 0x100 / 0x100 == n / 0x1_0000;
    assert LittleEndian(n, width) == [n % 0x100] + ([n / 0x100 % 0x100] + LittleEndian(n / 0x100 / 0x100, width - 2));
  }

  lemma FourMore(n: nat, width: nat)
    requires 4 <= width
    ensures LittleEndian(n, width) == FourBytes(n) + LittleEndian(n / 0x1_0000_0000, width - 4)
  {
    TwoMore(n, width);
    TwoMore(n / 0x1_0000, width - 2);
    assert n / 0x1_0000 / 0x100 == n / 0x100_0000 && n / 0x1_0000 / 0x1_0000 == n / 0x1_0000_0000;
    hide LittleEndian;
  }

  /** Lengths are written lowest byte first. */
  lemma LengthBytes(n: nat)
    ensures LittleEndian(n, 4) == FourBytes(n) && LittleEndian(n, 8) == EightBytes(n)
  {
    FourMore(n, 4);
    FourMore(n, 8);
    FourMore(n / 0x1_0000_0000, 4);
    assert LittleEndian(n / 0x1_0000_0000, 0) == [] && LittleEndian(n / 0x1_0000_0000 / 0x1_0000_0000, 0) == [];
    hide LittleEndian, FourBytes;
  }

  /** A pack of no members, and what one more member in front adds behind the magic. */
  lemma PackBytes(printer: Printer, member: Member, members: seq<Member>)
    ensures Encoding(printer, []) == [0x49, 0x53, 0x43, 0x50, 0x41, 0x43, 0x4B, 0x31, 0, 0, 0, 0]
    ensures Encoding(printer, [member] + members)
      == [0x49, 0x53, 0x43, 0x50, 0x41, 0x43, 0x4B, 0x31]
       + FourBytes(|printer(member.header)|) + printer(member.header)
       + EightBytes(member.header.size) + member.content
       + Encoding(printer, members)[8..]
  {
    hide *;
    EmptyPackBytes(printer);
    BlockBytes(printer, member);
    BlocksBehind(printer, member, members, 0);
    BehindMagic(printer, [member] + members);
    BehindMagic(printer, members);
    Regroup([0x49, 0x53, 0x43, 0x50, 0x41, 0x43, 0x4B, 0x31], FourBytes(|printer(member.header)|), printer(member.header),
            EightBytes(member.header.size), member.content, Blocks(printer, members, 0));
  }

  lemma EmptyPackBytes(printer: Printer)
    ensures Encoding(printer, []) == [0x49, 0x53, 0x43, 0x50, 0x41, 0x43, 0x4B, 0x31, 0, 0, 0, 0]
  {
    LengthBytes(0);
    ZeroBytes();
    hide LittleEndian, FourBytes, EightBytes;
  }

  lemma BlockBytes(printer: Printer, member: Member)
    ensures Block(printer, member)
      == FourBytes(|printer(member.header)|) + printer(member.header) + EightBytes(member.header.size) + member.content
  {
    LengthBytes(|printer(member.header)|);
    LengthBytes(member.header.size);
    hide LittleEndian, FourBytes, EightBytes;
  }

  lemma BehindMagic(printer: Printer, members: seq<Member>)
    ensures Encoding(printer, members) == [0x49, 0x53, 0x43, 0x50, 0x41, 0x43, 0x4B, 0x31] + Blocks(printer, members, 0)
    ensures Encoding(printer, members)[8..] == Blocks(printer, members, 0)
  {
    hide Blocks;
  }

  lemma Regroup(a: seq<byte>, b: seq<byte>, c: seq<byte>, d: seq<byte>, e: seq<byte>, f: seq<byte>)
    ensures a + ((b + c + d + e) + f) == a + b + c + d + e + f
  {
  }

  lemma ZeroBytes()
    ensures FourBytes(0) == [0, 0, 0, 0]
  {
  }

  lemma BlocksFrom(printer: Printer, members: seq<Member>, k: nat)
    requires k <= |members|
    ensures Blocks(printer, members, k)
         == if k == |members| then LittleEndian(0, 4) else Block(printer, members[k]) + Blocks(printer, members, k + 1)
  {
    hide Block, LittleEndian;
  }

  lemma {:induction false} BlocksBehind(printer: Printer, member: Member, members: seq<Member>, k: nat)
    requires k <= |members|
    ensures Blocks(printer, [member] + members, k + 1) == Blocks(printer, members, k)
    ensures k == 0 ==> Blocks(printer, [member] + members, 0) == Block(printer, member) + Blocks(printer, members, 0)
    decreases |members| - k
  {
    hide *;
    BlocksFrom(printer, members, k);
    BlocksFrom(printer, [member] + members, k + 1);
    BlocksFrom(printer, [member] + members, 0);
    if k < |members| {
      BlocksBehind(printer, member, members, k + 1);
    }
  }

  // ---- Sources ----

  /** The file has the size and time that the inventory recorded. */
  predicate Unchanged(source: Source) {
    source.length == source.record.size && source.sameTime
  }

  /** A pack of unchanged files decodes to their names, inventory and whole contents, in order. */
  lemma PackComesBack(printer: Printer, parse: Parser, sources: seq<Source>)
    requires Inverts(printer, parse) && forall i :: 0 <= i < |sources| ==> Ready(printer, sources[i])
    requires forall i :: 0 <= i < |sources| ==> sources[i].length == |sources[i].bytes|
    ensures var members := Decode(parse, NO_LIMITS, Encoding(printer, MembersOf(printer, sources)));
      && members.Some? && |members.value| == |sources|
      && forall i :: 0 <= i < |sources| ==>
           var record, header := sources[i].record, members.value[i].header;
           && Unchanged(sources[i]) && members.value[i].content == sources[i].bytes
           && record.path != [] && header.path == Join(record.path, |record.path|) && header.size == |sources[i].bytes|
           && header.algorithm == record.algorithm && header.digest == record.digest
  {
    var members := MembersOf(printer, sources);
    forall i | 0 <= i < |members|
      ensures Encodable(printer, NO_LIMITS, members[i])
    {
      assert Ready(printer, sources[i]);
    }
    RoundTrip(printer, parse, NO_LIMITS, members);
    hide Decode, Encoding, Encodable, Inverts, Join;
    forall i | 0 <= i < |sources|
      ensures Unchanged(sources[i]) && members[i].content == sources[i].bytes
    {
      assert Ready(printer, sources[i]);
      assert sources[i].bytes[..|sources[i].bytes|] == sources[i].bytes;
    }
  }

  // ---- The browser's bound ----

  lemma {:induction false} FullLength(printer: Printer, members: seq<Member>, k: nat)
    requires k <= |members|
    requires forall i :: 0 <= i < |members| ==> |printer(members[i].header)| == MAXIMUM_HEADER_BYTES
    requires forall i :: 0 <= i < |members| ==> |members[i].content| == members[i].header.size
    ensures |Blocks(printer, members, k)| == 4 + (|members| - k) * (MAXIMUM_HEADER_BYTES + 12) + SizeSum(members[k..])
    decreases |members| - k
  {
    if k == |members| {
      assert members[k..] == [];
    } else {
      FullLength(printer, members, k + 1);
      assert members[k..][1..] == members[k + 1..];
      OneMoreMember(|members| - (k + 1), MAXIMUM_HEADER_BYTES + 12);
      hide SizeSum, LittleEndian;
      assert |Block(printer, members[k])| == 4 + MAXIMUM_HEADER_BYTES + 8 + members[k].header.size;
    }
  }

  /** The decoding bound is tight: a pack whose headers are all as large as allowed reaches it. */
  lemma BoundIsTight(plan: DownloadPlan, printer: Printer, parse: Parser, members: seq<Member>)
    requires Inverts(printer, parse) && Fulfils(plan, members, 0, 0)
    requires forall i :: 0 <= i < |members| ==>
      |printer(members[i].header)| == 1_048_576 && |members[i].content| == members[i].header.size <= 9_007_199_254_740_991
    ensures Downloadable(plan, parse, Encoding(printer, members))
    ensures |Encoding(printer, members)| == plan.MaximumDecoded()
  {
    FullLength(printer, members, 0);
    assert members[0..] == members;
    RoundTrip(printer, parse, BROWSER_LIMITS, members);
    hide Decode, Blocks, Inverts;
  }

  // ---- What the browser takes of a written pack ----

  /** A member as it may be written at all. */
  ghost predicate Writable(printer: Printer, member: Member) {
    |printer(member.header)| <= U32_MAX && |member.content| == member.header.size <= U64_MAX
  }

  ghost predicate InLimits(printer: Printer, limits: Limits, member: Member) {
    |printer(member.header)| <= limits.header && member.header.size <= limits.size
  }

  lemma OneBlockWithin(printer: Printer, limits: Limits, member: Member, rest: seq<byte>)
    requires Writable(printer, member) && printer(member.header) != []
    ensures WithinLimits(limits, Block(printer, member) + rest) <==> InLimits(printer, limits, member) && WithinLimits(limits, rest)
  {
    BlockLayout(printer, NO_LIMITS, member, rest);
    hide Block, FromLittleEndian;
  }

  lemma NothingWithin(limits: Limits)
    ensures WithinLimits(limits, LittleEndian(0, 4))
  {
    ZeroBytes();
    LengthBytes(0);
  }

  lemma {:induction false} BlocksWithin(printer: Printer, limits: Limits, members: seq<Member>, k: nat)
    requires k <= |members| && forall i :: 0 <= i < |members| ==> Writable(printer, members[i]) && printer(members[i].header) != []
    ensures WithinLimits(limits, Blocks(printer, members, k)) <==>
      forall i :: k <= i < |members| ==> InLimits(printer, limits, members[i])
    decreases |members| - k
  {
    hide *;
    BlocksFrom(printer, members, k);
    if k == |members| {
      NothingWithin(limits);
    } else {
      BlocksWithin(printer, limits, members, k + 1);
      OneBlockWithin(printer, limits, members[k], Blocks(printer, members, k + 1));
    }
  }

  /** A decoder with limits delivers a written pack whole exactly when each member is within them. */
  lemma DecodesExactly(printer: Printer, parse: Parser, limits: Limits, members: seq<Member>)
    requires Inverts(printer, parse) && limits.header <= U32_MAX && limits.size <= U64_MAX
    requires forall i :: 0 <= i < |members| ==> Writable(printer, members[i])
    ensures Decode(parse, limits, Encoding(printer, members)) ==
      if forall i :: 0 <= i < |members| ==> InLimits(printer, limits, members[i]) then Some(members) else None
  {
    assert forall i :: 0 <= i < |members| ==> Encodable(printer, NO_LIMITS, members[i]);
    assert forall i :: 0 <= i < |members| ==> printer(members[i].header) != [];
    RoundTrip(printer, parse, NO_LIMITS, members);
    BlocksWithin(printer, limits, members, 0);
    LimitsOnlyRefuse(parse, limits, Blocks(printer, members, 0));
    BehindMagic(printer, members);
    hide DecodeBlocks, WithinLimits, Blocks, InLimits, Writable, Encodable;
  }

  /** A written pack, cut into any chunks, gives the browser the content of the member it asked for
      exactly when the manifest names the right number of members, their bytes in total and that
      member's own header, and no member is too large for the browser. */
  method DownloadMember(plan: DownloadPlan, parse: Parser, chunks: seq<seq<byte>>, ghost printer: Printer, ghost members: seq<Member>)
    returns (content: Option<seq<byte>>)
    requires Inverts(printer, parse) && Concat(chunks, |chunks|) == Encoding(printer, members)
    requires forall i :: 0 <= i < |members| ==> Writable(printer, members[i])
    ensures content.Some? <==>
      && plan.packMemberCount == |members| && plan.packOriginalBytes == SizeSum(members)
      && plan.memberIndex < |members| && plan.selected == members[plan.memberIndex].header
      && forall i :: 0 <= i < |members| ==>
           |printer(members[i].header)| <= 1_048_576 && |members[i].content| <= 9_007_199_254_740_991
    ensures content.Some? ==> content.value == members[plan.memberIndex].content
  {
    DecodesExactly(printer, parse, BROWSER_LIMITS, members);
    hide Decode, Encoding, Concat, Inverts;
    var consumed;
    content, consumed := Download(plan, parse, chunks);
    assert forall i :: 0 <= i < |members| ==>
      (InLimits(printer, BROWSER_LIMITS, members[i]) <==>
        |printer(members[i].header)| <= 1_048_576 && |members[i].content| <= 9_007_199_254_740_991);
  }
}
