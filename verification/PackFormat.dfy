/** The ISCPACK1 container as a decoded byte stream: its encoder and its batch decoder.
    Zstandard is a lossless wrapper around this stream, and the header's JSON is any printer
    with a parser that inverts it. */
module PackFormat {
  import opened Common
  import opened Files

  datatype Header = Header(path: string, size: u64, algorithm: HashAlgorithm, digest: string)

  datatype Member = Member(header: Header, content: seq<byte>)

  type Printer = Header -> seq<byte>

  type Parser = seq<byte> -> Option<Header>

  /** The parser reads back what the printer writes, which is never empty. */
  ghost predicate Inverts(printer: Printer, parse: Parser) {
    forall h: Header :: parse(printer(h)) == Some(h) && printer(h) != []
  }

  const MAGIC: seq<byte> := [0x49, 0x53, 0x43, 0x50, 0x41, 0x43, 0x4B, 0x31]

  /** What a decoder refuses: the desktop decoder nothing, the others a header over 1 MiB, and
      the browser also sizes that are not safe integers. */
  datatype Limits = Limits(header: nat, size: nat)

  const NO_LIMITS: Limits := Limits(U32_MAX, U64_MAX)

  const MAXIMUM_HEADER_BYTES: nat := 1024 * 1024

  const MAXIMUM_SAFE_INTEGER: nat := 0x1F_FFFF_FFFF_FFFF

  function Power256(width: nat): nat {
    if width == 0 then 1 else 256 * Power256(width - 1)
  }

  function LittleEndian(n: nat, width: nat): (s: seq<byte>)
    ensures |s| == width
  {
    if width == 0 then [] else [n % 256] + LittleEndian(n / 256, width - 1)
  }

  function FromLittleEndian(s: seq<byte>): nat {
    if s == [] then 0 else s[0] + 256 * FromLittleEndian(s[1..])
  }

  lemma {:induction false} LittleEndianRoundTrip(n: nat, width: nat)
    requires n < Power256(width)
    ensures FromLittleEndian(LittleEndian(n, width)) == n
  {
    if width == 0 {
    } else {
      LittleEndianRoundTrip(n / 256, width - 1);
      assert LittleEndian(n, width)[1..] == LittleEndian(n / 256, width - 1);
    }
  }

  lemma {:induction false} FromLittleEndianBound(s: seq<byte>)
    ensures FromLittleEndian(s) < Power256(|s|)
  {
    if s == [] {
    } else {
      FromLittleEndianBound(s[1..]);
    }
  }

  lemma Widths()
    ensures Power256(4) == U32_MAX + 1
    ensures Power256(8) == U64_MAX + 1
  {
    assert Power256(2) == 0x1_0000;
    assert Power256(4) == 0x1_0000 * 0x1_0000;
    assert Power256(6) == 0x1_0000 * Power256(4);
    assert Power256(8) == 0x1_0000 * Power256(6);
  }

  // ---- Encoding ----

  function Block(printer: Printer, member: Member): seq<byte> {
    var header := printer(member.header);
    LittleEndian(|header|, 4) + header + LittleEndian(member.header.size, 8) + member.content
  }

  /** The stream from member `k` on. */
  function Blocks(printer: Printer, members: seq<Member>, k: nat): seq<byte>
    requires k <= |members|
    decreases |members| - k
  {
    if k == |members| then LittleEndian(0, 4)
    else Block(printer, members[k]) + Blocks(printer, members, k + 1)
  }

  function Encoding(printer: Printer, members: seq<Member>): seq<byte> {
    MAGIC + Blocks(printer, members, 0)
  }

  /** What a member must be for a decoder with these limits to take it. */
  ghost predicate Encodable(printer: Printer, limits: Limits, member: Member) {
    && |printer(member.header)| <= limits.header <= U32_MAX
    && |member.content| == member.header.size <= limits.size
  }

  // ---- Decoding ----

  /** The members up to the end marker, which must end the stream. */
  function DecodeBlocks(parse: Parser, limits: Limits, s: seq<byte>): Option<seq<Member>>
    decreases |s|, 2
  {
    if |s| < 4 then None
    else
      var length := FromLittleEndian(s[..4]);
      if length == 0 then (if |s| == 4 then Some([]) else None)
      else if length > limits.header || |s| < 4 + length then None
      else
        match parse(s[4..4 + length])
        case None => None
        case Some(header) => DecodeContent(parse, limits, header, s[4 + length..])
  }

  function DecodeContent(parse: Parser, limits: Limits, header: Header, s: seq<byte>): Option<seq<Member>>
    decreases |s|, 1
  {
    if |s| < 8 then None
    else
      var size := FromLittleEndian(s[..8]);
      if size != header.size || size > limits.size || |s| < 8 + size then None
      else
        match DecodeBlocks(parse, limits, s[8 + size..])
        case None => None
        case Some(rest) => Some([Member(header, s[8..8 + size])] + rest)
  }

  function Decode(parse: Parser, limits: Limits, s: seq<byte>): Option<seq<Member>> {
    if |s| < 8 || s[..8] != MAGIC then None else DecodeBlocks(parse, limits, s[8..])
  }

  // ---- Laws ----

  lemma Concatenated<T>(a: seq<T>, b: seq<T>)
    ensures (a + b)[..|a|] == a && (a + b)[|a|..] == b
  {
  }

  lemma BlockLayout(printer: Printer, limits: Limits, member: Member, rest: seq<byte>)
    requires Encodable(printer, limits, member)
    ensures var header := printer(member.header);
      var s := Block(printer, member) + rest;
      var n := 4 + |header|;
      && |s| == n + 8 + |member.content| + |rest|
      && FromLittleEndian(s[..4]) == |header|
      && s[4..n] == header
      && FromLittleEndian(s[n..][..8]) == member.header.size
      && s[n..][8..8 + |member.content|] == member.content
      && s[n..][8 + |member.content|..] == rest
  {
    var header := printer(member.header);
    var s := Block(printer, member) + rest;
    var n := 4 + |header|;
    Widths();
    LittleEndianRoundTrip(|header|, 4);
    LittleEndianRoundTrip(member.header.size, 8);
    assert s[..4] == LittleEndian(|header|, 4);
    assert s[n..] == LittleEndian(member.header.size, 8) + (member.content + rest);
    assert s[n..][..8] == LittleEndian(member.header.size, 8);
  }

  lemma DecodeOneBlock(printer: Printer, parse: Parser, limits: Limits, member: Member, rest: seq<byte>, tail: seq<Member>)
    requires Inverts(printer, parse) && Encodable(printer, limits, member)
    requires DecodeBlocks(parse, limits, rest) == Some(tail)
    ensures DecodeBlocks(parse, limits, Block(printer, member) + rest) == Some([member] + tail)
  {
    var header := printer(member.header);
    assert parse(header) == Some(member.header) && header != [];
    BlockLayout(printer, limits, member, rest);
    hide Block, FromLittleEndian, LittleEndian;
    var s := Block(printer, member) + rest;
    var t := s[4 + |header|..];
    assert DecodeContent(parse, limits, member.header, t) == Some([member] + tail);
  }

  lemma EndMarker(parse: Parser, limits: Limits)
    ensures DecodeBlocks(parse, limits, LittleEndian(0, 4)) == Some([])
  {
    Widths();
    LittleEndianRoundTrip(0, 4);
    assert LittleEndian(0, 4)[..4] == LittleEndian(0, 4);
  }

  lemma {:induction false} BlocksRoundTrip(printer: Printer, parse: Parser, limits: Limits, members: seq<Member>, k: nat)
    requires Inverts(printer, parse) && k <= |members|
    requires forall i :: 0 <= i < |members| ==> Encodable(printer, limits, members[i])
    ensures DecodeBlocks(parse, limits, Blocks(printer, members, k)) == Some(members[k..])
    decreases |members| - k
  {
    hide DecodeBlocks, LittleEndian, Block, Encodable, Inverts;
    if k == |members| {
      EndMarker(parse, limits);
      assert members[k..] == [];
    } else {
      BlocksRoundTrip(printer, parse, limits, members, k + 1);
      DecodeOneBlock(printer, parse, limits, members[k], Blocks(printer, members, k + 1), members[k + 1..]);
      assert [members[k]] + members[k + 1..] == members[k..];
    }
  }

  /** Decoding an encoding delivers exactly the members that went in, in order. */
  lemma RoundTrip(printer: Printer, parse: Parser, limits: Limits, members: seq<Member>)
    requires Inverts(printer, parse)
    requires forall i :: 0 <= i < |members| ==> Encodable(printer, limits, members[i])
    ensures Decode(parse, limits, Encoding(printer, members)) == Some(members)
  {
    BlocksRoundTrip(printer, parse, limits, members, 0);
    Concatenated(MAGIC, Blocks(printer, members, 0));
    assert members[0..] == members;
  }

  lemma {:induction false} BlocksExtension(parse: Parser, limits: Limits, s: seq<byte>, more: seq<byte>)
    requires DecodeBlocks(parse, limits, s).Some? && more != []
    ensures DecodeBlocks(parse, limits, s + more) == None
    decreases |s|
  {
    var length := FromLittleEndian(s[..4]);
    assert (s + more)[..4] == s[..4];
    if length != 0 {
      var n := 4 + length;
      assert (s + more)[4..n] == s[4..n];
      assert (s + more)[n..] == s[n..] + more;
      var t := s[n..];
      var size := FromLittleEndian(t[..8]);
      assert (t + more)[..8] == t[..8];
      assert (t + more)[8 + size..] == t[8 + size..] + more;
      BlocksExtension(parse, limits, t[8 + size..], more);
    }
  }

  /** No accepted stream is a strict prefix of another: truncation and trailing bytes are both
      refused. */
  lemma PrefixFree(parse: Parser, limits: Limits, s: seq<byte>, more: seq<byte>)
    requires more != []
    ensures Decode(parse, limits, s).None? || Decode(parse, limits, s + more).None?
  {
    if Decode(parse, limits, s).Some? {
      assert (s + more)[..8] == s[..8];
      assert (s + more)[8..] == s[8..] + more;
      BlocksExtension(parse, limits, s[8..], more);
    }
  }

  /** Every strict prefix and every proper extension of an encoding is refused. */
  lemma EncodingExact(printer: Printer, parse: Parser, limits: Limits, members: seq<Member>, t: seq<byte>)
    requires Inverts(printer, parse)
    requires forall i :: 0 <= i < |members| ==> Encodable(printer, limits, members[i])
    requires t < Encoding(printer, members) || Encoding(printer, members) < t
    ensures Decode(parse, limits, t) == None
  {
    var s := Encoding(printer, members);
    RoundTrip(printer, parse, limits, members);
    if t < s {
      PrefixFree(parse, limits, t, s[|t|..]);
      assert t + s[|t|..] == s;
    } else {
      PrefixFree(parse, limits, s, t[|s|..]);
      assert s + t[|s|..] == t;
    }
  }

  /** The header lengths of the blocks in a stream all stay within a limit, and so do sizes. */
  predicate WithinLimits(limits: Limits, s: seq<byte>)
    decreases |s|
  {
    if |s| < 4 then true
    else
      var length := FromLittleEndian(s[..4]);
      if length == 0 then true
      else if length > limits.header then false
      else if |s| < 4 + length + 8 then true
      else
        var size := FromLittleEndian(s[4 + length..][..8]);
        if size > limits.size then false
        else if |s| < 4 + length + 8 + size then true
        else WithinLimits(limits, s[4 + length..][8 + size..])
  }

  /** A decoder with limits takes exactly what the unlimited one takes and the limits allow. */
  lemma {:induction false} LimitsOnlyRefuse(parse: Parser, limits: Limits, s: seq<byte>)
    requires limits.header <= U32_MAX && limits.size <= U64_MAX
    ensures DecodeBlocks(parse, limits, s) ==
      if WithinLimits(limits, s) then DecodeBlocks(parse, NO_LIMITS, s) else None
    decreases |s|
  {
    if 4 <= |s| {
      FromLittleEndianBound(s[..4]);
      Widths();
      var length := FromLittleEndian(s[..4]);
      if length != 0 && 4 + length + 8 <= |s| {
        var t := s[4 + length..];
        FromLittleEndianBound(t[..8]);
        var size := FromLittleEndian(t[..8]);
        if 8 + size <= |t| {
          LimitsOnlyRefuse(parse, limits, t[8 + size..]);
        }
      }
    }
  }

  function SizeSum(members: seq<Member>): nat {
    if members == [] then 0 else members[0].header.size + SizeSum(members[1..])
  }

  lemma OneMoreMember(count: nat, width: nat)
    ensures (count + 1) * width == count * width + width
  {
  }

  /** An accepted stream is no longer than its members account for. */
  lemma {:induction false} LengthBound(parse: Parser, limits: Limits, s: seq<byte>)
    requires DecodeBlocks(parse, limits, s).Some?
    ensures var members := DecodeBlocks(parse, limits, s).value;
      |s| <= 4 + |members| * (limits.header + 12) + SizeSum(members)
    decreases |s|
  {
    var length := FromLittleEndian(s[..4]);
    if length != 0 {
      var t := s[4 + length..];
      var size := FromLittleEndian(t[..8]);
      LengthBound(parse, limits, t[8 + size..]);
      var members := DecodeBlocks(parse, limits, s).value;
      var rest := DecodeBlocks(parse, limits, t[8 + size..]).value;
      assert members[1..] == rest && |s| == 4 + length + 8 + size + |t[8 + size..]|;
      OneMoreMember(|rest|, limits.header + 12);
    }
  }
}
