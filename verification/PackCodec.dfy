/** The encoder loop and the two batch decoder loops of the pack container. */
module PackCodec {
  import opened Common
  import opened Files
  import opened PackFormat

  datatype EncodeError = SourceModified | UnsafePath | HeaderTooLarge | SizeChanged(path: string)

  /** A member as the encoder meets it: what the inventory recorded, what the file system now
      reports, and what reading the file yields. */
  datatype Source = Source(record: FileRecord, length: nat, sameTime: bool, bytes: seq<byte>)

  predicate Normal(component: Component) {
    component != "" && component != "." && component != ".." && '/' !in component
  }

  function Join(path: Path, k: nat): string
    requires 0 < k <= |path|
  {
    if k == 1 then path[0] else Join(path, k - 1) + "/" + path[k - 1]
  }

  function PortablePath(path: Path): Option<string> {
    if path == [] || exists i :: 0 <= i < |path| && !Normal(path[i]) then None else Some(Join(path, |path|))
  }

  function HeaderOf(record: FileRecord, path: string): Header {
    Header(path, record.size, record.algorithm, record.digest)
  }

  /** Nothing about the member stands in the encoder's way. */
  predicate Ready(printer: Printer, source: Source) {
    && source.length == source.record.size && source.sameTime
    && PortablePath(source.record.path).Some?
    && |printer(HeaderOf(source.record, PortablePath(source.record.path).value))| <= U32_MAX
    && source.record.size <= |source.bytes|
  }

  function MemberOf(source: Source): Member
    requires PortablePath(source.record.path).Some? && source.record.size <= |source.bytes|
  {
    Member(HeaderOf(source.record, PortablePath(source.record.path).value), source.bytes[..source.record.size])
  }

  function MembersOf(printer: Printer, sources: seq<Source>): seq<Member>
    requires forall i :: 0 <= i < |sources| ==> Ready(printer, sources[i])
  {
    seq(|sources|, i requires 0 <= i < |sources| => assert Ready(printer, sources[i]); MemberOf(sources[i]))
  }

  /** The blocks of the first `k` members. */
  function Written(printer: Printer, members: seq<Member>, k: nat): seq<byte>
    requires k <= |members|
  {
    if k == 0 then MAGIC else Written(printer, members, k - 1) + Block(printer, members[k - 1])
  }

  lemma {:induction false} WrittenIsEncoding(printer: Printer, members: seq<Member>, k: nat)
    requires k <= |members|
    ensures Written(printer, members, k) + Blocks(printer, members, k) == Encoding(printer, members)
  {
    hide Block;
    if k == 0 {
    } else {
      WrittenIsEncoding(printer, members, k - 1);
      var block := Block(printer, members[k - 1]);
      assert Blocks(printer, members, k - 1) == block + Blocks(printer, members, k);
      Associate(Written(printer, members, k - 1), block, Blocks(printer, members, k));
    }
  }

  lemma Associate<T>(a: seq<T>, b: seq<T>, c: seq<T>)
    ensures (a + b) + c == a + (b + c)
  {
  }

  lemma {:induction false} WrittenAgrees(printer: Printer, a: seq<Member>, b: seq<Member>, k: nat)
    requires k <= |a| && k <= |b| && forall i :: 0 <= i < k ==> a[i] == b[i]
    ensures Written(printer, a, k) == Written(printer, b, k)
  {
    if k == 0 {
    } else {
      WrittenAgrees(printer, a, b, k - 1);
    }
  }

  /** Why a member is refused: the file changed since it was recorded, its path has no portable
      name, its header is too large to count, or it ended early. */
  predicate Refused(printer: Printer, source: Source, error: EncodeError) {
    var record := source.record;
    var changed := source.length != record.size || !source.sameTime;
    var unnamed := record.path == [] || exists i :: 0 <= i < |record.path| && !Normal(record.path[i]);
    match error
    case SourceModified => changed
    case UnsafePath => !changed && unnamed
    case HeaderTooLarge =>
      !changed && !unnamed && 0xFFFF_FFFF < |printer(HeaderOf(record, Join(record.path, |record.path|)))|
    case SizeChanged(path) =>
      !changed && !unnamed && path == Join(record.path, |record.path|) && |source.bytes| < record.size
  }

  /** Writes one member's block. */
  method EncodeMember(printer: Printer, source: Source) returns (r: Result<seq<byte>, EncodeError>)
    ensures r.Success? <==> Ready(printer, source)
    ensures r.Failure? ==> Refused(printer, source, r.error)
    ensures r.Success? ==>
      && r.value == Block(printer, MemberOf(source))
      && |r.value| == 4 + |printer(MemberOf(source).header)| + 8 + source.record.size
  {
    if source.length != source.record.size || !source.sameTime {
      return Failure(SourceModified);
    }
    var path := PortablePath(source.record.path);
    if path.None? {
      return Failure(UnsafePath);
    }
    var encoded := printer(HeaderOf(source.record, path.value));
    if |encoded| > U32_MAX {
      return Failure(HeaderTooLarge);
    }
    var copied := Take(source.bytes, source.record.size);
    if |copied| != source.record.size {
      return Failure(SizeChanged(path.value));
    }
    return Success(LittleEndian(|encoded|, 4) + encoded + LittleEndian(source.record.size, 8) + copied);
  }

  predicate AllReady(printer: Printer, sources: seq<Source>) {
    forall i :: 0 <= i < |sources| ==> Ready(printer, sources[i])
  }

  /** Streams the members out. It succeeds exactly when every member is ready, and then the
      stream is the members' encoding and the count its length; the first member that is not
      gives the error. */
  method EncodePack(printer: Printer, sources: seq<Source>) returns (r: Result<(seq<byte>, u64), EncodeError>)
    ensures r.Success? <==> forall i :: 0 <= i < |sources| ==> Ready(printer, sources[i])
    ensures r.Failure? ==>
      exists i :: 0 <= i < |sources| && Refused(printer, sources[i], r.error) && AllReady(printer, sources[..i])
    ensures r.Success? ==>
      && r.value.0 == Encoding(printer, MembersOf(printer, sources))
      && r.value.1 == Min(|r.value.0|, U64_MAX)
  {
    hide Ready, Block, MemberOf, Refused;
    var out: seq<byte> := MAGIC;
    var written: u64 := |MAGIC|;
    ghost var members: seq<Member> := [];
    var i := 0;
    while i < |sources|
      invariant 0 <= i <= |sources| && |members| == i
      invariant forall k :: 0 <= k < i ==> Ready(printer, sources[k])
      invariant forall k :: 0 <= k < i ==> MemberIs(printer, sources[k], members[k])
      invariant out == Written(printer, members, i)
      invariant written == Min(|out|, U64_MAX)
    {
      var block := EncodeMember(printer, sources[i]);
      if block.Failure? {
        return Failure(block.error);
      }
      ghost var member := ReadyMember(printer, sources[i]);
      WrittenAgrees(printer, members, members + [member], i);
      members := members + [member];
      out := out + block.value;
      written := SaturatingAdd(written, Min(|block.value|, U64_MAX));
      i := i + 1;
    }
    AllMembers(printer, sources, members);
    WrittenIsEncoding(printer, members, |members|);
    return Success((out + LittleEndian(0, 4), SaturatingAdd(written, 4)));
  }

  ghost function ReadyMember(printer: Printer, source: Source): Member
    requires Ready(printer, source)
  {
    MemberOf(source)
  }

  ghost predicate MemberIs(printer: Printer, source: Source, member: Member) {
    Ready(printer, source) && member == ReadyMember(printer, source)
  }

  lemma AllMembers(printer: Printer, sources: seq<Source>, members: seq<Member>)
    requires |members| == |sources|
    requires forall i :: 0 <= i < |sources| ==> MemberIs(printer, sources[i], members[i])
    ensures forall i :: 0 <= i < |sources| ==> Ready(printer, sources[i])
    ensures members == MembersOf(printer, sources)
  {
    forall i | 0 <= i < |sources|
      ensures Ready(printer, sources[i]) && members[i] == MembersOf(printer, sources)[i]
    {
      assert MemberIs(printer, sources[i], members[i]);
    }
  }

  // ---- The desktop and command-line decoder ----

  /** Reads one pack and hands every member on. */
  method DecodePack(parse: Parser, stream: seq<byte>) returns (delivered: Option<seq<Member>>)
    ensures delivered == Decode(parse, NO_LIMITS, stream)
  {
    if |stream| < 8 || stream[..8] != MAGIC {
      return None;
    }
    var rest, members := stream[8..], [];
    PrependNothing(DecodeBlocks(parse, NO_LIMITS, rest));
    while true
      invariant DecodeBlocks(parse, NO_LIMITS, stream[8..]) == Prepend(members, DecodeBlocks(parse, NO_LIMITS, rest))
      decreases |rest|
    {
      if |rest| < 4 {
        return None;
      }
      var length := FromLittleEndian(rest[..4]);
      FromLittleEndianBound(rest[..4]);
      FromLittleEndianBound(Take(rest[4..], 8));
      Widths();
      if length == 0 {
        PrependNothing(Some(members));
        return if |rest| != 4 then None else Some(members);
      }
      if |rest| < 4 + length {
        return None;
      }
      var header := parse(rest[4..4 + length]);
      if header.None? {
        return None;
      }
      ghost var before := rest;
      rest := rest[4 + length..];
      if |rest| < 8 {
        return None;
      }
      FromLittleEndianBound(rest[..8]);
      var size := FromLittleEndian(rest[..8]);
      if size != header.value.size || |rest| < 8 + size {
        return None;
      }
      ghost var next := DecodeBlocks(parse, NO_LIMITS, rest[8 + size..]);
      var member := Member(header.value, rest[8..8 + size]);
      assert DecodeBlocks(parse, NO_LIMITS, before) == Prepend([member], next);
      PrependMore(members, member, next);
      members := members + [member];
      rest := rest[8 + size..];
    }
  }

  function Prepend(members: seq<Member>, rest: Option<seq<Member>>): Option<seq<Member>> {
    if rest.None? then None else Some(members + rest.value)
  }

  lemma PrependNothing(rest: Option<seq<Member>>)
    ensures Prepend([], rest) == rest
    ensures rest.Some? ==> Prepend(rest.value, Some([])) == rest
  {
    if rest.Some? {
      assert [] + rest.value == rest.value && rest.value + [] == rest.value;
    }
  }

  lemma PrependMore(members: seq<Member>, member: Member, rest: Option<seq<Member>>)
    ensures Prepend(members, Prepend([member], rest)) == Prepend(members + [member], rest)
  {
    if rest.Some? {
      Associate(members, [member], rest.value);
    }
  }

  // ---- The Registry's streaming decoder ----

  const REGISTRY_LIMITS: Limits := Limits(MAXIMUM_HEADER_BYTES, U64_MAX)

  /** A stream whose reads may return fewer bytes than asked for, but never none before its end. */
  class DecodedStream {
    const data: seq<byte>
    var position: nat

    ghost predicate Valid()
      reads this
    {
      position <= |data|
    }

    ghost function Rest(): seq<byte>
      reads this
      requires Valid()
    {
      data[position..]
    }

    constructor (bytes: seq<byte>)
      ensures Valid() && Rest() == bytes
    {
      data, position := bytes, 0;
    }

    method Read(size: nat) returns (chunk: seq<byte>)
      requires Valid()
      modifies this`position
      ensures Valid() && |chunk| <= size && chunk + Rest() == old(Rest())
      ensures chunk == [] <==> size == 0 || old(Rest()) == []
    {
      var wanted: nat := *;
      var available := Min(size, |data| - position);
      var count := if available == 0 then 0 else Min(Max(wanted, 1), available);
      chunk := data[position..position + count];
      position := position + count;
    }

    /** Reads on until `size` bytes are there, or the stream ends. */
    method ReadExact(size: nat) returns (result: Option<seq<byte>>)
      requires Valid()
      modifies this`position
      ensures Valid()
      ensures result.Some? <==> size <= |old(Rest())|
      ensures result.Some? ==> result.value == old(Rest())[..size] && Rest() == old(Rest())[size..]
    {
      ghost var start := Rest();
      var read: seq<byte> := [];
      while |read| < size
        invariant Valid() && |read| <= size && read + Rest() == start
        decreases size - |read|
      {
        ghost var rest := Rest();
        var chunk := Read(size - |read|);
        if chunk == [] {
          return None;
        }
        Associate(read, chunk, Rest());
        read := read + chunk;
      }
      Concatenated(read, Rest());
      return Some(read);
    }

    /** The consumer's loop over a member of `remaining` bytes: chunks until the member ends. */
    method ReadMember(size: nat) returns (result: Option<seq<byte>>)
      requires Valid()
      modifies this`position
      ensures Valid()
      ensures result.Some? <==> size <= |old(Rest())|
      ensures result.Some? ==> result.value == old(Rest())[..size] && Rest() == old(Rest())[size..]
    {
      ghost var start := Rest();
      var remaining := size;
      var read: seq<byte> := [];
      while 0 < remaining
        invariant Valid() && 0 <= remaining && |read| + remaining == size && read + Rest() == start
        decreases remaining
      {
        var buffer: nat := *;
        var value := Read(Min(Max(buffer, 1), remaining));
        if value == [] {
          return None;
        }
        Associate(read, value, Rest());
        remaining := remaining - |value|;
        read := read + value;
      }
      Concatenated(read, Rest());
      return Some(read);
    }

    /** Reads one member, the end of the pack, or something that is neither. */
    method NextMember(parse: Parser) returns (next: Next)
      requires Valid()
      modifies this`position
      ensures Valid()
      ensures match next
        case Bad => DecodeBlocks(parse, REGISTRY_LIMITS, old(Rest())) == None
        case End => DecodeBlocks(parse, REGISTRY_LIMITS, old(Rest())) == Some([])
        case Got(member) =>
          && |Rest()| < |old(Rest())|
          && DecodeBlocks(parse, REGISTRY_LIMITS, old(Rest()))
             == Prepend([member], DecodeBlocks(parse, REGISTRY_LIMITS, Rest()))
    {
      ghost var before := Rest();
      var length := ReadExact(4);
      if length.None? {
        return Bad;
      }
      var headerSize := FromLittleEndian(length.value);
      if headerSize == 0 {
        var trailing := Read(1);
        return if trailing != [] then Bad else End;
      }
      if headerSize > MAXIMUM_HEADER_BYTES {
        return Bad;
      }
      var encoded := ReadExact(headerSize);
      if encoded.None? {
        return Bad;
      }
      SliceOfRest(before, 4, headerSize);
      var header := parse(encoded.value);
      if header.None? {
        return Bad;
      }
      ghost var t := Rest();
      assert DecodeBlocks(parse, REGISTRY_LIMITS, before) == DecodeContent(parse, REGISTRY_LIMITS, header.value, t);
      hide DecodeBlocks;
      var content := ReadContent(parse, header.value);
      return if content.None? then Bad else Got(Member(header.value, content.value));
    }

    method ReadContent(parse: Parser, header: Header) returns (content: Option<seq<byte>>)
      requires Valid()
      modifies this`position
      ensures Valid() && (content.Some? ==> |Rest()| <= |old(Rest())|)
      ensures content.None? ==> DecodeContent(parse, REGISTRY_LIMITS, header, old(Rest())) == None
      ensures content.Some? ==>
        DecodeContent(parse, REGISTRY_LIMITS, header, old(Rest()))
        == Prepend([Member(header, content.value)], DecodeBlocks(parse, REGISTRY_LIMITS, Rest()))
    {
      hide DecodeBlocks;
      ghost var t := Rest();
      var size := ReadExact(8);
      if size.None? {
        return None;
      }
      FromLittleEndianBound(size.value);
      Widths();
      var contentSize := FromLittleEndian(size.value);
      if header.size != contentSize {
        return None;
      }
      content := ReadMember(contentSize);
      if content.Some? {
        SliceOfRest(t, 8, contentSize);
      }
    }

    /** The members of a pack, in order, or nothing when the format is violated. */
    method IterPackMembers(parse: Parser) returns (members: Option<seq<Member>>)
      requires Valid()
      modifies this`position
      ensures members == Decode(parse, REGISTRY_LIMITS, old(Rest()))
    {
      ghost var stream := Rest();
      var magic := ReadExact(8);
      if magic != Some(MAGIC) {
        return None;
      }
      assert Decode(parse, REGISTRY_LIMITS, stream) == DecodeBlocks(parse, REGISTRY_LIMITS, Rest());
      hide DecodeBlocks, Decode;
      var read: seq<Member> := [];
      PrependNothing(DecodeBlocks(parse, REGISTRY_LIMITS, Rest()));
      while true
        invariant Valid()
        invariant Decode(parse, REGISTRY_LIMITS, stream) == Prepend(read, DecodeBlocks(parse, REGISTRY_LIMITS, Rest()))
        decreases |Rest()|
      {
        var next := NextMember(parse);
        match next {
          case Bad => return None;
          case End =>
            PrependNothing(Some(read));
            return Some(read);
          case Got(member) =>
            PrependMore(read, member, DecodeBlocks(parse, REGISTRY_LIMITS, Rest()));
            read := read + [member];
        }
      }
    }
  }

  datatype Next = Bad | End | Got(member: Member)

  lemma SliceOfRest<T>(s: seq<T>, skip: nat, size: nat)
    requires skip + size <= |s|
    ensures s[skip..][..size] == s[skip..skip + size]
    ensures s[skip..][size..] == s[skip + size..]
  {
  }

  /** The two decoders agree on every encoding whose headers are within the Registry's limit. */
  lemma DecodersAgree(printer: Printer, parse: Parser, members: seq<Member>)
    requires Inverts(printer, parse)
    requires forall i :: 0 <= i < |members| ==> Encodable(printer, REGISTRY_LIMITS, members[i])
    ensures Decode(parse, REGISTRY_LIMITS, Encoding(printer, members))
         == Decode(parse, NO_LIMITS, Encoding(printer, members)) == Some(members)
  {
    RoundTrip(printer, parse, REGISTRY_LIMITS, members);
    RoundTrip(printer, parse, NO_LIMITS, members);
  }
}
