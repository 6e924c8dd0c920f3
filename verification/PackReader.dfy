/** The browser's incremental pack reader, fed by chunks that end anywhere. */
module PackReader {
  import opened Common
  import opened Files
  import opened PackFormat

  const BROWSER_LIMITS: Limits := Limits(MAXIMUM_HEADER_BYTES, MAXIMUM_SAFE_INTEGER)

  /** What the manifest says of the pack and of the one member to extract. */
  datatype DownloadPlan = DownloadPlan(packOriginalBytes: nat, packMemberCount: nat, memberIndex: nat, selected: Header)
  {
    function MaximumDecoded(): nat {
      12 + packOriginalBytes + packMemberCount * (MAXIMUM_HEADER_BYTES + 12)
    }
  }

  // ---- One byte at a time ----

  datatype Phase =
    | Magic
    | HeaderSize
    | HeaderText(size: nat)
    | Size(header: Header)
    | Body(remaining: nat, selected: bool)
    | Done
    | Failed

  datatype State = State(phase: Phase, pending: seq<byte>, index: nat, bodyTotal: nat, found: bool, consumed: seq<byte>)

  const START: State := State(Magic, [], 0, 0, false, [])

  function Required(phase: Phase): nat {
    match phase
    case Magic => 8
    case HeaderSize => 4
    case HeaderText(size) => size
    case Size(_) => 8
    case _ => 0
  }

  /** A complete field has been read; `st.pending` is already empty. */
  function Complete(plan: DownloadPlan, parse: Parser, st: State, field: seq<byte>): State {
    match st.phase
    case Magic => st.(phase := if field == MAGIC then HeaderSize else Failed)
    case HeaderSize =>
      var size := FromLittleEndian(field);
      if size > MAXIMUM_HEADER_BYTES || (size != 0 && st.index >= plan.packMemberCount) then st.(phase := Failed)
      else st.(phase := if size == 0 then Done else HeaderText(size))
    case HeaderText(_) =>
      st.(phase := if parse(field).Some? then Size(parse(field).value) else Failed)
    case Size(header) =>
      var size := FromLittleEndian(field);
      var selected := st.index == plan.memberIndex;
      if size > MAXIMUM_SAFE_INTEGER || size != header.size
         || st.bodyTotal + size > plan.packOriginalBytes
         || (selected && header != plan.selected) then
        st.(phase := Failed)
      else
        var next := st.(bodyTotal := st.bodyTotal + size, found := st.found || selected);
        if size == 0 then next.(phase := HeaderSize, index := st.index + 1) else next.(phase := Body(size, selected))
    case _ => st
  }

  function StepByte(plan: DownloadPlan, parse: Parser, st: State, b: byte): State {
    match st.phase
    case Done => st.(phase := Failed)
    case Failed => st
    case Body(remaining, selected) =>
      var next := st.(consumed := if selected then st.consumed + [b] else st.consumed);
      if remaining <= 1 then next.(phase := HeaderSize, index := st.index + 1)
      else next.(phase := Body(remaining - 1, selected))
    case _ =>
      var pending := st.pending + [b];
      if |pending| < Required(st.phase) then st.(pending := pending)
      else Complete(plan, parse, st.(pending := []), pending)
  }

  function Feed(plan: DownloadPlan, parse: Parser, st: State, s: seq<byte>): State
    decreases |s|
  {
    if s == [] then st else Feed(plan, parse, StepByte(plan, parse, st, s[0]), s[1..])
  }

  ghost predicate Finishes(plan: DownloadPlan, st: State) {
    && st.phase.Done? && st.pending == [] && st.found
    && st.index == plan.packMemberCount && st.bodyTotal == plan.packOriginalBytes
  }

  /** Chunk boundaries do not matter, not even to what a failing stream has consumed. */
  lemma {:induction false} FeedAppend(plan: DownloadPlan, parse: Parser, st: State, a: seq<byte>, b: seq<byte>)
    ensures Feed(plan, parse, st, a + b) == Feed(plan, parse, Feed(plan, parse, st, a), b)
    decreases |a|
  {
    hide StepByte;
    if a == [] {
      assert a + b == b;
    } else {
      assert (a + b)[1..] == a[1..] + b;
      FeedAppend(plan, parse, StepByte(plan, parse, st, a[0]), a[1..], b);
    }
  }

  lemma {:induction false} FeedFailed(plan: DownloadPlan, parse: Parser, st: State, s: seq<byte>)
    requires st.phase.Failed?
    ensures Feed(plan, parse, st, s) == st
    decreases |s|
  {
    if s == [] {
    } else {
      FeedFailed(plan, parse, st, s[1..]);
    }
  }

  ghost predicate InField(st: State) {
    (st.phase.Magic? || st.phase.HeaderSize? || st.phase.HeaderText? || st.phase.Size?)
    && |st.pending| < Required(st.phase)
  }

  /** Bytes of one field only accumulate, until the field is complete. */
  lemma {:induction false} FeedField(plan: DownloadPlan, parse: Parser, st: State, s: seq<byte>)
    requires InField(st) && |st.pending| + |s| <= Required(st.phase)
    ensures Feed(plan, parse, st, s) ==
      if |st.pending| + |s| < Required(st.phase) then st.(pending := st.pending + s)
      else Complete(plan, parse, st.(pending := []), st.pending + s)
    decreases |s|
  {
    hide Complete;
    if s == [] {
      assert st.pending + s == st.pending;
    } else {
      var pending := st.pending + [s[0]];
      assert pending + s[1..] == st.pending + s;
      if |pending| < Required(st.phase) {
        FeedField(plan, parse, st.(pending := pending), s[1..]);
      } else {
        assert s[1..] == [] && pending == st.pending + s;
      }
    }
  }

  lemma {:induction false} FeedBody(plan: DownloadPlan, parse: Parser, st: State, s: seq<byte>)
    requires st.phase.Body? && 0 < st.phase.remaining && |s| <= st.phase.remaining
    ensures Feed(plan, parse, st, s) ==
      var next := st.(consumed := if st.phase.selected then st.consumed + s else st.consumed);
      if |s| < st.phase.remaining then next.(phase := Body(st.phase.remaining - |s|, st.phase.selected))
      else next.(phase := HeaderSize, index := st.index + 1)
    decreases |s|
  {
    if s == [] {
      assert st.consumed + s == st.consumed;
    } else if 1 < st.phase.remaining {
      var step := StepByte(plan, parse, st, s[0]);
      FeedBody(plan, parse, step, s[1..]);
      assert (st.consumed + [s[0]]) + s[1..] == st.consumed + s;
    } else {
      assert s == [s[0]] && s[1..] == [];
    }
  }

  // ---- The reader ----

  datatype PhaseName = AtMagic | AtHeaderSize | AtHeader | AtSize | AtBody | AtDone

  class CourierPackReader {
    const plan: DownloadPlan
    const parse: Parser
    var pending: seq<byte>
    var total: nat
    var bodyTotal: nat
    var phase: PhaseName
    var remaining: nat
    var index: nat
    var found: bool
    var headerSize: nat
    var header: Header
    var selected: bool
    var consumed: seq<byte>

    ghost function Abs(): (st: State)
      reads this
      ensures st.consumed == consumed
    {
      var current := match phase
        case AtMagic => Magic
        case AtHeaderSize => HeaderSize
        case AtHeader => HeaderText(headerSize)
        case AtSize => Size(header)
        case AtBody => Body(remaining, selected)
        case AtDone => Done;
      State(current, pending, index, bodyTotal, found, consumed)
    }

    ghost predicate Valid()
      reads this
    {
      match phase
      case AtBody => 0 < remaining && pending == []
      case AtDone => pending == []
      case _ => InField(Abs())
    }

    constructor (plan: DownloadPlan, parse: Parser)
      ensures Valid() && Abs() == START && total == 0 && this.plan == plan && this.parse == parse
    {
      this.plan, this.parse := plan, parse;
      pending, total, bodyTotal, phase := [], 0, 0, AtMagic;
      remaining, index, found, consumed := 0, 0, false, [];
      headerSize, header, selected := 0, plan.selected, false;
    }

    /** Handles a complete field; a false result is the thrown error. */
    method FinishField(buffer: seq<byte>) returns (ok: bool)
      requires pending == [] && (phase.AtMagic? || phase.AtHeaderSize? || phase.AtHeader? || phase.AtSize?)
      modifies this
      ensures total == old(total) && consumed == old(consumed)
      ensures ok <==> !Complete(plan, parse, old(Abs()), buffer).phase.Failed?
      ensures ok ==> Valid() && Abs() == Complete(plan, parse, old(Abs()), buffer)
    {
      match phase {
        case AtMagic =>
          if buffer != MAGIC {
            return false;
          }
          phase := AtHeaderSize;
        case AtHeaderSize =>
          headerSize := FromLittleEndian(buffer);
          if headerSize > MAXIMUM_HEADER_BYTES || (headerSize != 0 && index >= plan.packMemberCount) {
            return false;
          }
          phase := if headerSize != 0 then AtHeader else AtDone;
        case AtHeader =>
          var parsed := parse(buffer);
          if parsed.None? {
            return false;
          }
          header, phase := parsed.value, AtSize;
        case AtSize =>
          var size := FromLittleEndian(buffer);
          if size > MAXIMUM_SAFE_INTEGER || size != header.size {
            return false;
          }
          bodyTotal := bodyTotal + size;
          if bodyTotal > plan.packOriginalBytes {
            return false;
          }
          selected := index == plan.memberIndex;
          if selected {
            if header != plan.selected {
              return false;
            }
            found := true;
          }
          remaining := size;
          phase := if remaining != 0 then AtBody else AtHeaderSize;
          if remaining == 0 {
            index := index + 1;
          }
      }
      return true;
    }

    method TakeBody(piece: seq<byte>)
      requires Valid() && phase.AtBody? && 0 < |piece| <= remaining
      modifies this
      ensures Valid() && Abs() == Feed(plan, parse, old(Abs()), piece) && total == old(total)
    {
      FeedBody(plan, parse, Abs(), piece);
      if selected {
        consumed := consumed + piece;
      }
      remaining := remaining - |piece|;
      if remaining == 0 {
        phase, index := AtHeaderSize, index + 1;
      }
    }

    method TakeField(piece: seq<byte>) returns (ok: bool)
      requires Valid() && InField(Abs()) && 0 < |piece| <= Required(Abs().phase) - |pending|
      modifies this
      ensures total == old(total)
      ensures ok ==> Valid() && Abs() == Feed(plan, parse, old(Abs()), piece)
      ensures !ok ==>
        && Feed(plan, parse, old(Abs()), piece).phase.Failed?
        && consumed == Feed(plan, parse, old(Abs()), piece).consumed
    {
      ghost var st := Abs();
      FeedField(plan, parse, st, piece);
      CompleteConsumesNothing(plan, parse, st.(pending := []), pending + piece);
      hide Complete, Feed;
      var required := match phase case AtMagic => 8 case AtHeaderSize => 4 case AtHeader => headerSize case _ => 8;
      var buffer := pending + piece;
      pending := buffer;
      if |buffer| != required {
        return true;
      }
      pending := [];
      ok := FinishField(buffer);
    }

    /** A chunk that passes moves the reader on as its bytes would one by one. A chunk that does
        not pass either exceeds the decoding bound or holds a byte at which that walk fails. */
    method Push(chunk: seq<byte>) returns (ok: bool)
      requires Valid()
      modifies this
      ensures total == old(total) + |chunk|
      ensures ok ==> Valid() && Abs() == Feed(plan, parse, old(Abs()), chunk) && total <= plan.MaximumDecoded()
      ensures !ok && total > plan.MaximumDecoded() ==> consumed == old(consumed)
      ensures !ok && total <= plan.MaximumDecoded() ==>
        && Feed(plan, parse, old(Abs()), chunk).phase.Failed?
        && consumed == Feed(plan, parse, old(Abs()), chunk).consumed
    {
      total := total + |chunk|;
      if total > plan.MaximumDecoded() {
        return false;
      }
      ghost var target := Feed(plan, parse, Abs(), chunk);
      hide Feed, Complete, InField;
      assert chunk[0..] == chunk;
      var offset := 0;
      while offset < |chunk|
        invariant 0 <= offset <= |chunk| && Valid() && total == old(total) + |chunk|
        invariant Feed(plan, parse, Abs(), chunk[offset..]) == target
      {
        if phase.AtDone? {
          TrailingByte(plan, parse, Abs(), chunk[offset..]);
          return false;
        }
        var room := if phase.AtBody? then remaining else FieldRoom();
        var count := Min(room, |chunk| - offset);
        var piece := chunk[offset..offset + count];
        CutChunk(plan, parse, Abs(), chunk, offset, count);
        if phase.AtBody? {
          TakeBody(piece);
        } else {
          ghost var st := Abs();
          var passed := TakeField(piece);
          if !passed {
            FeedFailed(plan, parse, Feed(plan, parse, st, piece), chunk[offset + count..]);
            return false;
          }
        }
        offset := offset + count;
      }
      NothingFed(plan, parse, Abs(), chunk[offset..]);
      return true;
    }

    /** How many bytes the current field still lacks. */
    function FieldRoom(): (room: nat)
      reads this
      requires Valid() && !phase.AtDone? && !phase.AtBody?
      ensures InField(Abs()) && 0 < room == Required(Abs().phase) - |pending|
    {
      (match phase case AtMagic => 8 case AtHeaderSize => 4 case AtHeader => headerSize case _ => 8) - |pending|
    }

    method Finish() returns (ok: bool)
      requires Valid()
      ensures ok <==> Finishes(plan, Abs())
    {
      return phase.AtDone? && pending == [] && found && index == plan.packMemberCount
             && bodyTotal == plan.packOriginalBytes;
    }
  }

  lemma NothingFed(plan: DownloadPlan, parse: Parser, st: State, s: seq<byte>)
    requires s == []
    ensures Feed(plan, parse, st, s) == st
  {
  }

  lemma CompleteConsumesNothing(plan: DownloadPlan, parse: Parser, st: State, field: seq<byte>)
    ensures Complete(plan, parse, st, field).consumed == st.consumed
  {
  }

  lemma TrailingByte(plan: DownloadPlan, parse: Parser, st: State, s: seq<byte>)
    requires st.phase.Done? && s != []
    ensures Feed(plan, parse, st, s) == st.(phase := Failed)
  {
    FeedFailed(plan, parse, st.(phase := Failed), s[1..]);
  }

  lemma CutChunk(plan: DownloadPlan, parse: Parser, st: State, chunk: seq<byte>, offset: nat, count: nat)
    requires offset + count <= |chunk|
    ensures Feed(plan, parse, st, chunk[offset..])
         == Feed(plan, parse, Feed(plan, parse, st, chunk[offset..offset + count]), chunk[offset + count..])
  {
    FeedAppend(plan, parse, st, chunk[offset..offset + count], chunk[offset + count..]);
    assert chunk[offset..offset + count] + chunk[offset + count..] == chunk[offset..];
  }
}
