/** Resumable download of one verified object into a partial file that is renamed when done. */
module Download {
  import opened Common

  datatype DownloadError =
    | Paused
    | Crashed
    | TransportFailed
    | Refused(status: nat)
    | InvalidContentRange(offset: nat)
    | UnexpectedPartialContent
    | WrongSize(received: u64, expected: u64)

  /** A response: its status, the start of its Content-Range, and the body chunks that arrive
      before the body ends or the connection drops. */
  datatype Reply = Reply(status: nat, rangeStart: Option<nat>, body: seq<seq<byte>>)
  {
    predicate IsSuccess() {
      200 <= status < 300
    }

    function Body(): seq<byte> {
      Concat(body, |body|)
    }
  }

  const OK: nat := 200
  const PARTIAL_CONTENT: nat := 206

  /** A successful body is a prefix of the immutable object, or of the part of it that the
      Content-Range names. */
  predicate Honest(content: seq<byte>, reply: Reply) {
    reply.IsSuccess() ==>
      if reply.status == PARTIAL_CONTENT && reply.rangeStart.Some?
      then reply.Body() <= if reply.rangeStart.value <= |content| then content[reply.rangeStart.value..] else []
      else reply.Body() <= content
  }

  class ObjectServer {
    const content: seq<byte>

    constructor (content: seq<byte>)
      ensures this.content == content
    {
      this.content := content;
    }

    /** The server may ignore the range, honour it, or fail. */
    method Get(offset: nat) returns (reply: Option<Reply>)
      ensures reply.Some? ==> Honest(content, reply.value)
    {
      reply :| reply.Some? ==> Honest(content, reply.value);
    }
  }

  datatype Files = Files(destination: Option<seq<byte>>, partial: Option<seq<byte>>)

  class DownloadFolder {
    var destination: Option<seq<byte>>
    var partial: Option<seq<byte>>

    constructor ()
      ensures Abs() == Files(None, None)
    {
      destination, partial := None, None;
    }

    function Abs(): Files
      reads this
    {
      Files(destination, partial)
    }
  }

  /** The file is already there, as far as the caller's expectation can tell. */
  predicate AlreadyThere(before: Files, expected: Option<u64>) {
    before.destination.Some? && (expected.None? || expected.value == |before.destination.value|)
  }

  /** The partial file an attempt builds on: one that is too long is deleted. */
  function Usable(before: Files, expected: Option<u64>): Option<seq<byte>> {
    if before.partial.Some? && expected.Some? && expected.value < |before.partial.value| then None
    else before.partial
  }

  function Held(partial: Option<seq<byte>>): seq<byte> {
    if partial.Some? then partial.value else []
  }

  /** The reply continues the partial file instead of replacing it. */
  predicate Continues(offset: nat, reply: Reply) {
    0 < offset && reply.status == PARTIAL_CONTENT
  }

  /** A reply whose body is written to the partial file. */
  predicate Accepted(offset: nat, reply: Reply) {
    && reply.IsSuccess()
    && (Continues(offset, reply) ==> reply.rangeStart == Some(offset))
    && (reply.status == PARTIAL_CONTENT ==> 0 < offset)
  }

  /** How many bytes are counted as received when `written` bytes of the body are written. */
  function Counted(offset: nat, reply: Reply, written: nat): u64 {
    Min((if reply.status == OK then 0 else offset) + written, U64_MAX)
  }

  /** The partial file after `written` bytes of the reply's body. */
  function Content(held: seq<byte>, reply: Reply, written: nat): seq<byte> {
    (if Continues(|held|, reply) then held else []) + Take(reply.Body(), written)
  }

  /** The outcome of writing an accepted reply: interrupted, of the wrong size, or complete. */
  ghost predicate Received(expected: Option<u64>, held: seq<byte>, reply: Reply, written: nat,
                           after: Files, r: Result<u64, DownloadError>) {
    && Accepted(|held|, reply) && written <= |reply.Body()|
    && var counted := Counted(|held|, reply, written);
    && var content := Content(held, reply, written);
    || (r.Failure? && after == Files(None, Some(content)))
    || (&& written == |reply.Body()| && (expected.None? || expected.value == counted)
        && r == Success(counted) && after == Files(Some(content), None))
  }

  /** Everything one call may do, including a crash or a pause at any point. */
  ghost predicate Attempt(expected: Option<u64>, before: Files, reply: Option<Reply>, written: nat,
                          after: Files, r: Result<u64, DownloadError>) {
    var usable := Usable(before, expected);
    var held := Held(usable);
    if AlreadyThere(before, expected) then
      after == before && r == Success(|before.destination.value| as int) && written == 0
    else
      || (r.Failure? && written == 0
          && (after == before || after == Files(None, before.partial) || after == Files(None, usable)))
      || (if expected == Some(|held|) && 0 < |held|
          then written == 0 && after == Files(Some(held), None) && r == Success(|held|)
          else reply.Some? && Received(expected, held, reply.value, written, after, r))
  }

  ghost predicate IsPrefix(file: Option<seq<byte>>, content: seq<byte>) {
    file.Some? ==> file.value <= content
  }

  /** Both files hold prefixes of the object. */
  ghost predicate Prefixes(files: Files, content: seq<byte>) {
    IsPrefix(files.destination, content) && IsPrefix(files.partial, content) && |content| <= U64_MAX
  }

  /** A call that stops before it writes anything. */
  lemma StopsEarly(expected: Option<u64>, before: Files, reply: Option<Reply>, after: Files, r: Result<u64, DownloadError>)
    requires !AlreadyThere(before, expected) && r.Failure?
    requires after == before || after == Files(None, before.partial) || after == Files(None, Usable(before, expected))
    ensures Attempt(expected, before, reply, 0, after, r)
  {
    hide Received;
  }

  /** A call that finds the whole partial file there. */
  lemma Promotes(expected: Option<u64>, before: Files, held: seq<byte>, r: Result<u64, DownloadError>)
    requires !AlreadyThere(before, expected) && held == Held(Usable(before, expected))
    requires expected == Some(|held|) && 0 < |held| && r == Success(|held|)
    ensures Attempt(expected, before, None, 0, Files(Some(held), None), r)
  {
    hide Received;
  }

  /** A call that receives a reply. */
  lemma Receives(expected: Option<u64>, before: Files, held: seq<byte>, reply: Reply, written: nat,
                 after: Files, r: Result<u64, DownloadError>)
    requires !AlreadyThere(before, expected) && held == Held(Usable(before, expected))
    requires !(expected == Some(|held|) && 0 < |held|) && Received(expected, held, reply, written, after, r)
    ensures Attempt(expected, before, Some(reply), written, after, r)
  {
    hide Received;
  }

  method DownloadObjectResumable(server: ObjectServer, folder: DownloadFolder, expected: Option<u64>)
    returns (r: Result<u64, DownloadError>, ghost reply: Option<Reply>, ghost written: nat)
    requires Prefixes(folder.Abs(), server.content)
    modifies folder
    ensures Attempt(expected, old(folder.Abs()), reply, written, folder.Abs(), r)
    ensures reply.Some? ==> Honest(server.content, reply.value)
  {
    hide Concat, Honest, Take, Content, Counted, Attempt;
    reply, written := None, 0;
    ghost var before := folder.Abs();
    if folder.destination.Some? {
      var size := |folder.destination.value|;
      if expected.None? || expected.value == size {
        Already(before, expected, reply, Success(size));
        return Success(size), reply, written;
      }
      var crashed: bool := *;
      if crashed {
        StopsEarly(expected, before, reply, folder.Abs(), Failure(Crashed));
        return Failure(Crashed), reply, written;
      }
      folder.destination := None;
    }
    var crashed: bool := *;
    if crashed {
      StopsEarly(expected, before, reply, folder.Abs(), Failure(Crashed));
      return Failure(Crashed), reply, written;
    }
    if folder.partial.Some? && expected.Some? && |folder.partial.value| > expected.value {
      folder.partial := None;
    }
    ghost var held := Held(folder.partial);
    var offset := if folder.partial.Some? then |folder.partial.value| else 0;
    var paused: bool := *;
    if paused {
      StopsEarly(expected, before, reply, folder.Abs(), Failure(Paused));
      return Failure(Paused), reply, written;
    }
    if expected == Some(offset) && offset > 0 {
      Promotes(expected, before, held, Success(offset));
      folder.destination, folder.partial := folder.partial, None;
      return Success(offset), reply, written;
    }
    var got := server.Get(offset);
    reply := got;
    if got.None? {
      StopsEarly(expected, before, reply, folder.Abs(), Failure(TransportFailed));
      return Failure(TransportFailed), reply, written;
    }
    var response := got.value;
    if !response.IsSuccess() {
      StopsEarly(expected, before, reply, folder.Abs(), Failure(Refused(response.status)));
      return Failure(Refused(response.status)), reply, written;
    }
    var start, append := offset, false;
    if offset > 0 && response.status == PARTIAL_CONTENT {
      if response.rangeStart != Some(offset) {
        StopsEarly(expected, before, reply, folder.Abs(), Failure(InvalidContentRange(offset)));
        return Failure(InvalidContentRange(offset)), reply, written;
      }
      append := true;
    } else if offset > 0 && response.status == OK {
      start := 0;
    } else if response.status == PARTIAL_CONTENT && offset == 0 {
      StopsEarly(expected, before, reply, folder.Abs(), Failure(UnexpectedPartialContent));
      return Failure(UnexpectedPartialContent), reply, written;
    }
    if !append {
      folder.partial := Some([]);
    }
    r, written := WriteBody(folder, response, start, held, append);
    if r.Failure? {
      Receives(expected, before, held, response, written, folder.Abs(), r);
      return r, reply, written;
    }
    if expected.Some? && expected.value != r.value {
      Receives(expected, before, held, response, written, folder.Abs(), Failure(WrongSize(r.value, expected.value)));
      return Failure(WrongSize(r.value, expected.value)), reply, written;
    }
    folder.destination, folder.partial := folder.partial, None;
    Receives(expected, before, held, response, written, folder.Abs(), r);
    return r, reply, written;
  }

  lemma Already(before: Files, expected: Option<u64>, reply: Option<Reply>, r: Result<u64, DownloadError>)
    requires AlreadyThere(before, expected) && r == Success(|before.destination.value| as int)
    ensures Attempt(expected, before, reply, 0, before, r)
  {
    hide Received;
  }

  /** Appends the chunks to the partial file until the body ends or something interrupts it. */
  method WriteBody(folder: DownloadFolder, response: Reply, start: u64, ghost held: seq<byte>, append: bool)
    returns (r: Result<u64, DownloadError>, ghost written: nat)
    requires folder.partial == Some(if append then held else [])
    requires append == Continues(|held|, response)
    requires start == if response.status == OK then 0 else |held|
    modifies folder`partial
    ensures written <= |response.Body()|
    ensures folder.partial == Some(Content(held, response, written))
    ensures r.Success? ==> written == |response.Body()| && r.value == Counted(|held|, response, written)
  {
    hide Concat, Content, Take;
    var received: u64 := start;
    ConcatEnds(response.body, 0);
    ghost var base := if append then held else [];
    written := 0;
    var i := 0;
    while i < |response.body|
      invariant 0 <= i <= |response.body|
      invariant written == |Concat(response.body, i)|
      invariant folder.partial.Some? && folder.partial.value == base + Concat(response.body, i)
      invariant received == Min(start + written, U64_MAX)
    {
      var interruption: Option<DownloadError> := *;
      var chunk := response.body[i];
      var kept :| 0 <= kept <= |chunk|;
      ConcatEnds(response.body, i);
      if interruption.Some? {
        // A pause leaves whole chunks; a failed write or a crash may leave part of one.
        folder.partial := Some(folder.partial.value + chunk[..kept]);
        ghost var part := chunk[..kept];
        written := written + |part|;
        PartOfChunk(response, i, part);
        ContentFrom(held, response, written);
        assert folder.partial.value == base + (Concat(response.body, i) + part);
        return Failure(interruption.value), written;
      }
      folder.partial := Some(folder.partial.value + chunk);
      written := written + |chunk|;
      received := Min(received + |chunk|, U64_MAX);
      i := i + 1;
    }
    WholeBody(response);
    ContentFrom(held, response, written);
    return Success(received), written;
  }

  lemma ConcatEnds(chunks: seq<seq<byte>>, i: nat)
    requires i <= |chunks|
    ensures Concat(chunks, 0) == []
    ensures i < |chunks| ==> Concat(chunks, i + 1) == Concat(chunks, i) + chunks[i]
  {
  }

  lemma ContentFrom(held: seq<byte>, reply: Reply, written: nat)
    ensures Content(held, reply, written)
         == (if Continues(|held|, reply) then held else []) + Take(reply.Body(), written)
  {
  }

  lemma WholeBody(reply: Reply)
    ensures Take(reply.Body(), |reply.Body()|) == Concat(reply.body, |reply.body|) == reply.Body()
  {
  }

  /** The chunks before chunk `i` and the start of that chunk are a prefix of the whole body. */
  lemma PartOfChunk(reply: Reply, i: nat, part: seq<byte>)
    requires i < |reply.body| && part <= reply.body[i]
    ensures Take(reply.Body(), |Concat(reply.body, i)| + |part|) == Concat(reply.body, i) + part
    ensures |Concat(reply.body, i)| + |part| <= |reply.Body()|
  {
    ConcatPrefix(reply.body, i + 1, |reply.body|);
    assert Concat(reply.body, i) + part <= Concat(reply.body, i + 1);
  }

  // ---- One call ----

  /** Both files stay prefixes of the object, whatever the server does and wherever the call stops. */
  lemma AttemptKeepsPrefixes(content: seq<byte>, expected: Option<u64>, before: Files, reply: Option<Reply>,
                             written: nat, after: Files, r: Result<u64, DownloadError>)
    requires Prefixes(before, content) && Attempt(expected, before, reply, written, after, r)
    requires reply.Some? ==> Honest(content, reply.value)
    ensures Prefixes(after, content)
  {
    if reply.Some? && Received(expected, Held(Usable(before, expected)), reply.value, written, after, r) {
      ContentIsPrefix(content, Held(Usable(before, expected)), reply.value, written);
    }
    hide Concat, Honest, Take, Content, Counted;
  }

  /** What is written continues the object, or starts it over. */
  lemma ContentIsPrefix(content: seq<byte>, held: seq<byte>, reply: Reply, written: nat)
    requires held <= content && Honest(content, reply) && Accepted(|held|, reply) && written <= |reply.Body()|
    ensures Content(held, reply, written) <= content
  {
    hide Concat;
    var body := reply.Body();
    assert Take(body, written) == body[..written];
    if Continues(|held|, reply) {
      assert body <= content[|held|..];
      assert held + content[|held|..] == content;
    }
  }

  /** A successful reply to a resumed request that is neither OK nor Partial Content: the file
      starts over but the count does not. */
  predicate OddReply(before: Files, expected: Option<u64>, reply: Option<Reply>) {
    && !AlreadyThere(before, expected) && expected != Some(|Held(Usable(before, expected))|)
    && 0 < |Held(Usable(before, expected))|
    && reply.Some? && reply.value.IsSuccess()
    && reply.value.status != OK && reply.value.status != PARTIAL_CONTENT
  }

  /** A successful call with a known size delivers a file of that size when the reply was not an
      odd one, and a shorter file when it was, unless its body saturates the count. */
  lemma SuccessHasExpectedSize(content: seq<byte>, expected: Option<u64>, before: Files, reply: Option<Reply>,
                               written: nat, after: Files, r: Result<u64, DownloadError>)
    requires Prefixes(before, content) && Attempt(expected, before, reply, written, after, r)
    requires reply.Some? ==> Honest(content, reply.value)
    requires expected.Some? && r.Success?
    ensures after.destination.Some? && r.value == expected.value
    ensures !OddReply(before, expected, reply) ==> |after.destination.value| == expected.value
    ensures OddReply(before, expected, reply) ==>
      if written == U64_MAX then |after.destination.value| == expected.value
      else |after.destination.value| < expected.value
  {
    hide Concat;
    if reply.Some? && !AlreadyThere(before, expected) && Received(expected, Held(Usable(before, expected)), reply.value, written, after, r) {
      var held := Held(Usable(before, expected));
      assert after.destination == Some(Content(held, reply.value, written));
      assert Take(reply.value.Body(), written) == reply.value.Body();
      assert |Content(held, reply.value, written)| == written + if Continues(|held|, reply.value) then |held| else 0;
    }
  }

  /** A successful call that expects the object's own size, and does not meet an odd reply,
      delivers the object. */
  lemma SuccessDelivers(content: seq<byte>, expected: Option<u64>, before: Files, reply: Option<Reply>,
                        written: nat, after: Files, r: Result<u64, DownloadError>)
    requires Prefixes(before, content) && Attempt(expected, before, reply, written, after, r)
    requires reply.Some? ==> Honest(content, reply.value)
    requires expected == Some(|content|) && r.Success? && !OddReply(before, expected, reply)
    ensures after.destination == Some(content)
  {
    SuccessHasExpectedSize(content, expected, before, reply, written, after, r);
    AttemptKeepsPrefixes(content, expected, before, reply, written, after, r);
    var delivered := after.destination.value;
    assert delivered == content[..|delivered|] == content;
  }

  /** An odd reply whose body is cut short can pass the size check with the wrong file. */
  lemma OddReplyDeliversShortFile()
    ensures exists content: seq<byte>, before: Files, reply: Reply, written: nat, after: Files ::
      && Prefixes(before, content) && Honest(content, reply)
      && Attempt(Some(|content|), before, Some(reply), written, after, Success(|content|))
      && after.destination.Some? && after.destination.value != content
  {
    var content: seq<byte> := [1, 2, 3];
    var before := Files(None, Some([1]));
    var reply := Reply(203, None, [[1, 2]]);
    assert Concat(reply.body, 1) == Concat(reply.body, 0) + [1, 2] == [1, 2];
    var after := Files(Some([1, 2]), None);
    assert Content([1], reply, 2) == [1, 2];
    assert Attempt(Some(|content|), before, Some(reply), 2, after, Success(|content|));
    assert after.destination.value != content;
  }

  // ---- Any number of calls ----

  datatype Attempted = Attempted(
    expected: Option<u64>,
    reply: Option<Reply>,
    written: nat,
    result: Result<u64, DownloadError>)

  /** Calls about one object, one after the other, and the files between them. */
  datatype History = History(content: seq<byte>, files: seq<Files>, attempts: seq<Attempted>)
  {
    ghost predicate Valid() {
      && |files| == |attempts| + 1 && Prefixes(files[0], content)
      && forall i :: 0 <= i < |attempts| ==> ValidAt(i)
    }

    ghost predicate ValidAt(i: nat)
      requires i < |attempts| && |files| == |attempts| + 1
    {
      var a := attempts[i];
      && Attempt(a.expected, files[i], a.reply, a.written, files[i + 1], a.result)
      && (a.reply.Some? ==> Honest(content, a.reply.value))
    }

    ghost predicate Delivers(i: nat)
      requires i < |attempts| && |files| == |attempts| + 1
    {
      var a := attempts[i];
      a.result.Success? && a.expected == Some(|content|) && !OddReply(files[i], a.expected, a.reply)
    }
  }

  /** In every history both files are prefixes of the object after every call. */
  lemma {:induction false} AlwaysPrefixes(h: History, i: nat)
    requires h.Valid() && i <= |h.attempts|
    ensures Prefixes(h.files[i], h.content)
  {
    if i == 0 {
    } else {
      AlwaysPrefixes(h, i - 1);
      assert h.ValidAt(i - 1);
      var a := h.attempts[i - 1];
      AttemptKeepsPrefixes(h.content, a.expected, h.files[i - 1], a.reply, a.written, h.files[i], a.result);
    }
  }

  /** Once delivered, the object stays at the destination through every later call that expects
      its size or no size. */
  lemma {:induction false} DeliveredStays(h: History, i: nat, j: nat)
    requires h.Valid() && i < j <= |h.attempts| && h.Delivers(i)
    requires forall k :: i < k < j ==> h.attempts[k].expected == None || h.attempts[k].expected == Some(|h.content|)
    ensures h.files[j].destination == Some(h.content)
  {
    assert h.ValidAt(j - 1);
    if j == i + 1 {
      AlwaysPrefixes(h, i);
      var a := h.attempts[i];
      SuccessDelivers(h.content, a.expected, h.files[i], a.reply, a.written, h.files[j], a.result);
    } else {
      DeliveredStays(h, i, j - 1);
    }
  }

  function Written(attempts: seq<Attempted>, i: nat): nat
    requires i <= |attempts|
  {
    if i == 0 then 0 else Written(attempts, i - 1) + attempts[i - 1].written
  }

  function Stored(files: Files): nat {
    if files.destination.Some? then |files.destination.value| else |Held(files.partial)|
  }

  /** Every call expects the object's size, and every accepted reply to a resumed request
      honours the range. */
  ghost predicate RangesHonoured(h: History)
    requires |h.files| == |h.attempts| + 1
  {
    forall i :: 0 <= i < |h.attempts| ==>
      && h.attempts[i].expected == Some(|h.content|)
      && (h.attempts[i].reply.Some? && h.attempts[i].reply.value.IsSuccess()
          && h.files[i].partial.Some? && 0 < |h.files[i].partial.value| ==>
            h.attempts[i].reply.value.status == PARTIAL_CONTENT)
  }

  ghost predicate Clean(files: Files, content: seq<byte>) {
    files.destination.Some? ==> files.destination.value == content && files.partial == None
  }

  lemma AttemptAddsWritten(content: seq<byte>, before: Files, a: Attempted, after: Files)
    requires Prefixes(before, content) && Clean(before, content) && a.expected == Some(|content|)
    requires Attempt(a.expected, before, a.reply, a.written, after, a.result)
    requires a.reply.Some? ==> Honest(content, a.reply.value)
    requires a.reply.Some? && a.reply.value.IsSuccess() && before.partial.Some? && 0 < |before.partial.value|
      ==> a.reply.value.status == PARTIAL_CONTENT
    ensures Clean(after, content) && Stored(after) == Stored(before) + a.written
    ensures a.result.Success? ==> Stored(after) == |content|
  {
    hide Concat;
    if a.result.Success? {
      SuccessDelivers(content, a.expected, before, a.reply, a.written, after, a.result);
    }
    if a.reply.Some? && Received(a.expected, Held(before.partial), a.reply.value, a.written, after, a.result) {
      assert |Take(a.reply.value.Body(), a.written)| == a.written;
    }
  }

  /** With a server that honours ranges no byte is fetched twice: the bytes written by all calls
      together are the bytes stored, and the whole object's when one has succeeded. */
  lemma {:induction false} NothingFetchedTwice(h: History, i: nat)
    requires h.Valid() && RangesHonoured(h) && h.files[0] == Files(None, None) && i <= |h.attempts|
    ensures Clean(h.files[i], h.content) && Written(h.attempts, i) == Stored(h.files[i])
    ensures 0 < i && h.attempts[i - 1].result.Success? ==> Written(h.attempts, i) == |h.content|
  {
    if i == 0 {
    } else {
      NothingFetchedTwice(h, i - 1);
      AlwaysPrefixes(h, i - 1);
      assert h.ValidAt(i - 1);
      AttemptAddsWritten(h.content, h.files[i - 1], h.attempts[i - 1], h.files[i]);
    }
  }
}
