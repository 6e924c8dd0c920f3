/** What a transport object holds, and the Registry's verification of it. */
module ObjectContents {
  import opened Common
  import opened Files
  import opened PackFormat
  import opened PackCodec
  import opened TransportPlan
  import opened Manifest

  type Hash = (HashAlgorithm, seq<byte>) -> string

  /** A logical file as it comes out of a transport object; a pack also carries its header. */
  datatype Piece = Piece(header: Option<Header>, content: seq<byte>)

  function PiecesOfPack(members: seq<Member>): seq<Piece> {
    seq(|members|, i requires 0 <= i < |members| => Piece(Some(members[i].header), members[i].content))
  }

  /** What an object's decompressed bytes hold. */
  function Pieces(parse: Parser, limits: Limits, kind: Kind, bytes: seq<byte>): Option<seq<Piece>> {
    match kind
    case FileObject => Some([Piece(None, bytes)])
    case PackObject =>
      match Decode(parse, limits, bytes)
      case None => None
      case Some(members) => Some(PiecesOfPack(members))
  }

  predicate HeaderFits(header: Header, file: ManifestFile) {
    && header.path == file.path && header.size == file.size
    && header.algorithm == file.algorithm && header.digest == file.digest
  }

  predicate ContentFits(hash: Hash, content: seq<byte>, file: ManifestFile) {
    |content| == file.size && hash(file.algorithm, content) == file.digest
  }

  predicate PieceFits(hash: Hash, piece: Piece, file: ManifestFile) {
    && (piece.header.Some? ==> HeaderFits(piece.header.value, file))
    && ContentFits(hash, piece.content, file)
  }

  ghost predicate AllPiecesFit(hash: Hash, pieces: seq<Piece>, files: seq<ManifestFile>) {
    && |pieces| == |files|
    && forall j :: 0 <= j < |files| ==>
         files[j].memberIndex < |pieces| && PieceFits(hash, pieces[files[j].memberIndex], files[j])
  }

  /** The object's bytes are what the manifest says of its files. */
  ghost predicate ObjectFits(hash: Hash, parse: Parser, limits: Limits, kind: Kind,
                             files: seq<ManifestFile>, bytes: seq<byte>) {
    && Contiguous(files)
    && Pieces(parse, limits, kind, bytes).Some?
    && AllPiecesFit(hash, Pieces(parse, limits, kind, bytes).value, files)
  }

  // ---- Arranging files by member index ----

  ghost predicate Arranged(sorted: seq<ManifestFile>, files: seq<ManifestFile>) {
    multiset(sorted) == multiset(files) && Ascending(sorted)
  }

  ghost predicate Ascending(sorted: seq<ManifestFile>) {
    forall i, j :: 0 <= i < j < |sorted| ==> sorted[i].memberIndex <= sorted[j].memberIndex
  }

  method SortByIndex(files: seq<ManifestFile>) returns (sorted: seq<ManifestFile>)
    ensures Arranged(sorted, files) && |sorted| == |files|
  {
    sorted := [];
    assert Arranged([], files[..0]);
    hide *;
    for i := 0 to |files|
      invariant Arranged(sorted, files[..i])
    {
      var at := InsertAt(sorted, files[i].memberIndex);
      InsertArranged(sorted, files, i, at);
      sorted := sorted[..at] + [files[i]] + sorted[at..];
    }
    assert files[..|files|] == files;
    ArrangedLength(sorted, files);
  }

  /** The position behind every file whose index is not greater. */
  method InsertAt(sorted: seq<ManifestFile>, index: nat) returns (at: nat)
    ensures at <= |sorted| && forall j :: at <= j < |sorted| ==> index < sorted[j].memberIndex
    ensures 0 < at ==> sorted[at - 1].memberIndex <= index
  {
    at := |sorted|;
    while 0 < at && index < sorted[at - 1].memberIndex
      invariant at <= |sorted| && forall j :: at <= j < |sorted| ==> index < sorted[j].memberIndex
    {
      at := at - 1;
    }
  }

  lemma ArrangedLength(sorted: seq<ManifestFile>, files: seq<ManifestFile>)
    requires Arranged(sorted, files)
    ensures |sorted| == |files|
  {
    assert |multiset(sorted)| == |multiset(files)|;
  }

  lemma InsertArranged(sorted: seq<ManifestFile>, files: seq<ManifestFile>, i: nat, at: nat)
    requires i < |files| && Arranged(sorted, files[..i]) && at <= |sorted|
    requires forall j :: at <= j < |sorted| ==> files[i].memberIndex < sorted[j].memberIndex
    requires 0 < at ==> sorted[at - 1].memberIndex <= files[i].memberIndex
    ensures Arranged(sorted[..at] + [files[i]] + sorted[at..], files[..i + 1])
  {
    assert sorted == sorted[..at] + sorted[at..];
    assert files[..i + 1] == files[..i] + [files[i]];
    InsertAscending(sorted, files[i], at);
    hide Ascending;
  }

  lemma InsertAscending(sorted: seq<ManifestFile>, file: ManifestFile, at: nat)
    requires Ascending(sorted) && at <= |sorted|
    requires forall j :: at <= j < |sorted| ==> file.memberIndex < sorted[j].memberIndex
    requires 0 < at ==> sorted[at - 1].memberIndex <= file.memberIndex
    ensures Ascending(sorted[..at] + [file] + sorted[at..])
  {
    var inserted := sorted[..at] + [file] + sorted[at..];
    assert forall p :: 0 <= p < |inserted| ==>
      inserted[p] == if p < at then sorted[p] else if p == at then file else sorted[p - 1];
    forall i, j | 0 <= i < j < |inserted|
      ensures inserted[i].memberIndex <= inserted[j].memberIndex
    {
      assert i < at - 1 ==> sorted[i].memberIndex <= sorted[at - 1].memberIndex;
    }
  }

  ghost predicate InPlace(sorted: seq<ManifestFile>) {
    forall i :: 0 <= i < |sorted| ==> sorted[i].memberIndex == i
  }

  lemma SameElements(a: seq<ManifestFile>, b: seq<ManifestFile>)
    requires multiset(a) == multiset(b)
    ensures |a| == |b|
    ensures forall x :: x in a <==> x in b
  {
    assert |multiset(a)| == |multiset(b)|;
    forall x
      ensures x in a <==> x in b
    {
      assert x in multiset(a) <==> x in multiset(b);
    }
  }

  /** Arranged, a file stands at its member index exactly when the indexes are contiguous. */
  lemma ArrangedInPlace(sorted: seq<ManifestFile>, files: seq<ManifestFile>)
    requires Arranged(sorted, files)
    ensures InPlace(sorted) <==> Contiguous(files)
  {
    SameElements(sorted, files);
    if InPlace(sorted) {
      forall index: nat | index < |files|
        ensures HasIndex(files, index)
      {
        assert sorted[index] in files;
      }
    }
    if Contiguous(files) {
      var indexes: seq<nat> := seq(|sorted|, i requires 0 <= i < |sorted| => sorted[i].memberIndex);
      forall k: nat | k < |indexes|
        ensures k in indexes
      {
        assert HasIndex(files, k);
        var j :| 0 <= j < |files| && files[j].memberIndex == k;
        assert files[j] in sorted;
        var i :| 0 <= i < |sorted| && sorted[i] == files[j];
        assert indexes[i] == k;
      }
      forall i | 0 <= i < |sorted|
        ensures sorted[i].memberIndex == i
      {
        ExactlyItsPlace(indexes, i);
        assert indexes[i] == sorted[i].memberIndex;
      }
    }
  }

  /** With every file in place the pieces are compared position by position. */
  lemma FitInPlace(hash: Hash, pieces: seq<Piece>, sorted: seq<ManifestFile>, files: seq<ManifestFile>)
    requires Arranged(sorted, files) && InPlace(sorted)
    ensures AllPiecesFit(hash, pieces, files) <==>
      |pieces| == |sorted| && forall i :: 0 <= i < |sorted| ==> PieceFits(hash, pieces[i], sorted[i])
  {
    SameElements(sorted, files);
    hide PieceFits;
    if AllPiecesFit(hash, pieces, files) {
      forall i | 0 <= i < |sorted|
        ensures PieceFits(hash, pieces[i], sorted[i])
      {
        assert sorted[i] in files;
      }
    }
    if |pieces| == |sorted| && forall i :: 0 <= i < |sorted| ==> PieceFits(hash, pieces[i], sorted[i]) {
      forall j | 0 <= j < |files|
        ensures files[j].memberIndex < |pieces| && PieceFits(hash, pieces[files[j].memberIndex], files[j])
      {
        assert files[j] in sorted;
      }
    }
  }

  // ---- The Registry's verification ----

  /** What the Registry finds for a file: the length and the digest of its content. */
  datatype Measured = Measured(size: nat, digest: string)

  function Measure(hash: Hash, content: seq<byte>, file: ManifestFile): Measured {
    Measured(|content|, hash(file.algorithm, content))
  }

  /** Each file's result was measured on the piece at the file's member index. */
  ghost predicate Measures(hash: Hash, pieces: seq<Piece>, files: seq<ManifestFile>, results: seq<Measured>) {
    && |results| == |pieces|
    && forall j :: 0 <= j < |files| ==>
         && files[j].memberIndex < |pieces|
         && results[files[j].memberIndex] == Measure(hash, pieces[files[j].memberIndex].content, files[j])
  }

  /** Each result was measured on the piece in its position. */
  ghost predicate MeasuresInPlace(hash: Hash, pieces: seq<Piece>, sorted: seq<ManifestFile>, results: seq<Measured>) {
    && |results| == |pieces| == |sorted|
    && forall i :: 0 <= i < |sorted| ==> results[i] == Measure(hash, pieces[i].content, sorted[i])
  }

  lemma MeasuredInPlace(hash: Hash, pieces: seq<Piece>, sorted: seq<ManifestFile>, files: seq<ManifestFile>,
                        results: seq<Measured>)
    requires Arranged(sorted, files) && InPlace(sorted) && MeasuresInPlace(hash, pieces, sorted, results)
    ensures Measures(hash, pieces, files, results)
  {
    SameElements(sorted, files);
    forall j | 0 <= j < |files|
      ensures files[j].memberIndex < |pieces|
      ensures results[files[j].memberIndex] == Measure(hash, pieces[files[j].memberIndex].content, files[j])
    {
      assert files[j] in sorted;
    }
  }

  /** Verifies one transport object. For an object of an accepted manifest it succeeds exactly
      when the object fits its files, and it returns what it measured. */
  method VerifyTransportObject(hash: Hash, parse: Parser, kind: Kind, files: seq<ManifestFile>, bytes: seq<byte>)
    returns (results: Option<seq<Measured>>)
    requires Contiguous(files)
    ensures results.Some? <==> ObjectFits(hash, parse, REGISTRY_LIMITS, kind, files, bytes)
    ensures results.Some? ==>
      && Pieces(parse, REGISTRY_LIMITS, kind, bytes).Some?
      && Measures(hash, Pieces(parse, REGISTRY_LIMITS, kind, bytes).value, files, results.value)
  {
    var sorted := SortByIndex(files);
    ArrangedInPlace(sorted, files);
    if kind == FileObject {
      FitInPlace(hash, [Piece(None, bytes)], sorted, files);
      if |sorted| != 1 {
        return None;
      }
      var found := Measure(hash, bytes, sorted[0]);
      if found.size != sorted[0].size || found.digest != sorted[0].digest {
        return None;
      }
      MeasuredInPlace(hash, [Piece(None, bytes)], sorted, files, [found]);
      return Some([found]);
    }
    var body := new DecodedStream(bytes);
    var members := body.IterPackMembers(parse);
    if members.None? {
      return None;
    }
    hide Decode, Contiguous, InPlace, Arranged, Measures, MeasuresInPlace;
    FitInPlace(hash, PiecesOfPack(members.value), sorted, files);
    results := MeasureMembers(hash, members.value, sorted);
    if results.Some? {
      MeasuredInPlace(hash, PiecesOfPack(members.value), sorted, files, results.value);
    }
  }

  method MeasureMembers(hash: Hash, members: seq<Member>, sorted: seq<ManifestFile>) returns (results: Option<seq<Measured>>)
    ensures results.Some? <==>
      |members| == |sorted| && forall i :: 0 <= i < |sorted| ==> PieceFits(hash, PiecesOfPack(members)[i], sorted[i])
    ensures results.Some? ==> MeasuresInPlace(hash, PiecesOfPack(members), sorted, results.value)
  {
    var found := [];
    var index := 0;
    while index < |members|
      invariant 0 <= index <= |members| && index <= |sorted| && |found| == index
      invariant forall i :: 0 <= i < index ==> PieceFits(hash, PiecesOfPack(members)[i], sorted[i])
      invariant forall i :: 0 <= i < index ==> found[i] == Measure(hash, members[i].content, sorted[i])
    {
      if index >= |sorted| {
        return None;
      }
      var member, expected := members[index], sorted[index];
      assert PiecesOfPack(members)[index] == Piece(Some(member.header), member.content);
      if !HeaderFits(member.header, expected) {
        return None;
      }
      var measured := Measure(hash, member.content, expected);
      if measured.size != expected.size || measured.digest != expected.digest {
        return None;
      }
      found := found + [measured];
      index := index + 1;
    }
    return if index == |sorted| then Some(found) else None;
  }

  /** What the Registry verifies, the client can decode: its decoder only refuses less. */
  lemma VerifiedFitsClient(hash: Hash, parse: Parser, kind: Kind, files: seq<ManifestFile>, bytes: seq<byte>)
    requires ObjectFits(hash, parse, REGISTRY_LIMITS, kind, files, bytes)
    ensures ObjectFits(hash, parse, NO_LIMITS, kind, files, bytes)
    ensures Pieces(parse, NO_LIMITS, kind, bytes) == Pieces(parse, REGISTRY_LIMITS, kind, bytes)
  {
    if kind == PackObject {
      LimitsOnlyRefuse(parse, REGISTRY_LIMITS, bytes[8..]);
    }
  }
}
