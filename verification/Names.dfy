/** What a digest and a file name in a manifest are, apart from how they are checked. */
module Names {
  import opened Common
  import opened Files

  // ---- Digests ----

  function HexDigit(n: nat): char
    requires n < 16
  {
    "0123456789abcdef"[n]
  }

  /** Two digits for each byte, the high one first. */
  function Hex(bytes: seq<byte>): string {
    if bytes == [] then "" else [HexDigit(bytes[0] / 16), HexDigit(bytes[0] % 16)] + Hex(bytes[1..])
  }

  function DigestBytes(algorithm: HashAlgorithm): nat {
    match algorithm
    case Sha256 => 32
    case XxHash3 => 16
    case Blake3 => 32
  }

  /** The text is a digest of this algorithm, written in hexadecimal. */
  ghost predicate IsDigest(algorithm: HashAlgorithm, text: string) {
    exists bytes: seq<byte> :: |bytes| == DigestBytes(algorithm) && text == Hex(bytes)
  }

  lemma {:induction false} HexLength(bytes: seq<byte>)
    ensures |Hex(bytes)| == 2 * |bytes|
    ensures forall k :: 0 <= k < |Hex(bytes)| ==> Hex(bytes)[k] in "0123456789abcdef"
  {
    if bytes == [] {
      assert Hex(bytes) == "";
    } else {
      HexLength(bytes[1..]);
    }
  }

  lemma HexPair(high: nat, low: nat, rest: seq<byte>)
    requires high < 16 && low < 16
    ensures Hex([16 * high + low] + rest) == [HexDigit(high), HexDigit(low)] + Hex(rest)
  {
    var bytes: seq<byte> := [16 * high + low] + rest;
    assert bytes[1..] == rest && bytes[0] / 16 == high && bytes[0] % 16 == low;
    hide HexDigit;
  }

  lemma DigitOf(c: char) returns (n: nat)
    requires c in "0123456789abcdef"
    ensures n < 16 && HexDigit(n) == c
  {
    n :| 0 <= n < 16 && "0123456789abcdef"[n] == c;
  }

  /** Every text of an even number of digits is written for some bytes. */
  lemma {:induction false} BytesOf(text: string, count: nat) returns (bytes: seq<byte>)
    requires |text| == 2 * count && forall k :: 0 <= k < |text| ==> text[k] in "0123456789abcdef"
    ensures |bytes| == count && Hex(bytes) == text
  {
    if count == 0 {
      bytes := [];
    } else {
      var high := DigitOf(text[0]);
      var low := DigitOf(text[1]);
      var rest := BytesOf(text[2..], count - 1);
      HexPair(high, low, rest);
      hide HexDigit, Hex;
      bytes := [16 * high + low] + rest;
      assert text == [text[0], text[1]] + text[2..];
    }
  }

  // ---- Names ----

  /** How deep one is after entering a component from `depth`; nothing above the start. */
  function Enter(component: string, depth: nat): Option<nat> {
    if component == "" || component == "." then Some(depth)
    else if component == ".." then if depth == 0 then None else Some(depth - 1)
    else Some(depth + 1)
  }

  /** Where following `path` from its position `i` on leads, with `component` read so far; nowhere
      when it leaves the folder it started in. */
  function Walk(path: string, i: nat, component: string, depth: nat): Option<nat>
    requires i <= |path|
    decreases |path| - i
  {
    if i == |path| then Enter(component, depth)
    else if path[i] != '/' then Walk(path, i + 1, component + [path[i]], depth)
    else
      match Enter(component, depth)
      case None => None
      case Some(deeper) => Walk(path, i + 1, "", deeper)
  }

  function Slashes(path: string, i: nat): nat
    requires i <= |path|
    decreases |path| - i
  {
    if i == |path| then 0 else (if path[i] == '/' then 1 else 0) + Slashes(path, i + 1)
  }

  /** Following the path goes one folder down with every component, to a file below the start. */
  predicate Descends(path: string) {
    Walk(path, 0, "", 0) == Some(Slashes(path, 0) + 1)
  }

  /** A name that means the same file below any folder on every system. */
  predicate IsPortable(path: string) {
    && Descends(path) && |path| <= 4096 && '\\' !in path && '\0' !in path
    && !(2 <= |path| && path[1] == ':' && ('a' <= path[0] <= 'z' || 'A' <= path[0] <= 'Z'))
  }
}
