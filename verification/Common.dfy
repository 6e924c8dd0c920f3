/** Types shared by every module: optional values, outcomes, and fixed-width integers. */
module Common {
  datatype Option<+T> = None | Some(value: T)

  datatype Result<+T, +E> = Success(value: T) | Failure(error: E)

  const U32_MAX: int := 0xFFFF_FFFF
  const U64_MAX: int := 0xFFFF_FFFF_FFFF_FFFF

  type u32 = x: int | 0 <= x <= U32_MAX
  type u64 = x: int | 0 <= x <= U64_MAX
  type byte = x: int | 0 <= x < 256

  /** The `as u32` cast, which keeps the low 32 bits. */
  function Truncate32(x: nat): u32 {
    x % 0x1_0000_0000
  }

  function Min(a: int, b: int): int {
    if a < b then a else b
  }

  function Max(a: int, b: int): int {
    if a < b then b else a
  }

  function SaturatingAdd(a: u64, b: u64): u64 {
    Min(a + b, U64_MAX)
  }

  function SaturatingSub(a: u64, b: u64): u64 {
    Max(a - b, 0)
  }

  function SaturatingMul(a: u64, b: u64): u64 {
    if a * b > U64_MAX then U64_MAX else a * b
  }

  /** The prefix `s[..n]`, or all of `s` when it is shorter. */
  function Take<T>(s: seq<T>, n: nat): seq<T> {
    if n < |s| then s[..n] else s
  }

  /** The first `k` chunks, one after the other. */
  function Concat(chunks: seq<seq<byte>>, k: nat): seq<byte>
    requires k <= |chunks|
  {
    if k == 0 then [] else Concat(chunks, k - 1) + chunks[k - 1]
  }

  lemma {:induction false} ConcatPrefix(chunks: seq<seq<byte>>, j: nat, k: nat)
    requires j <= k <= |chunks|
    ensures Concat(chunks, j) <= Concat(chunks, k)
    decreases k - j
  {
    if j == k {
    } else {
      ConcatPrefix(chunks, j, k - 1);
    }
  }
}
