/** Machine integers, constants and small helpers shared by every module. */
module Types {

  newtype uint8 = x: int | 0 <= x < 0x100
  newtype uint16 = x: int | 0 <= x < 0x1_0000
  newtype uint32 = x: int | 0 <= x < TWO_32

  const TWO_32 := 0x1_0000_0000
  const TWO_31 := 0x8000_0000

  const HEADER_LEN := 25               // sizeof(cmu_tcp_header_t), packed
  const MSS := 1400 - HEADER_LEN       // MAX_LEN less the header
  const CP1_WINDOW_SIZE := MSS * 32
  const MIN_CAPACITY := 2
  const MAX_CAPACITY := 0x1_0000       // keeps every advertised window within 16 bits

  datatype Option<+T> = None | Some(value: T)

  function Min(a: int, b: int): int {
    if a < b then a else b
  }

  function Max(a: int, b: int): int {
    if a < b then b else a
  }

  /** The `n` bytes from position `i`. */
  function Cut(s: seq<uint8>, i: nat, n: nat): seq<uint8>
    requires i + n <= |s|
  {
    seq(n, k requires 0 <= k < n => s[i + k])
  }

  lemma CutIs(s: seq<uint8>, i: nat, n: nat)
    requires i + n <= |s|
    ensures Cut(s, i, n) == s[i..i + n]
  {
  }

  lemma CutAll(s: seq<uint8>)
    ensures Cut(s, 0, |s|) == s
  {
  }

  lemma CutOfCut(s: seq<uint8>, i: nat, n: nat, j: nat, m: nat)
    requires i + n <= |s| && j + m <= n
    ensures Cut(Cut(s, i, n), j, m) == Cut(s, i + j, m)
  {
  }
}
