/** Bytes, the fixed-width unsigned integers of the original, and the big-endian
    layout that every integer has on the wire and in the databases. */
module Bytes {
  const TWO16: int := 0x1_0000
  const TWO32: int := 0x1_0000_0000

  type Byte = x: int | 0 <= x < 256
  type U16 = x: int | 0 <= x < 0x1_0000
  type U32 = x: int | 0 <= x < 0x1_0000_0000

  /** What is left of an integer stored in a `guint16`. */
  function Low16(x: int): U16 {
    x % 0x1_0000
  }

  /** What is left of an integer stored in a `guint32`. */
  function Low32(x: int): U32 {
    x % 0x1_0000_0000
  }

  function Min(a: int, b: int): int {
    if a < b then a else b
  }

  function Max(a: int, b: int): int {
    if a > b then a else b
  }

  function Be16(x: U16): (s: seq<Byte>)
    ensures |s| == 2
  {
    [x / 256, x % 256]
  }

  function Be32(x: U32): (s: seq<Byte>)
    ensures |s| == 4
  {
    [x / 0x100_0000, x / 0x1_0000 % 256, x / 256 % 256, x % 256]
  }

  function Value16(s: seq<Byte>): U16
    requires |s| == 2
  {
    var hi: int := s[0];
    hi * 256 + s[1]
  }

  function Value32(s: seq<Byte>): U32
    requires |s| == 4
  {
    var a: int, b: int, c: int := s[0], s[1], s[2];
    a * 0x100_0000 + b * 0x1_0000 + c * 256 + s[3]
  }

  /** Reading a big-endian integer undoes writing it, at both widths. */
  lemma ValueOfBe(x: U32, y: U16)
    ensures Value32(Be32(x)) == x
    ensures Value16(Be16(y)) == y
  {
    var a, b, c := x / 0x100_0000, x / 0x1_0000, x / 256;
    assert c == b * 256 + c % 256;
    assert b == a * 256 + b % 256;
  }

  /** The bytes of a file from `offset`, at most `len` of them: what `fread` delivers. */
  function Slice(file: seq<Byte>, offset: nat, len: nat): (s: seq<Byte>)
    ensures |s| == Max(0, Min(len, |file| - offset))
  {
    if offset > |file| then [] else file[offset..Min(offset + len, |file|)]
  }

  lemma SubSlice<T>(s: seq<T>, a: nat, b: nat, i: nat, j: nat)
    requires a <= b <= |s| && i <= j <= b - a
    ensures s[a..b][i..j] == s[a + i..a + j]
  {
    assert forall k | 0 <= k < j - i :: s[a..b][i..j][k] == s[a..b][i + k] == s[a + (i + k)];
  }

  function Zeros(n: nat): (s: seq<Byte>)
    ensures |s| == n
  {
    seq(n, _ => 0)
  }
}
