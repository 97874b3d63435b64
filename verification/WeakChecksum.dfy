/** The weak ("rolling") checksum, version-1/checksum.c.

    The sums are kept in 32-bit words that wrap around; only their low 16 bits reach the
    result.  `S1` and `S2` are the sums over the integers, so `Weak` is the mathematical
    definition that both the loop and the incremental update must meet. */
module WeakChecksum {
  import opened Bytes

  /** A byte read through `signed char`. */
  function Signed(b: Byte): (x: int)
    ensures -128 <= x < 128 && x % 256 == b
  {
    if b < 128 then b else b - 256
  }

  /** CHAR4_TO_INT32 before it is cut to 32 bits. */
  function Word(w: seq<Byte>): int
    requires |w| == 4
  {
    Signed(w[0]) * 0x100_0000 + Signed(w[1]) * 0x1_0000 + Signed(w[2]) * 256 + Signed(w[3])
  }

  ghost function S1(w: seq<Byte>): int
    requires |w| % 4 == 0
  {
    if w == [] then 0 else Word(w[..4]) + S1(w[4..])
  }

  /** The first of n words has weight n, the last one weight 1. */
  ghost function S2(w: seq<Byte>): int
    requires |w| % 4 == 0
  {
    if w == [] then 0 else (|w| / 4) * Word(w[..4]) + S2(w[4..])
  }

  ghost function Weak(w: seq<Byte>): U32
    requires |w| % 4 == 0
  {
    Low16(S2(w)) * 0x1_0000 + Low16(S1(w))
  }

  /** Some checksums: of bytes in order, and of one that is negative as a signed char. */
  lemma KnownChecksums()
    ensures Weak([1, 2, 3, 4]) == 0x0304_0304
    ensures Weak([1, 2, 3, 4, 5, 6, 7, 8]) == 0x0D10_0A0C
    ensures Weak([0, 0, 0, 200]) == 0xFFC8_FFC8
  {
    hide S1, S2, Weak, Word, Low16, Signed;
    var w, v, u: seq<Byte> := [1, 2, 3, 4], [5, 6, 7, 8], [0, 0, 0, 200];
    KnownWords();
    WeakWords(w, v);
    WeakWords(u, v);
    assert w + v == [1, 2, 3, 4, 5, 6, 7, 8];
  }

  lemma KnownWords()
    ensures Low16(Word([1, 2, 3, 4])) == 0x0304 && Low16(Word([0, 0, 0, 200])) == 0xFFC8
    ensures Low16(Word([1, 2, 3, 4]) + Word([5, 6, 7, 8])) == 0x0A0C
    ensures Low16(2 * Word([1, 2, 3, 4]) + Word([5, 6, 7, 8])) == 0x0D10
  {
  }

  lemma WeakWords(w: seq<Byte>, v: seq<Byte>)
    requires |w| == |v| == 4
    ensures Weak(w) == Low16(Word(w)) * 0x1_0000 + Low16(Word(w))
    ensures Weak(w + v) == Low16(2 * Word(w) + Word(v)) * 0x1_0000 + Low16(Word(w) + Word(v))
  {
    hide S1, S2, Word;
    OneWord(w);
    TwoWords(w, v);
  }

  lemma OneWord(w: seq<Byte>)
    requires |w| == 4
    ensures S1(w) == Word(w) && S2(w) == Word(w)
  {
    hide Word;
    assert w[..4] == w && w[4..] == [];
  }

  lemma TwoWords(w: seq<Byte>, v: seq<Byte>)
    requires |w| == |v| == 4
    ensures S1(w + v) == Word(w) + Word(v) && S2(w + v) == 2 * Word(w) + Word(v)
  {
    hide Word;
    assert (w + v)[..4] == w && (w + v)[4..] == v;
    OneWord(v);
  }

  /** Adding a multiple of the modulus changes nothing. */
  lemma Shift(x: int, q: int)
    ensures Low16(q * 0x1_0000 + x) == Low16(x)
  {
  }

  lemma Shift32(x: int, q: int)
    ensures Low32(q * 0x1_0000_0000 + x) == Low32(x)
  {
  }

  lemma WrapAdd(x: int, y: int)
    ensures Low32(Low32(x) + Low32(y)) == Low32(x + y)
  {
    var q, r := x / 0x1_0000_0000, y / 0x1_0000_0000;
    Shift32(Low32(x) + Low32(y), q + r);
    assert x + y == (q + r) * 0x1_0000_0000 + (Low32(x) + Low32(y));
  }

  /** A wrapped factor does not change a wrapped product. */
  lemma WrapMul(k: int, s: int)
    ensures Low32(k * Low32(s)) == Low32(k * s)
  {
    var q := s / 0x1_0000_0000;
    var r: int := Low32(s);
    assert s == q * 0x1_0000_0000 + r;
    Distribute(k, q, r);
    Shift32(k * r, k * q);
  }

  lemma Distribute(k: int, q: int, r: int)
    ensures k * (q * 0x1_0000_0000 + r) == (k * q) * 0x1_0000_0000 + k * r
  {
  }

  /** The whole words of a length, in bytes, and the bytes that the loop reads for it. */
  function Whole(len: nat): (n: nat)
    ensures n <= len < n + 4 && n % 4 == 0 && (len % 4 == 0 <==> n == len)
  {
    4 * (len / 4)
  }

  function ReadFor(len: nat): (n: nat)
    ensures len <= n && n % 4 == 0 && (n == Whole(len) == len || n == Whole(len) + 4 > len)
  {
    if len % 4 == 0 then len else Whole(len) + 4
  }

  /** A buffer of whole words from one of them on. */
  function FromWord(w: seq<Byte>, n: nat): (r: seq<Byte>)
    requires |w| % 4 == 0 && 4 * n <= |w|
    ensures |r| % 4 == 0 && r == w[4 * n..]
  {
    var k := |w| / 4;
    assert |w| - 4 * n == 4 * (k - n);
    w[4 * n..]
  }

  /** The checksum of the first `len` bytes of a buffer.  A last word that is not whole counts
      with the bytes behind it in the plain sum, and has no weight in the other. */
  ghost function WeakOf(buf: seq<Byte>, len: nat): U32
    requires ReadFor(len) <= |buf|
  {
    Low16(S2(buf[..Whole(len)])) * 0x1_0000 + Low16(S1(buf[..ReadFor(len)]))
  }

  /** `WCsum_get`, for any length whose last word can be read to its end. */
  method WcsumGet(buf: seq<Byte>, len: U16) returns (sum: U32)
    requires ReadFor(len) <= |buf|
    ensures sum == WeakOf(buf, len) && (len % 4 == 0 ==> sum == Weak(buf[..len]))
  {
    hide InSums, Weak, WeakOf, Word, Low16, Low32;
    SumsBegin(buf, len);
    var s1: U32, s2: U32 := 0, 0;
    var len4 := len / 4;
    ghost var t1, t2, turn := 0, 0, 0;
    var i := 0;
    while i < len
      invariant 0 <= turn && i == 4 * turn && i <= ReadFor(len)
      invariant InSums(buf, len, turn, s1, s2, t1, t2)
    {
      SumsTurn(buf, len, turn, s1, s2, t1, t2);
      var s := Low32(Word(buf[i..i + 4]));
      var weight := len4 - i / 4;
      s1 := Low32(s1 + s);
      s2 := Low32(s2 + Low32(weight * s));
      t1, t2 := t1 + Word(buf[i..i + 4]), t2 + weight * Word(buf[i..i + 4]);
      i, turn := i + 4, turn + 1;
    }
    SumsEnd(buf, len, turn, s1, s2, t1, t2);
    sum := Low16(s2) * 0x1_0000 + Low16(s1);
  }

  /** After so many turns: the sums, wrapped and unwrapped. */
  ghost predicate InSums(buf: seq<Byte>, len: nat, turn: nat, s1: U32, s2: U32, t1: int, t2: int)
    requires ReadFor(len) <= |buf|
  {
    var w := buf[..Whole(len)];
    && s1 == Low32(t1) && s2 == Low32(t2)
    && if 4 * turn <= |w| then t1 + S1(FromWord(w, turn)) == S1(w) && t2 + S2(FromWord(w, turn)) == S2(w)
       else t1 == S1(buf[..ReadFor(len)]) && t2 == S2(w)
  }

  lemma SumsBegin(buf: seq<Byte>, len: nat)
    requires ReadFor(len) <= |buf|
    ensures InSums(buf, len, 0, 0, 0, 0, 0)
  {
    var w := buf[..Whole(len)];
    assert w[0..] == w;
  }

  lemma SumsTurn(buf: seq<Byte>, len: nat, turn: nat, s1: U32, s2: U32, t1: int, t2: int)
    requires 4 * turn < len && ReadFor(len) <= |buf| && InSums(buf, len, turn, s1, s2, t1, t2)
    ensures 4 * turn + 4 <= ReadFor(len)
    ensures
      var word, weight := Word(buf[4 * turn..4 * turn + 4]), len / 4 - turn;
      InSums(buf, len, turn + 1, Low32(s1 + Low32(word)), Low32(s2 + Low32(weight * Low32(word))),
             t1 + word, t2 + weight * word)
  {
    hide S1, S2, Word, Low32;
    var w := buf[..Whole(len)];
    if 4 * turn < |w| {
      assert w[4 * turn..4 * turn + 4] == buf[4 * turn..4 * turn + 4];
      LoopStep(w, turn, t1, t2);
    } else {
      assert 4 * turn == |w| && len / 4 - turn == 0;
      LastWord(buf, len, t1, t2);
    }
  }

  lemma SumsEnd(buf: seq<Byte>, len: nat, turn: nat, s1: U32, s2: U32, t1: int, t2: int)
    requires len <= 4 * turn <= ReadFor(len) <= |buf| && InSums(buf, len, turn, s1, s2, t1, t2)
    ensures WeakOf(buf, len) == Low16(s2) * 0x1_0000 + Low16(s1)
    ensures len % 4 == 0 ==> Weak(buf[..len]) == Low16(s2) * 0x1_0000 + Low16(s1)
  {
    var w := buf[..Whole(len)];
    if len % 4 == 0 {
      assert w[|w|..] == [] && w == buf[..ReadFor(len)] == buf[..len];
    }
    CutTo16(t1);
    CutTo16(t2);
  }

  /** The turn for a last word that is not whole. */
  lemma LastWord(buf: seq<Byte>, len: nat, t1: int, t2: int)
    requires len % 4 != 0 && ReadFor(len) <= |buf|
    requires
      var w := buf[..Whole(len)];
      t1 + S1(w[|w|..]) == S1(w) && t2 + S2(w[|w|..]) == S2(w)
    ensures
      var word := Word(buf[Whole(len)..Whole(len) + 4]);
      && t1 + word == S1(buf[..ReadFor(len)]) && t2 == S2(buf[..Whole(len)])
      && Low32(Low32(t1) + Low32(word)) == Low32(t1 + word)
      && Low32(Low32(t2) + Low32(0 * Low32(word))) == Low32(t2 + 0 * word)
  {
    var w, last := buf[..Whole(len)], buf[Whole(len)..Whole(len) + 4];
    assert w[|w|..] == [] && buf[..ReadFor(len)] == w + last;
    NoSums();
    hide S1, S2, Word, Low32;
    SumsAppend(w, last);
    WrapAdd(t1, Word(last));
    WrapAdd(t2, 0);
  }

  lemma NoSums()
    ensures S1([]) == 0 && S2([]) == 0 && Low32(0) == 0
  {
  }

  /** One turn of the loop of `WcsumGet`, wrapped and unwrapped. */
  lemma LoopStep(buf: seq<Byte>, turn: nat, t1: int, t2: int)
    requires |buf| % 4 == 0 && turn < |buf| / 4
    ensures
      var i, weight := 4 * turn, |buf| / 4 - turn;
      var word := Word(buf[i..i + 4]);
      && S1(buf[i..]) == word + S1(buf[i + 4..])
      && S2(buf[i..]) == weight * word + S2(buf[i + 4..])
      && Low32(Low32(t1) + Low32(word)) == Low32(t1 + word)
      && Low32(Low32(t2) + Low32(weight * Low32(word))) == Low32(t2 + weight * word)
  {
    var i, weight := 4 * turn, |buf| / 4 - turn;
    var word := Word(buf[i..i + 4]);
    assert buf[i..][..4] == buf[i..i + 4] && buf[i..][4..] == buf[i + 4..];
    assert |buf[i..]| / 4 == weight;
    WrapAdd(t1, word);
    WrapMul(weight, word);
    WrapAdd(t2, weight * word);
  }

  lemma CutTo16(x: int)
    ensures Low16(Low32(x)) == Low16(x)
  {
    var q := x / 0x1_0000_0000;
    Shift(Low32(x), q * 0x1_0000);
  }

  /** The checksum after the window has moved one word: `old4` leaves, `new4` enters. */
  function WcsumUpdate(old4: seq<Byte>, new4: seq<Byte>, oldSum: U32, len: U32): U32
    requires |old4| == 4 && |new4| == 4
  {
    var sOld, sNew := Low32(Word(old4)), Low32(Word(new4));
    var s1 := Low32(Low16(oldSum) - sOld + sNew);
    var s2 := Low32(Low16(oldSum / 0x1_0000 - Low32((len / 4) * sOld)) + s1);
    Low16(s2) * 0x1_0000 + Low16(s1)
  }

  lemma {:induction false} SumsAppend(mid: seq<Byte>, new4: seq<Byte>)
    requires |mid| % 4 == 0 && |new4| == 4
    ensures S1(mid + new4) == S1(mid) + Word(new4)
    ensures S2(mid + new4) == S2(mid) + S1(mid) + Word(new4)
  {
    hide Word;
    var w := mid + new4;
    if mid == [] {
      assert w == new4 && new4[..4] == new4 && new4[4..] == [];
    } else {
      SumsAppend(mid[4..], new4);
      assert w[..4] == mid[..4] && w[4..] == mid[4..] + new4;
      var n, v := |mid| / 4, Word(mid[..4]);
      assert |w| / 4 == n + 1;
      assert (n + 1) * v == n * v + v;
    }
  }

  /** The low half of the updated sum, for any 32-bit residues of the words. */
  lemma UpdateLow(a1: int, vOld: int, vNew: int)
    ensures Low16(Low32(Low16(a1) - Low32(vOld) + Low32(vNew))) == Low16(a1 - vOld + vNew)
  {
    var x := Low16(a1) - Low32(vOld) + Low32(vNew);
    CutTo16(x);
    var q := a1 / 0x1_0000 - (vOld / 0x1_0000_0000) * 0x1_0000 + (vNew / 0x1_0000_0000) * 0x1_0000;
    Shift(x, q);
    assert q * 0x1_0000 + x == a1 - vOld + vNew;
  }

  /** The high half: `p` is the weighted old word, `s1` the new low sum. */
  lemma UpdateHigh(a2: int, p: int, s1: int)
    ensures Low16(Low32(Low16(Low16(a2) - Low32(p)) + s1)) == Low16(a2 - p + s1)
  {
    var d := Low16(a2) - Low32(p);
    var q := a2 / 0x1_0000 - (p / 0x1_0000_0000) * 0x1_0000;
    Shift(d, q);
    assert q * 0x1_0000 + d == a2 - p;
    CutTo16(Low16(d) + s1);
    Shift(Low16(d) + s1, (a2 - p) / 0x1_0000);
    assert (a2 - p) / 0x1_0000 * 0x1_0000 + Low16(a2 - p) == a2 - p;
  }

  lemma SameResidue(x: int, y: int, z: int)
    requires Low16(x) == Low16(y)
    ensures Low16(z + x) == Low16(z + y)
  {
    var q := x / 0x1_0000 - y / 0x1_0000;
    Shift(z + y, q);
    assert q * 0x1_0000 + (z + y) == z + x;
  }

  /** The update law: sliding the window by one word, the update of the old checksum is
      the checksum of the new window, for every window and in wrapping arithmetic. */
  lemma RollingUpdate(old4: seq<Byte>, mid: seq<Byte>, new4: seq<Byte>)
    requires |old4| == 4 && |new4| == 4 && |mid| % 4 == 0 && |mid| + 4 < 0x1_0000
    ensures WcsumUpdate(old4, new4, Weak(old4 + mid), |mid| + 4) == Weak(mid + new4)
  {
    hide S1, S2, Word, Low16, Low32;
    var w, k := old4 + mid, (|mid| + 4) / 4;
    var vOld, vNew := Word(old4), Word(new4);
    SumsFront(old4, mid);
    SumsAppend(mid, new4);
    UpdateArithmetic(S1(w), S2(w), vOld, vNew, k);
    Halves(Low16(S2(w)), Low16(S1(w)));
    Leaves(S1(mid), S2(mid), k * vOld, vOld, vNew);
  }

  lemma SumsFront(old4: seq<Byte>, mid: seq<Byte>)
    requires |old4| == 4 && |mid| % 4 == 0
    ensures S1(old4 + mid) == Word(old4) + S1(mid)
    ensures S2(old4 + mid) == ((|mid| + 4) / 4) * Word(old4) + S2(mid)
  {
    var w := old4 + mid;
    assert w[..4] == old4 && w[4..] == mid;
  }

  lemma Leaves(s1: int, s2: int, weighted: int, vOld: int, vNew: int)
    ensures vOld + s1 - vOld + vNew == s1 + vNew
    ensures weighted + s2 - weighted + (s1 + vNew) == s2 + s1 + vNew
  {
  }

  /** `WcsumUpdate` on the sums of a window, in terms of the unwrapped sums. */
  lemma UpdateArithmetic(a1: int, a2: int, vOld: int, vNew: int, k: int)
    ensures
      var s1 := Low32(Low16(a1) - Low32(vOld) + Low32(vNew));
      var s2 := Low32(Low16(Low16(a2) - Low32(k * Low32(vOld))) + s1);
      Low16(s1) == Low16(a1 - vOld + vNew) &&
      Low16(s2) == Low16(a2 - k * vOld + (a1 - vOld + vNew))
  {
    hide Low16, Low32;
    var s1 := Low32(Low16(a1) - Low32(vOld) + Low32(vNew));
    UpdateLow(a1, vOld, vNew);
    WrapMul(k, vOld);
    UpdateHigh(a2, k * vOld, s1);
    SameResidue(s1, a1 - vOld + vNew, a2 - k * vOld);
  }

  lemma Halves(hi: U16, lo: U16)
    ensures (hi * 0x1_0000 + lo) / 0x1_0000 == hi && Low16(hi * 0x1_0000 + lo) == lo
  {
  }
}
