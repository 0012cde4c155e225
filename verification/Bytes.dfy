/** Bytes and the two integer layouts the assembler writes. The virtual machine never
    composes bytes positionally: it adds them up, so the facts that matter are about sums. */
module Bytes {

  type byte = x: int | 0 <= x < 256

  const WORD: int := 0x1_0000_0000
  const HALF: int := 0x1_0000

  /** The four bytes of a C int, most significant first (two's complement). */
  function BigEndian(v: int): (b: seq<byte>)
    ensures |b| == 4
  {
    [v / 256 / 256 / 256 % 256, v / 256 / 256 % 256, v / 256 % 256, v % 256]
  }

  /** The two low bytes of a C int, most significant first. */
  function TwoBytes(v: int): (b: seq<byte>)
    ensures |b| == 2
  {
    [v / 256 % 256, v % 256]
  }

  function Sum(b: seq<byte>): (r: nat)
    ensures r <= 255 * |b|
  {
    if b == [] then 0 else b[0] + Sum(b[1..])
  }

  lemma Sum2(b: seq<byte>)
    requires |b| == 2
    ensures Sum(b) == (b[0] as int) + (b[1] as int)
  {
    assert Sum(b[1..]) == b[1];
  }

  lemma Sum4(b: seq<byte>)
    requires |b| == 4
    ensures Sum(b) == (b[0] as int) + (b[1] as int) + (b[2] as int) + (b[3] as int)
  {
    assert Sum(b[3..]) == b[3];
    assert b[2..][1..] == b[3..];
    assert Sum(b[2..]) == (b[2] as int) + (b[3] as int);
    assert b[1..][1..] == b[2..];
  }

  lemma OnlyZero(m: int, k: int)
    requires -m < m * k < m
    ensures k == 0
  {
  }

  lemma ModUnique(v: int, m: int, q: int, r: int)
    requires 0 <= r < m && v == m * q + r
    ensures v % m == r
  {
    var d, t := v / m, v % m;
    assert v == m * d + t;
    assert m * (d - q) == m * d - m * q == r - t;
    OnlyZero(m, d - q);
  }

  /** The bytes are the base-256 digits of the value modulo the width. */
  lemma Digits(v: int)
    ensures var b := BigEndian(v);
            v % WORD == (b[0] as int) * 0x100_0000 + (b[1] as int) * 0x1_0000 + (b[2] as int) * 0x100 + (b[3] as int)
    ensures var b := TwoBytes(v); v % HALF == (b[0] as int) * 0x100 + (b[1] as int)
  {
    var q1, d0 := v / 256, v % 256;
    var q2, d1 := q1 / 256, q1 % 256;
    var q3, d2 := q2 / 256, q2 % 256;
    var q4, d3 := q3 / 256, q3 % 256;
    ModUnique(v, HALF, q2, d1 * 0x100 + d0);
    ModUnique(v, WORD, q4, d3 * 0x100_0000 + d2 * 0x1_0000 + d1 * 0x100 + d0);
  }

  lemma CastingOut255(s: int, k: int)
    requires s >= 0
    ensures (255 * k + s) % 255 == s % 255
  {
    ModUnique(255 * k + s, 255, k + s / 255, s % 255);
  }

  /** What comes back when the four bytes of a word are summed: the word modulo 255, the
      word itself exactly below 256. */
  lemma BigEndianSum(v: int)
    ensures Sum(BigEndian(v)) <= 1020
    ensures Sum(BigEndian(v)) % 255 == (v % WORD) % 255
    ensures Sum(BigEndian(v)) == v % WORD <==> v % WORD < 256
    ensures 0 <= v < 256 ==> Sum(BigEndian(v)) == v
  {
    var b := BigEndian(v);
    Sum4(b);
    Digits(v);
    CastingOut255(Sum(b), (b[0] as int) * 65793 + (b[1] as int) * 257 + (b[2] as int));
    if 0 <= v < 256 { ModUnique(v, WORD, 0, v); }
  }

  lemma TwoBytesSum(v: int)
    ensures Sum(TwoBytes(v)) <= 510
    ensures Sum(TwoBytes(v)) % 255 == (v % HALF) % 255
    ensures Sum(TwoBytes(v)) == v % HALF <==> v % HALF < 256
    ensures 0 <= v < 256 ==> Sum(TwoBytes(v)) == v
    ensures TwoBytes(v) == [0, 0] <==> v % HALF == 0
  {
    var b := TwoBytes(v);
    Sum2(b);
    Digits(v);
    CastingOut255(Sum(b), b[0] as int);
    if 0 <= v < 256 { ModUnique(v, HALF, 0, v); }
  }

  /** The first two bytes of a word are zero exactly when its high half is. */
  lemma HighHalfZero(v: int)
    ensures BigEndian(v)[0] == BigEndian(v)[1] == 0 <==> v % WORD < HALF
  {
    Digits(v);
  }
}
