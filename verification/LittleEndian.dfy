/** Fixed-width integers as bytes, least significant first, and the cursor that reads them. */
module LittleEndian {
  import opened Types

  /** The number of values that w bytes can hold. */
  function Range(w: nat): (r: nat)
    ensures r >= 1
  {
    if w == 0 then 1 else 256 * Range(w - 1)
  }

  /** The low w bytes of v. */
  function Bytes(v: nat, w: nat): (s: seq<Byte>)
    ensures |s| == w
  {
    if w == 0 then [] else [v % 256] + Bytes(v / 256, w - 1)
  }

  function Value(s: seq<Byte>): nat {
    if s == [] then 0 else s[0] + 256 * Value(s[1..])
  }

  lemma {:induction false} ValueOfBytes(v: nat, w: nat)
    requires v < Range(w)
    ensures Value(Bytes(v, w)) == v
  {
    if w > 0 {
      ValueOfBytes(v / 256, w - 1);
      assert Bytes(v, w)[1..] == Bytes(v / 256, w - 1);
    }
  }

  lemma {:induction false} LowByte(b: Byte, rest: nat)
    ensures (b + 256 * rest) % 256 == b && (b + 256 * rest) / 256 == rest
  {
  }

  lemma {:induction false} BytesOfValue(s: seq<Byte>)
    ensures Value(s) < Range(|s|) && Bytes(Value(s), |s|) == s
  {
    if s != [] {
      BytesOfValue(s[1..]);
      LowByte(s[0], Value(s[1..]));
      assert s == [s[0]] + s[1..];
    }
  }

  /** Byte i of a number counts multiples of 256 to the i. */
  lemma {:induction false} ByteAt(v: nat, w: nat, i: nat)
    requires i < w
    ensures Bytes(v, w)[i] == v / Range(i) % 256
  {
    if i > 0 {
      ByteAt(v / 256, w - 1, i - 1);
      DivideTwice(v, Range(i - 1));
    }
  }

  lemma {:induction false} DivideTwice(v: nat, m: nat)
    requires m >= 1
    ensures v / 256 / m == v / (256 * m)
  {
    var q := v / 256 / m;
    var a, b := v % 256, v / 256 % m;
    assert v == 256 * (m * q + b) + a;
    assert v == 256 * m * q + (256 * b + a);
    assert 256 * b + a < 256 * m;
    QuotientOf(v, 256 * m, q, 256 * b + a);
  }

  lemma {:induction false} QuotientOf(v: nat, d: nat, q: nat, rest: nat)
    requires rest < d && v == d * q + rest
    ensures v / d == q
  {
    var e := v / d - q;
    assert v == d * (v / d) + v % d;
    assert d * e == rest - v % d;
    assert e >= 1 ==> d * e >= d;
    assert e <= -1 ==> d * e <= 0 - d;
  }

  /** The widths in use. */
  lemma {:induction false} Ranges()
    ensures Range(1) == 256 && Range(4) == 0x1_0000_0000 && Range(8) == 0x1_0000_0000_0000_0000
  {
    assert Range(2) == 256 * Range(1) && Range(3) == 256 * Range(2);
    assert Range(5) == 256 * Range(4) && Range(6) == 256 * Range(5) && Range(7) == 256 * Range(6);
  }

  /** The outcome of reading one integer: none if too few bytes are left. */
  datatype Pod = NoPod | Pod(value: nat, rest: seq<Byte>)

  function ReadPod(s: seq<Byte>, w: nat): Pod {
    if |s| < w then NoPod else Pod(Value(s[..w]), s[w..])
  }

  /** Reading what was written, with anything behind it. */
  lemma {:induction false} ReadWritten(v: nat, w: nat, tail: seq<Byte>)
    requires v < Range(w)
    ensures ReadPod(Bytes(v, w) + tail, w) == Pod(v, tail)
  {
    ValueOfBytes(v, w);
    assert (Bytes(v, w) + tail)[..w] == Bytes(v, w);
  }

  /** More bytes behind the cursor do not change a successful read. */
  lemma {:induction false} ReadExtended(s: seq<Byte>, w: nat, more: seq<Byte>)
    requires ReadPod(s, w).Pod?
    ensures var r := ReadPod(s, w); ReadPod(s + more, w) == Pod(r.value, r.rest + more)
  {
    assert (s + more)[..w] == s[..w];
    assert (s + more)[w..] == s[w..] + more;
  }

  // 128-bit words: the high half first

  predicate Fits128(u: U128) {
    u.high < Range(8) && u.low < Range(8)
  }

  function Bytes128(u: U128): (s: seq<Byte>)
    ensures |s| == 16
  {
    Bytes(u.high, 8) + Bytes(u.low, 8)
  }

  datatype Word = NoWord | Word(value: U128, rest: seq<Byte>)

  function ReadWord(s: seq<Byte>): Word {
    if |s| < 16 then NoWord else Word(U128(Value(s[..8]), Value(s[8..16])), s[16..])
  }

  lemma {:induction false} ReadWrittenWord(u: U128, tail: seq<Byte>)
    requires Fits128(u)
    ensures ReadWord(Bytes128(u) + tail) == Word(u, tail)
  {
    ValueOfBytes(u.high, 8);
    ValueOfBytes(u.low, 8);
    var s := Bytes128(u) + tail;
    assert s[..8] == Bytes(u.high, 8) && s[8..16] == Bytes(u.low, 8) && s[16..] == tail;
  }
}
