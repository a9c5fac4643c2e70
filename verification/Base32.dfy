/** Unpadded Base32 (section 6 of RFC 4648) as computed on 32-bit words that are never masked. */
module Base32 {
  import opened Numbers

  type Byte = b: int | 0 <= b < 256
  type Quintet = q: int | 0 <= q < 32
  type Word = w: int | 0 <= w < 0x1_0000_0000

  const ALPHABET: string := "ABCDEFGHIJKLMNOPQRSTUVWXYZ234567"

  /** What a 32-bit word keeps of a shift or of a sum of disjoint bits. */
  function Wrapped(value: nat): Word { value % 0x1_0000_0000 }

  /** The bits of a word that count, and the five or eight topmost of them: (value >>> n) & 31, (value >>> n) & 0xff. */
  function Low(value: Word, bits: nat): (r: nat)
    ensures r < Pow2(bits)
  {
    value % Pow2(bits)
  }

  function Top5(value: Word, n: nat): Quintet { value / Pow2(n) % 32 }
  function Top8(value: Word, n: nat): Byte { value / Pow2(n) % 256 }

  /** (value << (5 - bits)) & 31. */
  function Padded(value: Word, bits: nat): Quintet
    requires bits <= 5
  {
    Wrapped(value * Pow2(5 - bits)) % 32
  }

  lemma Pow2Small()
    ensures Pow2(0) == 1 && Pow2(1) == 2 && Pow2(2) == 4 && Pow2(3) == 8 && Pow2(4) == 16 && Pow2(5) == 32 && Pow2(6) == 64
    ensures Pow2(7) == 128 && Pow2(8) == 256
  {
    assert Pow2(8) == 2 * Pow2(7);
    assert Pow2(7) == 2 * Pow2(6);
    assert Pow2(6) == 2 * Pow2(5);
    assert Pow2(5) == 2 * Pow2(4);
    assert Pow2(4) == 2 * Pow2(3);
  }

  // ---- What the loops compute, the pending bits alone --------------------------------------

  /** The quintets still to come, with `bits` bits worth `pending` waiting. */
  function Encoded(bytes: seq<Byte>, pending: nat, bits: nat): seq<Quintet>
    requires bits < 5 && pending < Pow2(bits)
    decreases |bytes|
  {
    Pow2Small();
    if bytes == [] then if bits > 0 then [LastQuintet(pending, bits)] else []
    else
      var all := pending * 256 + bytes[0];
      if bits < 2 then [Take5(all, bits + 8)] + Encoded(bytes[1..], all % Pow2(bits + 3), bits + 3)
      else [Take5(all, bits + 8), Take5(all % Pow2(bits + 3), bits + 3)] + Encoded(bytes[1..], all % Pow2(bits - 2), bits - 2)
  }

  function LastQuintet(pending: nat, bits: nat): Quintet
    requires 0 < bits < 5 && pending < Pow2(bits)
  {
    Pow2Small();
    pending * Pow2(5 - bits)
  }

  /** The five highest of `bits` bits. */
  function Take5(all: nat, bits: nat): Quintet
    requires 5 <= bits <= 12
  {
    all / Pow2(bits - 5) % 32
  }

  function Decoded(quintets: seq<Quintet>, pending: nat, bits: nat): seq<Byte>
    requires bits < 8 && pending < Pow2(bits)
    decreases |quintets|
  {
    Pow2Small();
    if quintets == [] then []
    else
      var all := pending * 32 + quintets[0];
      if bits < 3 then Decoded(quintets[1..], all, bits + 5)
      else [all / Pow2(bits - 3) % 256] + Decoded(quintets[1..], all % Pow2(bits - 3), bits - 3)
  }

  // ---- Round trip ------------------------------------------------------------------------

  lemma DecodeShort(t: Quintet, rest: seq<Quintet>, q: nat, d: nat)
    requires d < 3 && q < Pow2(d) && q * 32 + t < Pow2(d + 5)
    ensures Decoded([t] + rest, q, d) == Decoded(rest, q * 32 + t, d + 5)
  {
    assert ([t] + rest)[1..] == rest;
  }

  lemma DecodeLong(t: Quintet, rest: seq<Quintet>, q: nat, d: nat)
    requires 3 <= d < 8 && q < Pow2(d)
    ensures Decoded([t] + rest, q, d) == [(q * 32 + t) / Pow2(d - 3) % 256] + Decoded(rest, (q * 32 + t) % Pow2(d - 3), d - 3)
  {
    assert ([t] + rest)[1..] == rest;
  }

  lemma EncodeShort(x: Byte, rest: seq<Byte>, p: nat, b: nat)
    requires b < 2 && p < Pow2(b)
    ensures var all := p * 256 + x;
            Encoded([x] + rest, p, b) == [Take5(all, b + 8)] + Encoded(rest, all % Pow2(b + 3), b + 3)
  {
    assert ([x] + rest)[1..] == rest;
  }

  lemma EncodeLong(x: Byte, rest: seq<Byte>, p: nat, b: nat)
    requires 2 <= b < 5 && p < Pow2(b)
    ensures var all := p * 256 + x;
            Encoded([x] + rest, p, b)
            == [Take5(all, b + 8)] + ([Take5(all % Pow2(b + 3), b + 3)] + Encoded(rest, all % Pow2(b - 2), b - 2))
  {
    assert ([x] + rest)[1..] == rest;
  }

  // One byte through both, from each of the five places the encoder can be in.

  lemma Bits0(x: Byte) returns (t: Quintet)
    ensures t == Take5(x, 8) && t == x / 8
  {
    Pow2Small();
    t := x / 8;
  }

  lemma From0(x: Byte, rest: seq<Byte>)
    ensures Decoded(Encoded([x] + rest, 0, 0), 0, 0) == Decoded(Encoded(rest, x % 8, 3), x / 8, 5)
  {
    Pow2Small();
    hide Encoded, Decoded, Pow2, Take5;
    var t := Bits0(x);
    EncodeShort(x, rest, 0, 0);
    DecodeShort(t, Encoded(rest, x % 8, 3), 0, 0);
  }

  lemma Bits1(x: Byte, p: nat, q: nat) returns (t: Quintet, all: nat)
    requires p < 2 && q < 128
    ensures all == p * 256 + x && t == Take5(all, 9) && all % Pow2(4) == x % 16
    ensures (q * 32 + t) / Pow2(4) % 256 == q * 2 + p < 256 && (q * 32 + t) % Pow2(4) == x / 16
  {
    Pow2Small();
    all, t := p * 256 + x, p * 16 + x / 16;
  }

  lemma From1(x: Byte, rest: seq<Byte>, p: nat, q: nat)
    requires p < 2 && q < 128
    ensures Decoded(Encoded([x] + rest, p, 1), q, 7) == [q * 2 + p] + Decoded(Encoded(rest, x % 16, 4), x / 16, 4)
  {
    Pow2Small();
    hide Encoded, Decoded, Pow2, Take5;
    var t, all := Bits1(x, p, q);
    EncodeShort(x, rest, p, 1);
    DecodeLong(t, Encoded(rest, x % 16, 4), q, 7);
  }

  /** From a place with two quintets to come: what is emitted, and what is left on either side. */
  lemma TwoQuintets(x: Byte, rest: seq<Byte>, p: nat, b: nat, q: nat, t: Quintet, u: Quintet, p': nat, out: Byte, q': nat)
    requires 2 <= b < 5 && p < Pow2(b) && q < Pow2(8 - b)
    requires t == Take5(p * 256 + x, b + 8) && u == Take5((p * 256 + x) % Pow2(b + 3), b + 3) && p' == (p * 256 + x) % Pow2(b - 2)
    requires out == (q * 32 + t) / Pow2(5 - b) % 256 && q' == (q * 32 + t) % Pow2(5 - b)
    ensures Decoded(Encoded([x] + rest, p, b), q, 8 - b) == [out] + Decoded([u] + Encoded(rest, p', b - 2), q', 5 - b)
  {
    hide Encoded, Decoded, Take5;
    EncodeLong(x, rest, p, b);
    DecodeLong(t, [u] + Encoded(rest, p', b - 2), q, 8 - b);
  }

  lemma Bits2(x: Byte, p: nat, q: nat) returns (t: Quintet, u: Quintet, all: nat)
    requires p < 4 && q < 64
    ensures all == p * 256 + x && t == Take5(all, 10) && u == Take5(all % Pow2(5), 5) && all % Pow2(0) == 0
    ensures (q * 32 + t) / Pow2(3) % 256 == q * 4 + p < 256 && (q * 32 + t) % Pow2(3) == x / 32
    ensures (x / 32 * 32 + u) / Pow2(0) % 256 == x && (x / 32 * 32 + u) % Pow2(0) == 0
  {
    Pow2Small();
    var high, low := x / 32, x % 32;
    assert x == high * 32 + low;
    all, t, u := p * 256 + x, p * 8 + high, low;
    DivisionIs(all, 32, p * 8 + high, low);
    DivisionIs(q * 32 + t, 8, q * 4 + p, high);
  }

  lemma From2(x: Byte, rest: seq<Byte>, p: nat, q: nat)
    requires p < 4 && q < 64
    ensures Decoded(Encoded([x] + rest, p, 2), q, 6) == [q * 4 + p] + ([x] + Decoded(Encoded(rest, 0, 0), 0, 0))
  {
    Pow2Small();
    hide Encoded, Decoded, Pow2, Take5;
    var t, u, all := Bits2(x, p, q);
    TwoQuintets(x, rest, p, 2, q, t, u, 0, q * 4 + p, x / 32);
    DecodeLong(u, Encoded(rest, 0, 0), x / 32, 3);
  }

  lemma Bits3(x: Byte, p: nat, q: nat) returns (t: Quintet, u: Quintet, all: nat)
    requires p < 8 && q < 32
    ensures all == p * 256 + x && t == Take5(all, 11) && u == Take5(all % Pow2(6), 6)
    ensures all % Pow2(1) == x % 2 && x / 64 * 32 + u == x / 2
    ensures (q * 32 + t) / Pow2(2) % 256 == q * 8 + p < 256 && (q * 32 + t) % Pow2(2) == x / 64
  {
    Pow2Small();
    var high, low := x / 64, x % 64;
    assert x == high * 64 + low;
    all, t, u := p * 256 + x, p * 4 + high, low / 2;
    DivisionIs(all, 64, p * 4 + high, low);
    DivisionIs(q * 32 + t, 4, q * 8 + p, high);
  }

  lemma From3(x: Byte, rest: seq<Byte>, p: nat, q: nat)
    requires p < 8 && q < 32
    ensures Decoded(Encoded([x] + rest, p, 3), q, 5) == [q * 8 + p] + Decoded(Encoded(rest, x % 2, 1), x / 2, 7)
  {
    Pow2Small();
    hide Encoded, Decoded, Pow2, Take5;
    var t, u, all := Bits3(x, p, q);
    TwoQuintets(x, rest, p, 3, q, t, u, x % 2, q * 8 + p, x / 64);
    DecodeShort(u, Encoded(rest, x % 2, 1), x / 64, 2);
  }

  lemma Bits4(x: Byte, p: nat, q: nat) returns (t: Quintet, u: Quintet, all: nat)
    requires p < 16 && q < 16
    ensures all == p * 256 + x && t == Take5(all, 12) && u == Take5(all % Pow2(7), 7)
    ensures all % Pow2(2) == x % 4 && x / 128 * 32 + u == x / 4
    ensures (q * 32 + t) / Pow2(1) % 256 == q * 16 + p < 256 && (q * 32 + t) % Pow2(1) == x / 128
  {
    Pow2Small();
    var high, low := x / 128, x % 128;
    assert x == high * 128 + low;
    all, t, u := p * 256 + x, p * 2 + high, low / 4;
    DivisionIs(all, 128, p * 2 + high, low);
    DivisionIs(q * 32 + t, 2, q * 16 + p, high);
  }

  lemma From4(x: Byte, rest: seq<Byte>, p: nat, q: nat)
    requires p < 16 && q < 16
    ensures Decoded(Encoded([x] + rest, p, 4), q, 4) == [q * 16 + p] + Decoded(Encoded(rest, x % 4, 2), x / 4, 6)
  {
    Pow2Small();
    hide Encoded, Decoded, Pow2, Take5;
    var t, u, all := Bits4(x, p, q);
    TwoQuintets(x, rest, p, 4, q, t, u, x % 4, q * 16 + p, x / 128);
    DecodeShort(u, Encoded(rest, x % 4, 2), x / 128, 1);
  }

  /** Nothing left to encode: the last bits and their padding complete the last byte, and no more. */
  lemma LastBits(p: nat, b: nat, q: nat, padding: nat)
    requires 0 < b < 5 && p < Pow2(b) && q < Pow2(8 - b) && padding == Pow2(5 - b) && padding * Pow2(b) == 32
    ensures Decoded(Encoded([], p, b), q, 8 - b) == [q * Pow2(b) + p]
  {
    var t := LastQuintet(p, b);
    DecodeLong(t, [], q, 8 - b);
    assert Encoded([], p, b) == [t] + [] && Decoded([], (q * 32 + t) % padding, 5 - b) == [];
    hide Encoded, Decoded;
    LastByte(q, p, Pow2(b), padding);
    LastByteFits(p, b, q);
    assert [q * Pow2(b) + p] + [] == [q * Pow2(b) + p];
  }

  lemma LastByte(q: nat, p: nat, power: nat, padding: nat)
    requires padding > 0 && padding * power == 32
    ensures (q * 32 + p * padding) / padding == q * power + p
  {
    assert q * 32 + p * padding == (q * power + p) * padding;
  }

  lemma LastByteFits(p: nat, b: nat, q: nat)
    requires 0 < b < 5 && p < Pow2(b) && q < Pow2(8 - b)
    ensures 0 <= q * Pow2(b) + p < 256
  {
    Pow2Small();
  }

  // The decoder is behind the encoder by the bits the encoder still holds: either
  // both hold none, or what they hold makes up one byte.

  lemma {:induction false} Behind0(bytes: seq<Byte>)
    ensures Decoded(Encoded(bytes, 0, 0), 0, 0) == bytes
    decreases |bytes|
  {
    Pow2Small();
    if bytes != [] {
      hide Encoded, Decoded, Pow2;
      var x, rest := bytes[0], bytes[1..];
      assert bytes == [x] + rest;
      From0(x, rest);
      Behind3(rest, x % 8, x / 8);
    }
  }

  lemma {:induction false} Behind1(bytes: seq<Byte>, p: nat, q: nat)
    requires p < 2 && q < 128
    ensures Decoded(Encoded(bytes, p, 1), q, 7) == [q * 2 + p] + bytes
    decreases |bytes|
  {
    Pow2Small();
    hide Encoded, Decoded, Pow2;
    if bytes == [] {
      LastBits(p, 1, q, 16);
      assert [q * 2 + p] + bytes == [q * 2 + p];
    } else {
      var x, rest := bytes[0], bytes[1..];
      assert bytes == [x] + rest;
      From1(x, rest, p, q);
      Behind4(rest, x % 16, x / 16);
    }
  }

  lemma {:induction false} Behind2(bytes: seq<Byte>, p: nat, q: nat)
    requires p < 4 && q < 64
    ensures Decoded(Encoded(bytes, p, 2), q, 6) == [q * 4 + p] + bytes
    decreases |bytes|
  {
    Pow2Small();
    hide Encoded, Decoded, Pow2;
    if bytes == [] {
      LastBits(p, 2, q, 8);
      assert [q * 4 + p] + bytes == [q * 4 + p];
    } else {
      var x, rest := bytes[0], bytes[1..];
      assert bytes == [x] + rest;
      From2(x, rest, p, q);
      Behind0(rest);
    }
  }

  lemma {:induction false} Behind3(bytes: seq<Byte>, p: nat, q: nat)
    requires p < 8 && q < 32
    ensures Decoded(Encoded(bytes, p, 3), q, 5) == [q * 8 + p] + bytes
    decreases |bytes|
  {
    Pow2Small();
    hide Encoded, Decoded, Pow2;
    if bytes == [] {
      LastBits(p, 3, q, 4);
      assert [q * 8 + p] + bytes == [q * 8 + p];
    } else {
      var x, rest := bytes[0], bytes[1..];
      assert bytes == [x] + rest;
      From3(x, rest, p, q);
      Behind1(rest, x % 2, x / 2);
    }
  }

  lemma {:induction false} Behind4(bytes: seq<Byte>, p: nat, q: nat)
    requires p < 16 && q < 16
    ensures Decoded(Encoded(bytes, p, 4), q, 4) == [q * 16 + p] + bytes
    decreases |bytes|
  {
    Pow2Small();
    hide Encoded, Decoded, Pow2;
    if bytes == [] {
      LastBits(p, 4, q, 2);
      assert [q * 16 + p] + bytes == [q * 16 + p];
    } else {
      var x, rest := bytes[0], bytes[1..];
      assert bytes == [x] + rest;
      From4(x, rest, p, q);
      Behind2(rest, x % 4, x / 4);
    }
  }

  // ---- What the encoding is --------------------------------------------------------------

  /** Quintets, and bytes, as the digits of one number, the first the highest. */
  function Value5(quintets: seq<Quintet>): nat {
    if quintets == [] then 0 else quintets[0] * Pow2(5 * (|quintets| - 1)) + Value5(quintets[1..])
  }

  function Value8(bytes: seq<Byte>): nat {
    if bytes == [] then 0 else bytes[0] * Pow2(8 * (|bytes| - 1)) + Value8(bytes[1..])
  }

  /** The number still to be written: the pending bits, then the bytes. */
  function Pending(bytes: seq<Byte>, p: nat): nat { p * Pow2(8 * |bytes|) + Value8(bytes) }

  lemma FirstQuintet(t: Quintet, rest: seq<Quintet>)
    ensures Value5([t] + rest) == t * Pow2(5 * |rest|) + Value5(rest)
  {
    assert ([t] + rest)[1..] == rest;
  }

  lemma ByteBecomesPending(x: Byte, rest: seq<Byte>, p: nat)
    ensures Pending([x] + rest, p) == Pending(rest, p * 256 + x)
  {
    var bytes, power := [x] + rest, Pow2(8 * |rest|);
    assert bytes[1..] == rest && 8 * |bytes| == 8 + 8 * |rest|;
    Pow2Sum(8, 8 * |rest|);
    Pow2Small();
    hide Pow2;
    assert Pow2(8 * |bytes|) == 256 * power;
    DigitMoves(p, x, power);
  }

  lemma DigitMoves(p: nat, x: nat, power: nat)
    ensures p * (256 * power) + x * power == (p * 256 + x) * power
  {}

  /** `top` stands above `low` bits worth `left`. */
  predicate SplitsAt(all: int, low: nat, top: int, left: int) { all == top * Pow2(low) + left }

  lemma SplitsAtTop(all: int, low: nat)
    ensures SplitsAt(all, low, all / Pow2(low), all % Pow2(low))
  {
    hide Pow2;
    Recombined(all, Pow2(low));
  }

  lemma Recombined(a: int, m: int)
    requires m > 0
    ensures a == a / m * m + a % m && 0 <= a % m < m
  {}

  /** A quintet written takes the top of the pending bits, `low` of which remain. */
  lemma QuintetWritten(all: nat, low: nat, t: nat, left: nat, rest: seq<Byte>, digits: nat, padding: nat)
    requires SplitsAt(all, low, t, left) && 5 * digits == 8 * |rest| + low + padding
    ensures t * Pow2(5 * digits) + Pending(rest, left) * Pow2(padding) == Pending(rest, all) * Pow2(padding)
  {
    Pow2Sum(8 * |rest|, low);
    Pow2Sum(8 * |rest| + low, padding);
    hide Pow2, Value8;
    Regroup(t, Pow2(8 * |rest|), Pow2(low), Pow2(padding), left, Value8(rest), all, Pow2(5 * digits));
  }

  lemma Regroup(t: nat, r: nat, l: nat, pad: nat, left: nat, value: nat, all: nat, power: nat)
    requires power == (r * l) * pad && all == t * l + left
    ensures t * power + (left * r + value) * pad == (all * r + value) * pad
  {
    assert t * power == (t * l) * r * pad by { assert t * ((r * l) * pad) == t * l * r * pad; }
    assert all * r == (t * l) * r + left * r;
    var u, v := (t * l) * r, left * r + value;
    assert (u + v) * pad == u * pad + v * pad;
  }

  /** The padding of what is left to encode is less than a quintet. */
  ghost predicate IsNumeral(bytes: seq<Byte>, p: nat, b: nat, quintets: seq<Quintet>) {
    var padding := 5 * |quintets| - 8 * |bytes| - b;
    0 <= padding < 5 && Value5(quintets) == Pending(bytes, p) * Pow2(padding)
  }

  lemma NumeralGrows(all: nat, low: nat, t: Quintet, left: nat, rest: seq<Byte>, quintets: seq<Quintet>)
    requires SplitsAt(all, low, t, left) && IsNumeral(rest, left, low, quintets)
    ensures IsNumeral(rest, all, low + 5, [t] + quintets)
  {
    hide Value5, Pending, Pow2, SplitsAt;
    var padding := 5 * |quintets| - 8 * |rest| - low;
    FirstQuintet(t, quintets);
    QuintetWritten(all, low, t, left, rest, |quintets|, padding);
  }

  /** A byte goes in as one quintet, or as two. */
  lemma ShortByte(x: Byte, rest: seq<Byte>, p: nat, b: nat)
    requires b < 2 && p < Pow2(b)
    ensures var all := p * 256 + x;
            && all % Pow2(b + 3) < Pow2(b + 3)
            && Encoded([x] + rest, p, b) == [Take5(all, b + 8)] + Encoded(rest, all % Pow2(b + 3), b + 3)
            && SplitsAt(all, b + 3, Take5(all, b + 8), all % Pow2(b + 3))
  {
    EncodeShort(x, rest, p, b);
    AllFits(p, b, x);
    SplitsAtTop(p * 256 + x, b + 3);
  }

  lemma LongByte(x: Byte, rest: seq<Byte>, p: nat, b: nat) returns (t: Quintet, mid: nat, u: Quintet, left: nat)
    requires 2 <= b < 5 && p < Pow2(b)
    ensures left < Pow2(b - 2) && Encoded([x] + rest, p, b) == [t] + ([u] + Encoded(rest, left, b - 2))
    ensures SplitsAt(p * 256 + x, b + 3, t, mid) && SplitsAt(mid, b - 2, u, left)
  {
    hide Encoded, Take5, SplitsAt, Pow2;
    var all := p * 256 + x;
    EncodeLong(x, rest, p, b);
    AllFits(p, b, x);
    SplitsAtTop(all, b + 3);
    Recombined(all, Pow2(b + 3));
    Recombined(all, Pow2(b - 2));
    mid, left := all % Pow2(b + 3), all % Pow2(b - 2);
    t, u := Take5(all, b + 8), Take5(mid, b + 3);
    MidSplits(all, mid, b);
  }

  lemma MidSplits(all: nat, mid: nat, b: nat)
    requires 2 <= b < 5 && mid == all % Pow2(b + 3) < Pow2(b + 3)
    ensures SplitsAt(mid, b - 2, Take5(mid, b + 3), all % Pow2(b - 2)) && all % Pow2(b - 2) < Pow2(b - 2)
  {
    Pow2Small();
    TopFits(mid, b - 2);
    SplitsAtTop(mid, b - 2);
    Pow2Sum(b - 2, 5);
    hide Pow2, SplitsAt, Take5;
    TakenOff(all, Pow2(b - 2), 32);
    Recombined(all, Pow2(b - 2));
  }

  /** Padding counts the same from either side of a byte. */
  lemma NumeralOfByte(x: Byte, rest: seq<Byte>, p: nat, b: nat, quintets: seq<Quintet>)
    requires IsNumeral(rest, p * 256 + x, b + 8, quintets)
    ensures IsNumeral([x] + rest, p, b, quintets)
  {
    ByteBecomesPending(x, rest, p);
    hide Pow2, Pending, Value5;
  }

  lemma {:induction false} EncodedIsNumeral(bytes: seq<Byte>, p: nat, b: nat)
    requires b < 5 && p < Pow2(b)
    ensures IsNumeral(bytes, p, b, Encoded(bytes, p, b))
    decreases |bytes|
  {
    if bytes == [] {
      LastIsNumeral(p, b);
    } else {
      hide Encoded, IsNumeral, SplitsAt, Take5, Pow2;
      var x, rest, all := bytes[0], bytes[1..], p * 256 + bytes[0];
      assert bytes == [x] + rest;
      if b < 2 {
        var t, left := Take5(all, b + 8), all % Pow2(b + 3);
        ShortByte(x, rest, p, b);
        EncodedIsNumeral(rest, left, b + 3);
        NumeralGrows(all, b + 3, t, left, rest, Encoded(rest, left, b + 3));
      } else {
        var t, mid, u, left := LongByte(x, rest, p, b);
        EncodedIsNumeral(rest, left, b - 2);
        NumeralGrows(mid, b - 2, u, left, rest, Encoded(rest, left, b - 2));
        NumeralGrows(all, b + 3, t, mid, rest, [u] + Encoded(rest, left, b - 2));
      }
      NumeralOfByte(x, rest, p, b, Encoded(bytes, p, b));
    }
  }

  lemma LastIsNumeral(p: nat, b: nat)
    requires b < 5 && p < Pow2(b)
    ensures IsNumeral([], p, b, Encoded([], p, b))
  {
    Pow2Small();
    if b > 0 {
      FirstQuintet(LastQuintet(p, b), []);
      assert [LastQuintet(p, b)] + [] == [LastQuintet(p, b)];
    }
  }

  /** A byte shifted in below b bits makes b + 8 bits, whose top five are a quotient. */
  lemma AllFits(p: nat, b: nat, x: Byte)
    requires b < 5 && p < Pow2(b)
    ensures p * 256 + x < Pow2(b + 8) && Take5(p * 256 + x, b + 8) == (p * 256 + x) / Pow2(b + 3)
  {
    Pow2Small();
    Pow2Sum(b, 8);
    TopFits(p * 256 + x, b + 3);
  }

  lemma TopFits(all: nat, low: nat)
    requires low <= 7 && all < Pow2(low + 5)
    ensures Take5(all, low + 5) == all / Pow2(low)
  {
    Pow2Small();
    Pow2Sum(low, 5);
    hide Pow2;
    QuotientFits(all, Pow2(low), 32);
  }

  lemma QuotientFits(all: nat, power: nat, size: nat)
    requires power > 0 && all < power * size
    ensures all / power < size
  {
    Recombined(all, power);
    var quotient, rest := all / power, all % power;
    TimesDifference(size, quotient, power);
    PositiveFactor(size - quotient, power);
  }

  lemma TimesDifference(x: int, y: int, m: int)
    ensures (x - y) * m == m * x - y * m
  {}

  /** The encoding is the number its bytes make, base 32, after the fewest zero bits that complete a quintet. */
  lemma EncodingIsNumeral(bytes: seq<Byte>)
    ensures IsNumeral(bytes, 0, 0, Encoded(bytes, 0, 0))
    ensures Pending(bytes, 0) == Value8(bytes)
  {
    EncodedIsNumeral(bytes, 0, 0);
  }

  // ---- Words for pending bits: nothing above the bits counted ever matters ---------------------

  lemma PositiveFactor(d: int, m: int)
    requires m > 0 && d * m > 0
    ensures d > 0
  {}

  lemma DivisionIs(a: int, m: int, k: int, r: int)
    requires m > 0 && 0 <= r < m && a == k * m + r
    ensures a % m == r && a / m == k
  {
    var k', r' := a / m, a % m;
    assert a == k' * m + r';
    var d := k - k';
    assert d * m == r' - r;
    assert (d + 1) * m > 0 by { assert (d + 1) * m == d * m + m; }
    PositiveFactor(d + 1, m);
    assert (1 - d) * m > 0 by { assert (1 - d) * m == m - d * m; }
    PositiveFactor(1 - d, m);
  }

  /** `size` is what is shifted in, `power` what counts already; together they divide the word. */
  lemma ShiftedIn(value: Word, power: int, size: int, low: int, times: int)
    requires power > 0 && 0 <= low < size && times * (power * size) == 0x1_0000_0000
    ensures power * size > 0
    ensures Wrapped(value * size + low) % (power * size) == value % power * size + low
  {
    var k, r, m := value / power, value % power, power * size;
    var all := value * size + low;
    PositiveProduct(power, size);
    assert value == k * power + r;
    SplitProduct(k, power, r, size);
    var j, w := all / 0x1_0000_0000, all % 0x1_0000_0000;
    assert all == j * 0x1_0000_0000 + w;
    RestOfWord(k, m, r * size + low, j, times, w);
    assert r * size + low < m by { RoomForLow(r, power, size, low); }
    DivisionIs(w, m, k - j * times, r * size + low);
  }

  lemma PositiveProduct(x: int, y: int)
    requires x > 0 && y > 0
    ensures x * y > 0
  {}

  lemma SplitProduct(k: int, power: int, r: int, size: int)
    ensures (k * power + r) * size == k * (power * size) + r * size
  {}

  lemma RestOfWord(k: int, m: int, low: int, j: int, times: int, w: int)
    requires k * m + low == j * (times * m) + w
    ensures w == (k - j * times) * m + low
  {}

  lemma RoomForLow(r: int, power: int, size: int, low: int)
    requires 0 <= r < power && 0 <= low < size
    ensures 0 <= r * size + low < power * size
  {
    assert (power - r - 1) * size >= 0;
    assert (power - r - 1) * size == power * size - r * size - size;
  }

  /** Taking the top of the bits that count, whatever lies above them. */
  lemma TakenOff(value: int, below: int, size: int)
    requires value >= 0 && below > 0 && size > 0
    ensures below * size > 0
    ensures value / below % size == value % (below * size) / below
    ensures value % (below * size) % below == value % below
  {
    var m := below * size;
    assert m > 0;
    var k, r := value / m, value % m;
    var a, s := r / below, r % below;
    assert value == k * m + r && r == a * below + s;
    assert value == (k * size + a) * below + s by { assert k * (below * size) == k * size * below; }
    DivisionIs(value, below, k * size + a, s);
    assert (size - a) * below == m - a * below;
    PositiveFactor(size - a, below);
    DivisionIs(k * size + a, size, k, a);
  }

  lemma Pow2Large()
    ensures Pow2(9) == 512 && Pow2(10) == 1024 && Pow2(11) == 2048 && Pow2(12) == 4096
  {
    Pow2Small();
    assert Pow2(12) == 2 * Pow2(11);
    assert Pow2(11) == 2 * Pow2(10);
    assert Pow2(10) == 2 * Pow2(9);
  }

  function WordOver(n: nat): int
    requires n <= 12
  {
    match n
    case 0 => 0x1_0000_0000 case 1 => 0x8000_0000 case 2 => 0x4000_0000 case 3 => 0x2000_0000 case 4 => 0x1000_0000
    case 5 => 0x800_0000 case 6 => 0x400_0000 case 7 => 0x200_0000 case 8 => 0x100_0000
    case 9 => 0x80_0000 case 10 => 0x40_0000 case 11 => 0x20_0000 case 12 => 0x10_0000
  }

  lemma WordOverPow2(n: nat)
    requires n <= 12
    ensures WordOver(n) * Pow2(n) == 0x1_0000_0000
  {
    Pow2Small();
    Pow2Large();
  }

  lemma {:induction false} Pow2Sum(m: nat, n: nat)
    ensures Pow2(m + n) == Pow2(m) * Pow2(n)
  {
    if m > 0 { Pow2Sum(m - 1, n); }
  }

  /** Shifting a byte in, past the 32nd bit or not, leaves the bits that count as they should be. */
  lemma ShiftByteIn(value: Word, bits: nat, x: Byte)
    requires bits < 5
    ensures Wrapped(value * 256 + x) % Pow2(bits + 8) == value % Pow2(bits) * 256 + x
  {
    Pow2Small();
    WordOverPow2(bits + 8);
    Pow2Sum(bits, 8);
    hide Pow2, WordOver, Wrapped;
    ShiftedIn(value, Pow2(bits), 256, x, WordOver(bits + 8));
  }

  lemma ShiftQuintetIn(value: Word, bits: nat, t: Quintet)
    requires bits < 8
    ensures Wrapped(value * 32 + t) % Pow2(bits + 5) == value % Pow2(bits) * 32 + t
  {
    Pow2Small();
    WordOverPow2(bits + 5);
    Pow2Sum(bits, 5);
    hide Pow2, WordOver, Wrapped;
    ShiftedIn(value, Pow2(bits), 32, t, WordOver(bits + 5));
  }

  /** (value >>> n) & 31, of a word with n + 5 bits that count. */
  lemma TopQuintet(value: Word, n: nat)
    ensures value / Pow2(n) % 32 == value % Pow2(n + 5) / Pow2(n)
    ensures value % Pow2(n + 5) % Pow2(n) == value % Pow2(n)
  {
    Pow2Small();
    Pow2Sum(n, 5);
    hide Pow2;
    TakenOff(value, Pow2(n), 32);
  }

  /** (value >>> n) & 0xff, of a word with n + 8 bits that count. */
  lemma TopByte(value: Word, n: nat)
    ensures value / Pow2(n) % 256 == value % Pow2(n + 8) / Pow2(n)
    ensures value % Pow2(n + 8) % Pow2(n) == value % Pow2(n)
  {
    Pow2Small();
    Pow2Sum(n, 8);
    hide Pow2;
    TakenOff(value, Pow2(n), 256);
  }

  /** (value << (5 - bits)) & 31. */
  lemma PaddedQuintet(value: Word, bits: nat)
    requires 0 < bits < 5
    ensures Wrapped(value * Pow2(5 - bits)) % 32 == value % Pow2(bits) * Pow2(5 - bits)
  {
    Pow2Small();
    WordOverPow2(5);
    Pow2Sum(bits, 5 - bits);
    hide Pow2, WordOver, Wrapped;
    ShiftedIn(value, Pow2(bits), Pow2(5 - bits), 0, WordOver(5));
  }

  // ---- Text ------------------------------------------------------------------------------

  function Symbols(quintets: seq<Quintet>): string {
    seq(|quintets|, i requires 0 <= i < |quintets| => ALPHABET[quintets[i]])
  }

  /** Where a symbol stands in the alphabet. */
  function IndexOf(c: char): Quintet
    requires IsSymbol(c)
  {
    if 'A' <= c <= 'Z' then c as int - 'A' as int else c as int - '2' as int + 26
  }

  predicate IsSymbol(c: char) { 'A' <= c <= 'Z' || '2' <= c <= '7' }

  lemma AlphabetIs(q: Quintet)
    ensures IsSymbol(ALPHABET[q]) && IndexOf(ALPHABET[q]) == q
  {
  }

  /**
   What a character leaves: its upper case, less what is outside the alphabet.
   Beyond ASCII, these are the characters whose full upper case has a letter of it.
   */
  function Kept(c: char): string {
    if 'a' <= c <= 'z' then [c - 'a' + 'A']
    else if IsSymbol(c) then [c]
    else if c < '\U{80}' then ""
    else
      match c
      case '\U{DF}' => "SS"
      case '\U{131}' => "I"
      case '\U{149}' => "N"
      case '\U{17F}' => "S"
      case '\U{1F0}' => "J"
      case '\U{1E96}' => "H"
      case '\U{1E97}' => "T"
      case '\U{1E98}' => "W"
      case '\U{1E99}' => "Y"
      case '\U{1E9A}' => "A"
      case '\U{FB00}' => "FF"
      case '\U{FB01}' => "FI"
      case '\U{FB02}' => "FL"
      case '\U{FB03}' => "FFI"
      case '\U{FB04}' => "FFL"
      case '\U{FB05}' => "ST"
      case '\U{FB06}' => "ST"
      case _ => ""
  }

  const SPECIALS: string := "\U{DF}\U{131}\U{149}\U{17F}\U{1F0}\U{1E96}\U{1E97}\U{1E98}\U{1E99}\U{1E9A}\U{FB00}\U{FB01}\U{FB02}\U{FB03}\U{FB04}\U{FB05}\U{FB06}"
  const LEAVE: seq<string> := ["SS", "I", "N", "S", "J", "H", "T", "W", "Y", "A", "FF", "FI", "FL", "FFI", "FFL", "ST", "ST"]

  /** Letters in either case and the digits 2 to 7 leave their symbol, the special letters their expansion, and all else nothing. */
  lemma KeptAre(c: char, i: nat)
    requires i < |SPECIALS|
    ensures |LEAVE| == |SPECIALS| == 17 && Kept(SPECIALS[i]) == LEAVE[i]
    ensures 65 <= c as int <= 90 || 50 <= c as int <= 55 ==> Kept(c) == [c]
    ensures 97 <= c as int <= 122 ==> Kept(c) == [(c as int - 32) as char]
    ensures !(65 <= c as int <= 90 || 50 <= c as int <= 55 || 97 <= c as int <= 122) && c !in SPECIALS ==> Kept(c) == []
  {
  }

  /** toUpperCase, then everything outside the alphabet dropped. */
  function Cleaned(text: string): string {
    if text == [] then [] else Cleaned(text[..|text| - 1]) + Kept(text[|text| - 1])
  }

  predicate AreSymbols(text: string) {
    forall i :: 0 <= i < |text| ==> IsSymbol(text[i])
  }

  lemma {:induction false} CleanedIsSymbols(text: string)
    ensures AreSymbols(Cleaned(text))
  {
    if text != [] {
      CleanedIsSymbols(text[..|text| - 1]);
      assert AreSymbols(Kept(text[|text| - 1]));
      hide Kept, IsSymbol;
    }
  }

  function Quintets(symbols: string): (q: seq<Quintet>)
    requires AreSymbols(symbols)
    ensures |q| == |symbols| && forall i :: 0 <= i < |q| ==> q[i] == IndexOf(symbols[i])
  {
    seq(|symbols|, i requires 0 <= i < |symbols| => IndexOf(symbols[i]))
  }

  function EncodedText(bytes: seq<Byte>): string {
    Symbols(Encoded(bytes, 0, 0))
  }

  function DecodedText(text: string): seq<Byte> {
    CleanedIsSymbols(text);
    Decoded(Quintets(Cleaned(text)), 0, 0)
  }

  // ---- The loops -------------------------------------------------------------------------

  /** What the inner loop and everything after it will still emit. */
  function Draining(all: nat, bits: nat, rest: seq<Byte>): seq<Quintet>
    requires bits <= 12 && all < Pow2(bits)
    decreases bits
  {
    if bits < 5 then Encoded(rest, all, bits)
    else [Take5(all, bits)] + Draining(all % Pow2(bits - 5), bits - 5, rest)
  }

  lemma DrainsByte(x: Byte, rest: seq<Byte>, p: nat, b: nat)
    requires b < 5 && p < Pow2(b)
    ensures p * 256 + x < Pow2(b + 8)
    ensures Draining(p * 256 + x, b + 8, rest) == Encoded([x] + rest, p, b)
  {
    ByteFits(x, p, b);
    if b < 2 { DrainsShort(x, rest, p, b); } else { DrainsLong(x, rest, p, b); }
  }

  lemma ByteFits(x: Byte, p: nat, b: nat)
    requires b < 5 && p < Pow2(b)
    ensures p * 256 + x < Pow2(b + 8)
  {
    Pow2Small();
    Pow2Sum(b, 8);
  }

  lemma DrainsShort(x: Byte, rest: seq<Byte>, p: nat, b: nat)
    requires b < 2 && p < Pow2(b) && p * 256 + x < Pow2(b + 8)
    ensures Draining(p * 256 + x, b + 8, rest) == Encoded([x] + rest, p, b)
  {
    EncodeShort(x, rest, p, b);
  }

  lemma DrainsLong(x: Byte, rest: seq<Byte>, p: nat, b: nat)
    requires 2 <= b < 5 && p < Pow2(b) && p * 256 + x < Pow2(b + 8)
    ensures Draining(p * 256 + x, b + 8, rest) == Encoded([x] + rest, p, b)
  {
    Pow2Small();
    EncodeLong(x, rest, p, b);
    Pow2Sum(b - 2, 5);
    TakenOff(p * 256 + x, Pow2(b - 2), 32);
  }

  lemma EmitOne(value: Word, bits: nat, rest: seq<Byte>, done: seq<Quintet>)
    requires 5 <= bits <= 12
    ensures done + Draining(Low(value, bits), bits, rest)
            == done + [Top5(value, bits - 5)] + Draining(Low(value, bits - 5), bits - 5, rest)
    ensures Symbols(done + [Top5(value, bits - 5)]) == Symbols(done) + [ALPHABET[Top5(value, bits - 5)]]
  {
    TopQuintet(value, bits - 5);
    var all, t := Low(value, bits), Top5(value, bits - 5);
    assert Take5(all, bits) == t && all % Pow2(bits - 5) == Low(value, bits - 5);
    hide Pow2, Take5;
    assert Draining(all, bits, rest) == [t] + Draining(Low(value, bits - 5), bits - 5, rest);
  }

  lemma TakeByte(value: Word, bits: nat, buffer: seq<Byte>, i: nat)
    requires bits < 5 && i < |buffer|
    ensures Encoded(buffer[i..], Low(value, bits), bits)
            == Draining(Low(Wrapped(value * 256 + buffer[i]), bits + 8), bits + 8, buffer[i + 1..])
  {
    hide Pow2, Encoded, Draining, Wrapped;
    assert buffer[i..] == [buffer[i]] + buffer[i + 1..];
    ShiftByteIn(value, bits, buffer[i]);
    DrainsByte(buffer[i], buffer[i + 1..], Low(value, bits), bits);
  }

  lemma Drained(all: nat, bits: nat, rest: seq<Byte>)
    requires bits < 5 && all < Pow2(bits)
    ensures Draining(all, bits, rest) == Encoded(rest, all, bits)
  {}

  lemma EmitLast(value: Word, bits: nat, done: seq<Quintet>)
    requires bits < 5
    ensures bits == 0 ==> Symbols(done + Encoded([], Low(value, bits), bits)) == Symbols(done)
    ensures bits > 0 ==> Symbols(done + Encoded([], Low(value, bits), bits)) == Symbols(done) + [ALPHABET[Padded(value, bits)]]
  {
    if bits > 0 {
      PaddedQuintet(value, bits);
      assert Encoded([], Low(value, bits), bits) == [Padded(value, bits)];
    } else {
      assert Encoded([], Low(value, bits), bits) == [];
      assert done + [] == done;
    }
  }

  method Base32Encode(buffer: seq<Byte>) returns (output: string)
    ensures output == EncodedText(buffer)
  {
    hide Pow2, Encoded, Draining, Wrapped, Symbols, Low, Top5, Padded;
    var bits: nat := 0;
    var value: Word := 0;
    ghost var done: seq<Quintet> := [];
    output := "";
    NothingYet(buffer);
    for i := 0 to |buffer|
      invariant bits < 5 && output == Symbols(done)
      invariant done + Encoded(buffer[i..], Low(value, bits), bits) == Encoded(buffer, 0, 0)
    {
      TakeByte(value, bits, buffer, i);
      value := Wrapped(value * 256 + buffer[i]);
      bits := bits + 8;
      while bits >= 5
        invariant bits <= 12 && output == Symbols(done)
        invariant done + Draining(Low(value, bits), bits, buffer[i + 1..]) == Encoded(buffer, 0, 0)
      {
        EmitOne(value, bits, buffer[i + 1..], done);
        var t: Quintet := Top5(value, bits - 5);
        output, done := output + [ALPHABET[t]], done + [t];
        bits := bits - 5;
      }
      Drained(Low(value, bits), bits, buffer[i + 1..]);
    }
    assert buffer[|buffer|..] == [];
    EmitLast(value, bits, done);
    if bits > 0 { output := output + [ALPHABET[Padded(value, bits)]]; }
  }

  lemma NothingYet(buffer: seq<Byte>)
    ensures Pow2(0) == 1 && Symbols([]) == "" && buffer[0..] == buffer
    ensures [] + Encoded(buffer[0..], Low(0, 0), 0) == Encoded(buffer, 0, 0)
  {}

  lemma ReadShort(value: Word, bits: nat, t: Quintet, rest: seq<Quintet>)
    requires bits < 3
    ensures Decoded([t] + rest, Low(value, bits), bits) == Decoded(rest, Low(Wrapped(value * 32 + t), bits + 5), bits + 5)
  {
    hide Decoded, Wrapped, Pow2;
    ShiftQuintetIn(value, bits, t);
    DecodeShort(t, rest, Low(value, bits), bits);
  }

  lemma ReadLong(value: Word, bits: nat, t: Quintet, rest: seq<Quintet>)
    requires 3 <= bits < 8
    ensures var value' := Wrapped(value * 32 + t);
            Decoded([t] + rest, Low(value, bits), bits)
            == [Top8(value', bits - 3)] + Decoded(rest, Low(value', bits - 3), bits - 3)
  {
    hide Decoded, Wrapped, Pow2;
    var value', pending := Wrapped(value * 32 + t), Low(value, bits);
    ShiftQuintetIn(value, bits, t);
    DecodeLong(t, rest, pending, bits);
    TopByte(value', bits - 3);
    var all := pending * 32 + t;
    assert Low(value', bits + 5) == all;
    Byteful(all, Pow2(bits - 3), value' / Pow2(bits - 3));
  }

  lemma Byteful(all: int, power: int, quotient: int)
    requires power > 0 && quotient % 256 == all / power
    ensures all / power % 256 == quotient % 256
  {}

  /** One more symbol read: what has come out, and what is still to come. */
  lemma ReadOne(bytes: seq<Byte>, value: Word, bits: nat, all: seq<Quintet>, i: nat)
    requires bits < 8 && i < |all|
    ensures var value' := Wrapped(value * 32 + all[i]);
            bytes + Decoded(all[i..], Low(value, bits), bits)
            == if bits < 3 then bytes + Decoded(all[i + 1..], Low(value', bits + 5), bits + 5)
               else bytes + [Top8(value', bits - 3)] + Decoded(all[i + 1..], Low(value', bits - 3), bits - 3)
  {
    hide Decoded, Wrapped, Pow2, Low, Top8;
    assert all[i..] == [all[i]] + all[i + 1..];
    if bits < 3 { ReadShort(value, bits, all[i], all[i + 1..]); } else { ReadLong(value, bits, all[i], all[i + 1..]); }
  }

  method Clean(encoded: string) returns (clean: string)
    ensures clean == Cleaned(encoded)
  {
    clean := "";
    for i := 0 to |encoded|
      invariant clean == Cleaned(encoded[..i])
    {
      assert encoded[..i + 1][..i] == encoded[..i];
      clean := clean + Kept(encoded[i]);
    }
    assert encoded[..|encoded|] == encoded;
  }

  method Base32Decode(encoded: string) returns (bytes: seq<Byte>)
    ensures bytes == DecodedText(encoded)
  {
    var clean := Clean(encoded);
    CleanedIsSymbols(encoded);
    ghost var all := Quintets(clean);
    hide Pow2, Decoded, Wrapped, Cleaned, Quintets, IndexOf, IsSymbol, Low, Top8;
    var bits: nat := 0;
    var value: Word := 0;
    bytes := [];
    NothingRead(all);
    for i := 0 to |clean|
      invariant bits < 8
      invariant bytes + Decoded(all[i..], Low(value, bits), bits) == Decoded(all, 0, 0)
    {
      ReadOne(bytes, value, bits, all, i);
      var t := IndexOf(clean[i]);
      value := Wrapped(value * 32 + t);
      bits := bits + 5;
      if bits >= 8 {
        bytes := bytes + [Top8(value, bits - 8)];
        bits := bits - 8;
      }
    }
    NothingLeft(Low(value, bits), bits, all[|clean|..]);
  }

  lemma NothingRead(all: seq<Quintet>)
    ensures Low(0, 0) == 0 && all[0..] == all
    ensures [] + Decoded(all[0..], Low(0, 0), 0) == Decoded(all, 0, 0)
  {}

  lemma NothingLeft(q: nat, d: nat, rest: seq<Quintet>)
    requires rest == [] && d < 8 && q < Pow2(d)
    ensures Decoded(rest, q, d) == []
  {}

  // ---- Main results ----------------------------------------------------------------------

  lemma {:induction false} SymbolsStay(quintets: seq<Quintet>)
    ensures Cleaned(Symbols(quintets)) == Symbols(quintets)
  {
    if quintets != [] {
      var before, last := quintets[..|quintets| - 1], quintets[|quintets| - 1];
      SymbolsStay(before);
      AlphabetIs(last);
      LettersAreUpper(last);
      LastSymbol(quintets);
      hide Symbols, IsSymbol, Kept;
    }
  }

  lemma LastSymbol(quintets: seq<Quintet>)
    requires quintets != []
    ensures var text := Symbols(quintets);
            |text| == |quintets| && text[..|text| - 1] == Symbols(quintets[..|quintets| - 1])
            && text[|text| - 1] == ALPHABET[quintets[|quintets| - 1]]
            && text == Symbols(quintets[..|quintets| - 1]) + [ALPHABET[quintets[|quintets| - 1]]]
  {}

  lemma LettersAreUpper(q: Quintet)
    ensures Kept(ALPHABET[q]) == [ALPHABET[q]]
  {
    AlphabetIs(q);
  }

  /** Decoding what was encoded gives back every byte string, of any length. */
  lemma RoundTrip(bytes: seq<Byte>)
    ensures DecodedText(EncodedText(bytes)) == bytes
  {
    var quintets := Encoded(bytes, 0, 0);
    SymbolsStay(quintets);
    CleanedIsSymbols(Symbols(quintets));
    forall i | 0 <= i < |quintets| ensures IndexOf(Symbols(quintets)[i]) == quintets[i] { AlphabetIs(quintets[i]); }
    assert Quintets(Symbols(quintets)) == quintets;
    Behind0(bytes);
  }

  /** The same text to a reader: what leaves no symbol put in or taken out anywhere, and characters for others that leave the same. */
  ghost predicate SameToReader(a: string, b: string)
    decreases |a| + |b|
  {
    || (a == [] && b == [])
    || (a != [] && Kept(a[|a| - 1]) == [] && SameToReader(a[..|a| - 1], b))
    || (b != [] && Kept(b[|b| - 1]) == [] && SameToReader(a, b[..|b| - 1]))
    || (a != [] && b != [] && Kept(a[|a| - 1]) == Kept(b[|b| - 1]) && SameToReader(a[..|a| - 1], b[..|b| - 1]))
  }

  lemma {:induction false} SameToReaderCleans(a: string, b: string)
    requires SameToReader(a, b)
    ensures Cleaned(a) == Cleaned(b)
    decreases |a| + |b|
  {
    hide Kept;
    if a != [] && Kept(a[|a| - 1]) == [] && SameToReader(a[..|a| - 1], b) {
      SameToReaderCleans(a[..|a| - 1], b);
    } else if b != [] && Kept(b[|b| - 1]) == [] && SameToReader(a, b[..|b| - 1]) {
      SameToReaderCleans(a, b[..|b| - 1]);
    } else if a != [] && b != [] {
      SameToReaderCleans(a[..|a| - 1], b[..|b| - 1]);
    }
  }

  /** However the encoding is grouped, spaced or lowered in case, it decodes to the same bytes. */
  lemma DecorationIgnored(bytes: seq<Byte>, text: string)
    requires SameToReader(EncodedText(bytes), text)
    ensures DecodedText(text) == bytes
  {
    SameToReaderCleans(EncodedText(bytes), text);
    RoundTrip(bytes);
  }
}
