/** Network byte order for the signed integers that `Buffer` appends, prepends and reads. */
module BigEndian {
  import opened Bytes

  function Pow256(width: nat): (p: int)
    ensures p > 0
  {
    if width == 0 then 1 else 256 * Pow256(width - 1)
  }

  predicate InRange(width: nat, x: int) {
    -Pow256(width) <= 2 * x < Pow256(width)
  }

  /** The `width` octets of `v`, most significant first. */
  function EncodeNat(width: nat, v: nat): (b: bytes)
    ensures |b| == width
  {
    if width == 0 then [] else EncodeNat(width - 1, v / 256) + [(v % 256) as char]
  }

  function DecodeNat(b: bytes): (v: nat)
    ensures v < Pow256(|b|)
  {
    if b == [] then 0 else 256 * DecodeNat(b[..|b| - 1]) + b[|b| - 1] as int
  }

  /** Two's complement on `width` octets, then big endian (`htobe16`, `htobe32`, `htobe64`). */
  function Encode(width: nat, x: int): (b: bytes)
    requires InRange(width, x)
    ensures |b| == width
  {
    EncodeNat(width, if x < 0 then x + Pow256(width) else x)
  }

  function Decode(b: bytes): (x: int)
    ensures |b| > 0 ==> InRange(|b|, x)
  {
    var v := DecodeNat(b);
    if 2 * v < Pow256(|b|) then v else v - Pow256(|b|)
  }

  lemma {:induction false} DecodeEncodeNat(width: nat, v: nat)
    requires v < Pow256(width)
    ensures DecodeNat(EncodeNat(width, v)) == v
  {
    if width > 0 {
      DecodeEncodeNat(width - 1, v / 256);
      var b := EncodeNat(width, v);
      assert b[..|b| - 1] == EncodeNat(width - 1, v / 256);
    }
  }

  lemma {:induction false} EncodeDecodeNat(b: bytes)
    ensures EncodeNat(|b|, DecodeNat(b)) == b
  {
    if b != [] {
      EncodeDecodeNat(b[..|b| - 1]);
      var v := DecodeNat(b);
      assert v / 256 == DecodeNat(b[..|b| - 1]) && v % 256 == b[|b| - 1] as int;
    }
  }

  /** Network order: the octets that come first are the more significant ones. */
  lemma {:induction false} MostSignificantFirst(a: bytes, b: bytes)
    ensures DecodeNat(a + b) == DecodeNat(a) * Pow256(|b|) + DecodeNat(b)
    decreases |b|
  {
    if b == [] {
      NothingMore(a);
    } else {
      var front, last := b[..|b| - 1], b[|b| - 1] as int;
      MostSignificantFirst(a, front);
      assert (a + b)[..|a + b| - 1] == a + front;
      assert Pow256(|b|) == 256 * Pow256(|front|);
      Carry(DecodeNat(a), Pow256(|front|), DecodeNat(front), last);
    }
  }

  lemma Carry(x: int, p: int, y: int, last: int)
    ensures 256 * (x * p + y) + last == x * (256 * p) + (256 * y + last)
  {
  }

  /** Dividing twice is dividing by the product. */
  lemma DivDiv(v: nat, p: nat)
    requires p > 0
    ensures (v / 256) / p == v / (256 * p)
  {
    var q := v / 256 / p;
    var low := v - q * (256 * p);
    assert v / 256 == q * p + v / 256 % p;
    assert q * (256 * p) == 256 * (q * p);
    assert 0 <= low < 256 * p;
    QuotientIs(v, 256 * p, q, low);
  }

  lemma Multiples(d: int, a: int, b: int)
    requires d > 0
    ensures a > b ==> d * a >= d * b + d
  {
    if a > b {
      var t := a - b - 1;
      assert d * t >= 0;
      assert d * (b + 1 + t) == d * b + d + d * t;
    }
  }

  lemma QuotientIs(v: int, d: int, q: int, r: int)
    requires 0 <= r < d && v == q * d + r
    ensures v / d == q && v % d == r
  {
    var k := v / d;
    assert v == d * k + v % d;
    Multiples(d, k, q);
    Multiples(d, q, k);
  }

  lemma {:induction false} NatOctet(width: nat, v: nat, i: nat)
    requires i < width
    ensures EncodeNat(width, v)[i] as int == v / Pow256(width - 1 - i) % 256
    decreases width
  {
    if i < width - 1 {
      NatOctet(width - 1, v / 256, i);
      DivDiv(v, Pow256(width - 2 - i));
    }
  }

  /** The octets on the wire: octet `i` of an integer is the `i`-th digit to the base 256, counted
      from the most significant, of its value modulo 256^width; for both signs. */
  lemma OctetOnWire(width: nat, x: int, i: nat)
    requires InRange(width, x) && i < width
    ensures Encode(width, x)[i] as int == x % Pow256(width) / Pow256(width - 1 - i) % 256
  {
    var p := Pow256(width);
    if x < 0 {
      QuotientIs(x, p, -1, x + p);
    } else {
      QuotientIs(x, p, 0, x);
    }
    NatOctet(width, if x < 0 then x + p else x, i);
  }

  /** One octet counts as itself; with `MostSignificantFirst` this is the value of any. */
  lemma OneOctet(b: byte)
    ensures DecodeNat([b]) == b as int
  {
    assert [b][..0] == [];
  }

  /** The four widths hold 8, 16, 32 and 64 bits. */
  lemma WidthsInBits()
    ensures Pow256(1) == 0x100 && Pow256(2) == 0x1_0000 && Pow256(4) == 0x1_0000_0000
    ensures Pow256(8) == 0x1_0000_0000_0000_0000
  {
    assert Pow256(3) == 256 * Pow256(2) && Pow256(5) == 256 * Pow256(4);
    assert Pow256(6) == 256 * Pow256(5) && Pow256(7) == 256 * Pow256(6);
  }

  /** Two's complement: what is read is the unsigned value, less 256^width if the first octet has
      its top bit set. */
  lemma SignBit(b: bytes)
    requires b != []
    ensures Decode(b) == DecodeNat(b) - if b[0] as int >= 128 then Pow256(|b|) else 0
  {
    var p := Pow256(|b| - 1);
    assert b == [b[0]] + b[1..];
    MostSignificantFirst([b[0]], b[1..]);
    OneOctet(b[0]);
    assert Pow256(|b|) == 256 * p;
    HighHalf(b[0] as int, p, DecodeNat(b[1..]));
    hide DecodeNat, Pow256;
  }

  lemma HighHalf(high: int, p: int, low: int)
    requires 0 <= low < p
    ensures 2 * (high * p + low) < 256 * p <==> high < 128
  {
    if high < 128 {
      assert high * p <= 127 * p;
    } else {
      assert high * p >= 128 * p;
    }
  }

  /** One and minus two, as they are sent and received. */
  lemma Examples()
    ensures Encode(4, 1) == [0 as char, 0 as char, 0 as char, 1 as char]
    ensures Encode(2, -2) == [255 as char, 254 as char]
    ensures Decode([0 as char, 0 as char, 0 as char, 5 as char]) == 5 && Decode([255 as char, 254 as char]) == -2
  {
    WidthsInBits();
    assert Pow256(0) == 1 && Pow256(3) == 0x100_0000;
    forall i | 0 <= i < 4 ensures Encode(4, 1)[i] as int == if i == 3 then 1 else 0 {
      OctetOnWire(4, 1, i);
    }
    OctetOnWire(2, -2, 0);
    OctetOnWire(2, -2, 1);
    RoundTrip(2, -2);
    FiveRead();
  }

  lemma FiveRead()
    ensures Decode([0 as char, 0 as char, 0 as char, 5 as char]) == 5
  {
    WidthsInBits();
    var a: bytes, b: bytes := [0 as char, 0 as char, 0 as char], [5 as char];
    var c: bytes, d: bytes := [0 as char, 0 as char], [0 as char];
    assert a == c + d && c == d + d;
    MostSignificantFirst(d, d);
    MostSignificantFirst(c, d);
    MostSignificantFirst(a, b);
    OneOctet(0 as char);
    OneOctet(5 as char);
    assert a + b == [0 as char, 0 as char, 0 as char, 5 as char];
  }

  /** Encoding and decoding are inverse in both directions. */
  lemma RoundTrip(width: nat, x: int)
    requires width > 0 && InRange(width, x)
    ensures Decode(Encode(width, x)) == x
  {
    DecodeEncodeNat(width, if x < 0 then x + Pow256(width) else x);
  }

  lemma RoundTripBytes(b: bytes)
    requires |b| > 0
    ensures Encode(|b|, Decode(b)) == b
  {
    EncodeDecodeNat(b);
  }

  /** `sizeof` of the four integer types. */
  predicate IntWidth(width: nat) {
    width in {1, 2, 4, 8}
  }

  datatype Item = Item(width: nat, value: int)

  predicate ValidItems(items: seq<Item>) {
    forall i :: i in items ==> IntWidth(i.width) && InRange(i.width, i.value)
  }

  function EncodeAll(items: seq<Item>): bytes
    requires ValidItems(items)
  {
    if items == [] then []
    else assert items[0] in items; Encode(items[0].width, items[0].value) + EncodeAll(items[1..])
  }

  /** Reading one integer per element of `items`, of its width, from the front of `b`; and what is left. */
  function ReadAll(items: seq<Item>, b: bytes): (seq<int>, bytes) {
    if items == [] || |b| < items[0].width then ([], b)
    else
      var width := items[0].width;
      var r := ReadAll(items[1..], b[width..]);
      ([Decode(b[..width])] + r.0, r.1)
  }

  function Values(items: seq<Item>): seq<int> {
    if items == [] then [] else [items[0].value] + Values(items[1..])
  }

  lemma ReadOne(first: Item, rest: bytes)
    requires IntWidth(first.width) && InRange(first.width, first.value)
    ensures var b := Encode(first.width, first.value) + rest;
            Decode(b[..first.width]) == first.value && b[first.width..] == rest
  {
    RoundTrip(first.width, first.value);
    var b := Encode(first.width, first.value) + rest;
    assert b[..first.width] == Encode(first.width, first.value);
  }

  /** Integers of any mix of widths come back in order, and nothing after them is touched. */
  lemma {:induction false} MixedRoundTrip(items: seq<Item>, tail: bytes)
    requires ValidItems(items)
    ensures ReadAll(items, EncodeAll(items) + tail) == (Values(items), tail)
  {
    if items == [] {
      assert EncodeAll(items) + tail == tail;
    } else {
      assert items[0] in items;
      var later := EncodeAll(items[1..]) + tail;
      ReadOne(items[0], later);
      MixedRoundTrip(items[1..], tail);
      assert EncodeAll(items) + tail == Encode(items[0].width, items[0].value) + later;
    }
  }
}
