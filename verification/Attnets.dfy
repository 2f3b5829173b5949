/**
 * The attestation subnet bitfield: the encoder of rpc/rpc.go against the overlap test of discovery/discovery.go.
 * Subnet i is bit i % 8 of byte i / 8, the layout of Bitvector[64] in SSZ.
 */
module Attnets {
  import opened Types

  const SUBNETS := 64

  /** The k-th binary digit of a number, counted from the least significant one. */
  function Digit(n: nat, k: nat): (d: nat)
    ensures d < 2 && (n == 0 ==> d == 0)
  {
    if k == 0 then n % 2 else Digit(n / 2, k - 1)
  }

  /** Subnet `id` as the wire format has it: digit id % 8 of the number in byte id / 8. */
  predicate Bit(bytes: seq<bv8>, id: nat) {
    id / 8 < |bytes| && Digit(bytes[id / 8] as int, id % 8) == 1
  }

  function WithBit(bytes: seq<bv8>, id: nat): seq<bv8> {
    if id < SUBNETS && id / 8 < |bytes| then bytes[id / 8 := bytes[id / 8] | (1 << (id % 8))] else bytes
  }

  function Encode(ids: seq<uint64>): (bytes: seq<bv8>)
    ensures |bytes| == 8
  {
    if ids == [] then [0, 0, 0, 0, 0, 0, 0, 0] else WithBit(Encode(ids[..|ids| - 1]), ids[|ids| - 1])
  }

  /** IDs of 64 and above are ignored. */
  method MakeAttnetsBytes(ids: seq<uint64>) returns (bv: array<bv8>)
    ensures bv[..] == Encode(ids)
  {
    bv := new bv8[8](_ => 0);
    for n := 0 to |ids|
      invariant bv[..] == Encode(ids[..n])
    {
      var id := ids[n];
      assert ids[..n + 1][..n] == ids[..n];
      if id < 64 {
        bv[id / 8] := bv[id / 8] | (1 << (id % 8));
      }
    }
    assert ids[..|ids|] == ids;
  }

  ghost predicate Overlaps(bytes: seq<bv8>, ids: seq<uint64>) {
    exists id <- ids :: id < SUBNETS && Bit(bytes, id)
  }

  /** A record without the entry overlaps with nothing; a short one has no bits beyond its end. */
  method HasSubnetOverlap(attnets: Option<seq<bv8>>, ids: seq<uint64>) returns (overlap: bool)
    ensures overlap <==> attnets.Some? && Overlaps(attnets.value, ids)
  {
    if attnets.None? {
      return false;
    }
    var bytes := attnets.value;
    for n := 0 to |ids|
      invariant forall k :: 0 <= k < n ==> !(ids[k] < SUBNETS && Bit(bytes, ids[k]))
    {
      var id := ids[n];
      if id < 64 && |bytes| > id / 8 {
        MaskIsDigit(bytes[id / 8], id % 8);
        if bytes[id / 8] & (1 << (id % 8)) != 0 {
          assert Bit(bytes, id);
          return true;
        }
      }
    }
    return false;
  }

  // ---------- Bits ----------

  lemma Halves(b: bv8)
    ensures (b >> 1) as int == b as int / 2
  {}

  lemma IsOdd(b: bv8)
    ensures b & 1 != 0 <==> b as int % 2 == 1
  {}

  lemma ShiftMask(b: bv8, k: nat)
    requires 0 < k < 8
    ensures b & (1 << k) != 0 <==> (b >> 1) & (1 << (k - 1)) != 0
  {}

  /** Masking with 1 << k looks at the digit of weight 2^k. */
  lemma {:induction false} MaskIsDigit(b: bv8, k: nat)
    requires k < 8
    ensures b & (1 << k) != 0 <==> Digit(b as int, k) == 1
    decreases k
  {
    if k == 0 {
      IsOdd(b);
    } else {
      MaskIsDigit(b >> 1, k - 1);
      Halves(b);
      ShiftMask(b, k);
    }
  }

  lemma OrMask(b: bv8, k: nat, l: nat)
    requires k < 8 && l < 8
    ensures (b | (1 << k)) & (1 << l) != 0 <==> b & (1 << l) != 0 || k == l
  {}

  lemma OrDigit(b: bv8, k: nat, l: nat)
    requires k < 8 && l < 8
    ensures Digit((b | (1 << k)) as int, l) == 1 <==> Digit(b as int, l) == 1 || k == l
  {
    OrMask(b, k, l);
    MaskIsDigit(b, l);
    MaskIsDigit(b | (1 << k), l);
  }

  /** Setting one bit sets that bit and no other. */
  lemma WithBitMeaning(bytes: seq<bv8>, id: nat, other: nat)
    requires |bytes| == 8
    ensures Bit(WithBit(bytes, id), other) <==> Bit(bytes, other) || (id == other && id < SUBNETS)
  {
    if id < SUBNETS && id / 8 == other / 8 {
      OrDigit(bytes[id / 8], id % 8, other % 8);
    }
  }

  lemma {:induction false} EncodeMeaning(ids: seq<uint64>, id: nat)
    ensures Bit(Encode(ids), id) <==> id in ids && id < SUBNETS
  {
    if ids != [] {
      EncodeMeaning(ids[..|ids| - 1], id);
      WithBitMeaning(Encode(ids[..|ids| - 1]), ids[|ids| - 1], id);
    }
  }

  /** The two sides agree: overlap with an encoded list is a shared ID below 64. */
  lemma EncoderMeetsDecoder(a: seq<uint64>, b: seq<uint64>)
    ensures Overlaps(Encode(a), b) <==> exists id <- b :: id in a && id < SUBNETS
  {
    forall id: nat ensures Bit(Encode(a), id) <==> id in a && id < SUBNETS {
      EncodeMeaning(a, id);
    }
  }

  /** A byte is determined by its eight digits. */
  lemma {:induction false} ByteExtensional(a: nat, b: nat, n: nat)
    requires a < Size(n) && b < Size(n)
    requires forall k :: 0 <= k < n ==> Digit(a, k) == Digit(b, k)
    ensures a == b
    decreases n
  {
    if n > 0 {
      forall k | 0 <= k < n - 1 ensures Digit(a / 2, k) == Digit(b / 2, k) {
        assert Digit(a, k + 1) == Digit(b, k + 1);
      }
      ByteExtensional(a / 2, b / 2, n - 1);
      assert Digit(a, 0) == Digit(b, 0);
    }
  }

  /** How many numbers have at most n digits. */
  function Size(n: nat): nat {
    if n == 0 then 1 else 2 * Size(n - 1)
  }

  lemma ByteSize(b: bv8)
    ensures b as int < Size(8)
  {}

  lemma SameNumber(x: bv8, y: bv8)
    requires x as int == y as int
    ensures x == y
  {}

  lemma SameByte(x: bv8, y: bv8, m: nat, n: nat)
    requires m == x as int && n == y as int
    requires forall k :: 0 <= k < 8 ==> Digit(m, k) == Digit(n, k)
    ensures x == y
  {
    ByteSize(x);
    ByteSize(y);
    ByteExtensional(m, n, 8);
    SameNumber(x, y);
  }

  lemma EncodedDigit(ids: seq<uint64>, bytes: seq<bv8>, i: nat, k: nat)
    requires i < 8 && k < 8 && bytes == Encode(ids)
    ensures Digit(bytes[i] as int, k) == if 8 * i + k in ids then 1 else 0
  {
    assert (8 * i + k) / 8 == i && (8 * i + k) % 8 == k;
    EncodeMeaning(ids, 8 * i + k);
  }

  lemma SameIdsSameBytes(a: seq<uint64>, b: seq<uint64>)
    requires forall id: uint64 :: id < SUBNETS ==> (id in a <==> id in b)
    ensures Encode(a) == Encode(b)
  {
    var x, y := Encode(a), Encode(b);
    forall i | 0 <= i < 8 ensures x[i] == y[i] {
      var m: nat, n: nat := x[i] as int, y[i] as int;
      forall k | 0 <= k < 8 ensures Digit(m, k) == Digit(n, k) {
        EncodedDigit(a, x, i, k);
        EncodedDigit(b, y, i, k);
        var id: uint64 := 8 * i + k;
        assert id in a <==> id in b;
      }
      SameByte(x[i], y[i], m, n);
    }
  }

  /** The bytes depend on which IDs below 64 occur and on nothing else: not on order, not on repeats. */
  lemma EncodingIsASet(a: seq<uint64>, b: seq<uint64>)
    ensures Encode(a) == Encode(b) <==> forall id: uint64 :: id < SUBNETS ==> (id in a <==> id in b)
  {
    if Encode(a) == Encode(b) {
      forall id: uint64 | id < SUBNETS ensures id in a <==> id in b {
        EncodeMeaning(a, id);
        EncodeMeaning(b, id);
      }
    }
    if forall id: uint64 :: id < SUBNETS ==> (id in a <==> id in b) {
      SameIdsSameBytes(a, b);
    }
  }

  // ---------- The buffer as one number ----------

  function Doubled(m: nat, times: nat): nat {
    if times == 0 then m else 2 * Doubled(m, times - 1)
  }

  /** The little-endian number that a buffer spells: a byte weighs 2^8 times the one before it. */
  function Number(bytes: seq<bv8>): nat {
    if bytes == [] then 0 else bytes[0] as int + Doubled(Number(bytes[1..]), 8)
  }

  lemma HalveSum(n: nat, x: nat)
    ensures (n + 2 * x) / 2 == n / 2 + x && (n + 2 * x) % 2 == n % 2
  {}

  lemma {:induction false} DigitOfSum(n: nat, m: nat, width: nat, k: nat)
    requires n < Size(width)
    ensures Digit(n + Doubled(m, width), k) == if k < width then Digit(n, k) else Digit(m, k - width)
    decreases width, k
  {
    if width > 0 {
      HalveSum(n, Doubled(m, width - 1));
      if k > 0 {
        DigitOfSum(n / 2, m, width - 1, k - 1);
      }
    }
  }

  lemma BitOfTail(bytes: seq<bv8>, id: nat)
    requires bytes != []
    ensures Bit(bytes, id) <==> if id < 8 then Digit(bytes[0] as int, id) == 1 else Bit(bytes[1..], id - 8)
  {
    assert id >= 8 ==> (id - 8) / 8 == id / 8 - 1 && (id - 8) % 8 == id % 8;
  }

  lemma {:induction false} DigitOfNumber(bytes: seq<bv8>, id: nat)
    ensures Digit(Number(bytes), id) == 1 <==> Bit(bytes, id)
  {
    if bytes != [] {
      BitOfTail(bytes, id);
      ByteSize(bytes[0]);
      DigitOfSum(bytes[0] as int, Number(bytes[1..]), 8, id);
      if id >= 8 {
        DigitOfNumber(bytes[1..], id - 8);
      }
    }
  }

  /** Read as one little-endian number, the encoding has digit 1 of weight 2^id for exactly the listed IDs below 64. */
  lemma EncodedNumber(ids: seq<uint64>, id: nat)
    ensures Digit(Number(Encode(ids)), id) == 1 <==> id in ids && id < SUBNETS
  {
    DigitOfNumber(Encode(ids), id);
    EncodeMeaning(ids, id);
  }

  // ---------- Population count ----------

  /** The sum of the lowest k digits of a byte. */
  function PopByte(b: bv8, k: nat): nat
    requires k <= 8
  {
    if k == 0 then 0 else PopByte(b, k - 1) + Digit(b as int, k - 1)
  }

  function PopCount(bytes: seq<bv8>): nat {
    if bytes == [] then 0 else PopCount(bytes[..|bytes| - 1]) + PopByte(bytes[|bytes| - 1], 8)
  }

  ghost function SetBits(bytes: seq<bv8>, n: nat): set<int> {
    set id: int | 0 <= id < n && Bit(bytes, id)
  }

  lemma SetBitsStep(bytes: seq<bv8>, id: nat)
    ensures |SetBits(bytes, id + 1)| == |SetBits(bytes, id)| + if Bit(bytes, id) then 1 else 0
  {
    assert SetBits(bytes, id + 1) == SetBits(bytes, id) + if Bit(bytes, id) then {id} else {};
  }

  lemma {:induction false} CountBits(bytes: seq<bv8>, m: nat, k: nat)
    requires m < |bytes| && k <= 8
    ensures |SetBits(bytes, 8 * m + k)| == PopCount(bytes[..m]) + PopByte(bytes[m], k)
    decreases m, k
  {
    if k > 0 {
      CountBits(bytes, m, k - 1);
      var id := 8 * m + k - 1;
      assert id / 8 == m && id % 8 == k - 1;
      SetBitsStep(bytes, id);
    } else if m > 0 {
      CountBits(bytes, m - 1, 8);
      assert bytes[..m][..m - 1] == bytes[..m - 1];
    } else {
      assert SetBits(bytes, 0) == {};
    }
  }

  /** As many bits are set as there are distinct IDs below 64. */
  lemma PopCountIsDistinct(ids: seq<uint64>)
    ensures PopCount(Encode(ids)) == |set id | id in ids && id < SUBNETS|
  {
    var bytes := Encode(ids);
    CountBits(bytes, 7, 8);
    assert bytes[..8] == bytes && bytes[..8][..7] == bytes[..7];
    forall id: nat ensures Bit(bytes, id) <==> id in ids && id < SUBNETS {
      EncodeMeaning(ids, id);
    }
    assert SetBits(bytes, 64) == set id | id in ids && id < SUBNETS;
  }
}
