/**
 * The stored form of a thread's vector sum: an odd mantissa in two's complement and a
 * power of two for each component, with varints for the lengths.
 */
module VectorSums {
  import opened Wrappers

  newtype byte = x: int | 0 <= x < 256
  type Bytes = seq<byte>

  // ----- powers and bits ------------------------------------------------------------------------

  function Pow(base: nat, n: nat): (r: nat)
    requires base > 0
    ensures r > 0
  {
    if n == 0 then 1 else base * Pow(base, n - 1)
  }

  lemma {:induction false} PowAdd(base: nat, a: nat, b: nat)
    requires base > 0
    ensures Pow(base, a + b) == Pow(base, a) * Pow(base, b)
  {
    if a > 0 {
      PowAdd(base, a - 1, b);
      var p, q := Pow(base, a - 1), Pow(base, b);
      assert base * (p * q) == base * p * q;
    }
  }

  lemma {:induction false} Pow256(n: nat)
    ensures Pow(256, n) == Pow(2, 8 * n)
  {
    if n > 0 {
      Pow256(n - 1);
      PowAdd(2, 8, 8 * (n - 1));
      assert Pow(2, 8) == 256 by { assert Pow(2, 4) == 16; PowAdd(2, 4, 4); }
    }
  }

  lemma {:induction false} PowGrows(base: nat, a: nat, b: nat)
    requires base > 0 && a <= b
    ensures Pow(base, a) <= Pow(base, b)
  {
    if a < b {
      PowGrows(base, a, b - 1);
    }
  }

  /** The number of times two divides a number: `(v & -v).bit_length() - 1`. */
  function TrailingZeros(v: int): nat
    requires v != 0
    decreases if v < 0 then -v else v
  {
    if v % 2 != 0 then 0 else 1 + TrailingZeros(v / 2)
  }

  function Odd(v: int): int
    requires v != 0
    decreases if v < 0 then -v else v
  {
    if v % 2 != 0 then v else Odd(v / 2)
  }

  lemma {:induction false} OddTimesPower(v: int)
    requires v != 0
    ensures Odd(v) * Pow(2, TrailingZeros(v)) == v && Odd(v) % 2 != 0
    decreases if v < 0 then -v else v
  {
    if v % 2 == 0 {
      OddTimesPower(v / 2);
      var m, p := Odd(v / 2), Pow(2, TrailingZeros(v / 2));
      assert m * (2 * p) == 2 * (m * p);
    }
  }

  /** `bit_length`. */
  function BitLength(v: nat): nat {
    if v == 0 then 0 else 1 + BitLength(v / 2)
  }

  lemma {:induction false} BitLengthBounds(v: nat)
    ensures v < Pow(2, BitLength(v))
  {
    if v > 0 {
      BitLengthBounds(v / 2);
    }
  }

  // ----- signed big-endian bytes -----------------------------------------------------------------

  function UnsignedBytes(u: nat, n: nat): (r: Bytes)
    ensures |r| == n
  {
    if n == 0 then [] else UnsignedBytes(u / 256, n - 1) + [(u % 256) as byte]
  }

  function Unsigned(s: Bytes): nat {
    if s == [] then 0 else Unsigned(s[..|s|-1]) * 256 + s[|s|-1] as nat
  }

  lemma {:induction false} UnsignedRoundTrip(u: nat, n: nat)
    requires u < Pow(256, n)
    ensures Unsigned(UnsignedBytes(u, n)) == u
  {
    if n > 0 {
      UnsignedRoundTrip(u / 256, n - 1);
      assert UnsignedBytes(u, n)[..n-1] == UnsignedBytes(u / 256, n - 1);
    }
  }

  /** `to_bytes(n, "big", signed=True)`, in two's complement. */
  function SignedBytes(m: int, n: nat): (r: Bytes)
    requires -(Pow(256, n) as int) <= m < Pow(256, n)
    ensures |r| == n
  {
    UnsignedBytes(if m >= 0 then m else m + Pow(256, n), n)
  }

  /** `from_bytes(..., "big", signed=True)`. */
  function Signed(s: Bytes): int {
    var u, all := Unsigned(s), Pow(256, |s|);
    if s != [] && 2 * u >= all then u - all else u
  }

  lemma SignedRoundTrip(m: int, n: nat)
    requires n > 0 && -(Pow(256, n) as int) <= 2 * m < Pow(256, n)
    ensures Signed(SignedBytes(m, n)) == m
  {
    UnsignedRoundTrip(if m >= 0 then m else m + Pow(256, n), n);
  }

  /** The width `encode` gives a mantissa is enough for it and its sign. */
  function Width(m: int): nat {
    (BitLength(if m < 0 then -m else m) + 8) / 8
  }

  lemma WidthFits(m: int)
    ensures Width(m) > 0 && -(Pow(256, Width(m)) as int) <= 2 * m < Pow(256, Width(m))
  {
    var v: nat := if m < 0 then -m else m;
    var n := Width(m);
    BitLengthBounds(v);
    Pow256(n);
    PowGrows(2, BitLength(v) + 1, 8 * n);
  }

  // ----- varints --------------------------------------------------------------------------------------

  /** `_put_varint`. */
  function Varint(v: nat): (r: Bytes)
    ensures |r| > 0
  {
    if v >= 0x80 then [(v % 0x80 + 0x80) as byte] + Varint(v / 0x80) else [v as byte]
  }

  /** A number read at `i`, and where it ends; `None` when the bytes run out. */
  function ReadVarint(blob: Bytes, i: nat): (r: Option<(nat, nat)>)
    ensures r.Some? ==> i < r.value.1 <= |blob|
    decreases |blob| - i
  {
    if i >= |blob| then None
    else if blob[i] < 0x80 then Some((blob[i] as nat, i + 1))
    else
      var rest := ReadVarint(blob, i + 1);
      if rest.None? then None else Some((blob[i] as nat - 0x80 + 0x80 * rest.value.0, rest.value.1))
  }

  lemma {:induction false} VarintRoundTrip(v: nat, before: Bytes, after: Bytes)
    ensures ReadVarint(before + Varint(v) + after, |before|) == Some((v, |before| + |Varint(v)|))
  {
    var blob := before + Varint(v) + after;
    assert blob[|before|] == Varint(v)[0];
    if v >= 0x80 {
      VarintRoundTrip(v / 0x80, before + [Varint(v)[0]], after);
      assert blob == before + [Varint(v)[0]] + Varint(v / 0x80) + after;
    }
  }

  /** `k | digits << shift`, for digits above all those of `k`. */
  function Place(k: nat, weight: nat, digits: nat): nat {
    k + weight * digits
  }

  /** A number whose low bits `k` were read already, below `weight`. */
  function Above(r: Option<(nat, nat)>, k: nat, weight: nat): Option<(nat, nat)> {
    if r.None? then None else Some((Place(k, weight, r.value.0), r.value.1))
  }

  lemma AboveMore(blob: Bytes, i: nat, k: nat, weight: nat)
    ensures Above(ReadVarint(blob, i), 0, 1) == ReadVarint(blob, i)
    ensures i >= |blob| ==> Above(ReadVarint(blob, i), k, weight) == None
    ensures i < |blob| && blob[i] < 0x80 ==>
        Above(ReadVarint(blob, i), k, weight) == Some((Place(k, weight, blob[i] as nat), i + 1))
    ensures i < |blob| && blob[i] >= 0x80 ==>
              Above(ReadVarint(blob, i), k, weight)
                  == Above(ReadVarint(blob, i + 1), Place(k, weight, blob[i] as nat - 0x80), weight * 0x80)
  {
    if i < |blob| && blob[i] >= 0x80 {
      var rest := ReadVarint(blob, i + 1);
      if rest.Some? {
        Distribute(k, weight, blob[i] as nat - 0x80, rest.value.0);
      }
    }
  }

  lemma Distribute(k: nat, weight: nat, low: nat, rest: nat)
    ensures Place(k, weight, low + 0x80 * rest) == Place(Place(k, weight, low), weight * 0x80, rest)
  {
  }

  /** The loop that reads a varint. */
  method GetVarint(blob: Bytes, start: nat) returns (r: Option<(nat, nat)>)
    ensures r == ReadVarint(blob, start)
  {
    hide Above, Place, ReadVarint;
    var i, k: nat, weight: nat := start, 0, 1;
    AboveMore(blob, start, 0, 1);
    while i < |blob|
      invariant ReadVarint(blob, start) == Above(ReadVarint(blob, i), k, weight)
      decreases |blob| - i
    {
      AboveMore(blob, i, k, weight);
      if blob[i] < 0x80 {
        return Some((Place(k, weight, blob[i] as nat), i + 1));
      }
      k, weight := Place(k, weight, blob[i] as nat - 0x80), weight * 0x80;
      i := i + 1;
    }
    AboveMore(blob, i, k, weight);
    r := None;
  }

  // ----- sums ------------------------------------------------------------------------------------------

  function EncodeOne(v: int): Bytes {
    if v == 0 then [0, 0]
    else
      WidthFits(Odd(v));
      Varint(TrailingZeros(v)) + Varint(Width(Odd(v))) + SignedBytes(Odd(v), Width(Odd(v)))
  }

  function EncodeAll(total: seq<int>): Bytes {
    if total == [] then [] else EncodeOne(total[0]) + EncodeAll(total[1..])
  }

  predicate AllZero(total: seq<int>) {
    forall i | 0 <= i < |total| :: total[i] == 0
  }

  /** `encode`: a sum of zeros is the empty blob. */
  method Encode(total: seq<int>) returns (blob: Bytes)
    ensures blob == Encoded(total)
  {
    hide EncodeOne, EncodeAll;
    blob := [];
    if AllZero(total) {
      return;
    }
    assert EncodeAll([]) == [] by { EncodeMore([], 0); }
    for i := 0 to |total|
      invariant blob == EncodeAll(total[..i])
    {
      EncodeMore(total[..i], total[i]);
      assert total[..i+1] == total[..i] + [total[i]];
      blob := blob + EncodeOne(total[i]);
    }
    assert total[..|total|] == total;
  }

  lemma {:induction false} EncodeMore(total: seq<int>, v: int)
    ensures EncodeAll([]) == []
    ensures EncodeAll(total + [v]) == EncodeAll(total) + EncodeOne(v)
  {
    hide EncodeOne;
    if total == [] {
      assert [v][1..] == [];
    } else {
      EncodeMore(total[1..], v);
      assert (total + [v])[1..] == total[1..] + [v];
    }
  }

  function Encoded(total: seq<int>): Bytes {
    if AllZero(total) then [] else EncodeAll(total)
  }

  /** One component read at `i`, and where it ends. */
  function ReadOne(blob: Bytes, i: nat): (r: Option<(int, nat)>)
    ensures r.Some? ==> i < r.value.1 <= |blob|
  {
    var k := ReadVarint(blob, i);
    if k.None? then None
    else
      var n := ReadVarint(blob, k.value.1);
      if n.None? || n.value.1 + n.value.0 > |blob| then None
      else Some((Signed(blob[n.value.1..n.value.1 + n.value.0]) * Pow(2, k.value.0), n.value.1 + n.value.0))
  }

  function ReadAll(blob: Bytes, i: nat): Option<seq<int>>
    requires i <= |blob|
    decreases |blob| - i
  {
    if i == |blob| then Some([])
    else
      var one := ReadOne(blob, i);
      if one.None? then None
      else
        var rest := ReadAll(blob, one.value.1);
        if rest.None? then None else Some([one.value.0] + rest.value)
  }

  /** What a blob stands for, for sums of `dim` components. */
  function Decoded(blob: Bytes, dim: nat): Option<seq<int>> {
    if blob == [] then Some(seq(dim, _ => 0))
    else
      var all := ReadAll(blob, 0);
      if all.Some? && |all.value| == dim then all else None
  }

  /** `decode`: `None` for its `ValueError`. */
  method Decode(blob: Bytes, dim: nat) returns (r: Option<seq<int>>)
    ensures r == Decoded(blob, dim)
  {
    if blob == [] {
      return Some(seq(dim, _ => 0));
    }
    hide ReadOne;
    var total: seq<int> := [];
    var i := 0;
    NothingBefore(blob);
    while i < |blob|
      invariant i <= |blob|
      invariant ReadAll(blob, 0) == match ReadAll(blob, i) case None => None case Some(rest) => Some(total + rest)
      decreases |blob| - i
    {
      var one := DecodeOne(blob, i);
      if one.None? {
        return None;
      }
      ghost var rest := ReadAll(blob, one.value.1);
      assert rest.Some? ==> total + ([one.value.0] + rest.value) == total + [one.value.0] + rest.value;
      total := total + [one.value.0];
      i := one.value.1;
    }
    assert total + [] == total;
    r := if |total| == dim then Some(total) else None;
  }

  /** One component: its two varints and its mantissa. */
  method DecodeOne(blob: Bytes, i: nat) returns (r: Option<(int, nat)>)
    ensures r == ReadOne(blob, i)
  {
    hide ReadVarint, Signed, Pow;
    var k := GetVarint(blob, i);
    if k.None? {
      return None;
    }
    var n := GetVarint(blob, k.value.1);
    if n.None? || n.value.1 + n.value.0 > |blob| {
      return None;
    }
    var end := n.value.1 + n.value.0;
    r := Some((Signed(blob[n.value.1..end]) * Pow(2, k.value.0), end));
  }

  lemma NothingBefore(blob: Bytes)
    ensures ReadAll(blob, 0) == match ReadAll(blob, 0) case None => None case Some(rest) => Some([] + rest)
  {
    if ReadAll(blob, 0).Some? {
      assert [] + ReadAll(blob, 0).value == ReadAll(blob, 0).value;
    }
  }

  lemma ReadOneIs(blob: Bytes, i: nat, k: nat, afterK: nat, n: nat, afterN: nat)
    requires ReadVarint(blob, i) == Some((k, afterK)) && ReadVarint(blob, afterK) == Some((n, afterN))
    requires afterN + n <= |blob|
    ensures ReadOne(blob, i) == Some((Signed(blob[afterN..afterN + n]) * Pow(2, k), afterN + n))
  {
  }

  lemma OneRoundTrip(v: int, before: Bytes, after: Bytes)
    ensures ReadOne(before + EncodeOne(v) + after, |before|) == Some((v, |before| + |EncodeOne(v)|))
  {
    hide ReadOne, ReadVarint, Varint, SignedBytes, Signed, Pow;
    if v == 0 {
      PartsRoundTrip(0, 0, [], before, after);
      SmallVarint();
      assert [0] + [0] + [] == EncodeOne(0);
      NoBytes();
    } else {
      var k, m := TrailingZeros(v), Odd(v);
      WidthFits(m);
      OddTimesPower(v);
      SignedRoundTrip(m, Width(m));
      PartsRoundTrip(k, Width(m), SignedBytes(m, Width(m)), before, after);
    }
  }

  lemma SmallVarint()
    ensures Varint(0) == [0]
  {
  }

  lemma NoBytes()
    ensures Signed([]) * Pow(2, 0) == 0
  {
  }

  lemma PartsRoundTrip(k: nat, n: nat, three: Bytes, before: Bytes, after: Bytes)
    requires |three| == n
    ensures var all := Varint(k) + Varint(n) + three;
            ReadOne(before + all + after, |before|) == Some((Signed(three) * Pow(2, k), |before| + |all|))
  {
    hide ReadOne, ReadVarint, Varint, Signed, Pow;
    var one, two := Varint(k), Varint(n);
    var blob := before + (one + two + three) + after;
    VarintRoundTrip(k, before, two + three + after);
    assert blob == before + one + (two + three + after);
    VarintRoundTrip(n, before + one, three + after);
    assert blob == before + one + two + (three + after);
    var at := |before| + |one| + |two|;
    assert blob[at..at + n] == three;
    ReadOneIs(blob, |before|, k, |before| + |one|, n, at);
  }

  lemma {:induction false} AllRoundTrip(total: seq<int>, before: Bytes)
    ensures ReadAll(before + EncodeAll(total), |before|) == Some(total)
  {
    hide ReadOne, EncodeOne;
    if total == [] {
      assert before + [] == before;
    } else {
      var one, rest := EncodeOne(total[0]), EncodeAll(total[1..]);
      assert before + EncodeAll(total) == before + one + rest == (before + one) + rest;
      OneRoundTrip(total[0], before, rest);
      AllRoundTrip(total[1..], before + one);
      assert total == [total[0]] + total[1..];
    }
  }

  lemma EncodeAllNotEmpty(total: seq<int>)
    requires total != []
    ensures EncodeAll(total) != []
  {
  }

  /** Decoding the encoding of a sum gives it back, whatever its components. */
  lemma SumRoundTrip(total: seq<int>)
    ensures Decoded(Encoded(total), |total|) == Some(total)
  {
    if AllZero(total) {
      assert seq(|total|, _ => 0) == total;
    } else {
      EncodeAllNotEmpty(total);
      AllRoundTrip(total, []);
      assert [] + EncodeAll(total) == EncodeAll(total);
    }
  }

  /** Two sums of one dimension are equal exactly when their blobs are: what a check of stored sums compares. */
  lemma EncodingIsExact(a: seq<int>, b: seq<int>)
    requires |a| == |b|
    ensures Encoded(a) == Encoded(b) <==> a == b
  {
    SumRoundTrip(a);
    SumRoundTrip(b);
  }
}
