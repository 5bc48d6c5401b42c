/** The compact difficulty decoder of src/main.rs and the byte-wise comparison of a digest with a target. */
module CompactTarget {
  import opened Basics
  import opened ByteNumbers

  function Size(bits: U32): nat { bits / 0x100_0000 }

  function Mantissa(bits: U32): nat { bits % 0x80_0000 }

  predicate SignBit(bits: U32) { bits / 0x80_0000 % 2 == 1 }

  /** The number a compact commitment stands for: the mantissa scaled by 256^(size - 3), rounded down. */
  function CompactValue(bits: U32): nat {
    if Size(bits) >= 3 then Mantissa(bits) * Pow256(Size(bits) - 3)
    else
      var scale := Pow256(3 - Size(bits));
      FloorDivision(Mantissa(bits), scale);
      Mantissa(bits) / scale
  }

  lemma CompactBits(size: nat, negative: bool, mantissa: nat)
    requires size < 0x100 && mantissa < 0x80_0000
    ensures var bits := size * 0x100_0000 + (if negative then 0x80_0000 else 0) + mantissa;
            && bits < 0x1_0000_0000 && Size(bits) == size && Mantissa(bits) == mantissa && (SignBit(bits) <==> negative)
  {
    var bits := size * 0x100_0000 + (if negative then 0x80_0000 else 0) + mantissa;
    assert bits / 0x80_0000 == 2 * size + (if negative then 1 else 0);
  }

  /** The fields of a commitment: one byte of size, a sign bit, and 23 bits of mantissa. */
  lemma CompactFields(size: nat, negative: bool, mantissa: nat)
    requires size < 0x100 && mantissa < 0x80_0000
    ensures var bits := size * 0x100_0000 + (if negative then 0x80_0000 else 0) + mantissa;
            && bits < 0x1_0000_0000
            && (SignBit(bits) <==> negative)
            && CompactValue(bits) == if size >= 3 then mantissa * Pow256(size - 3) else mantissa / Pow256(3 - size)
  {
    CompactBits(size, negative, mantissa);
    hide Pow256, Size, Mantissa, SignBit;
  }

  /** The decoder's limit test. */
  predicate TooWide(size: nat, mantissa: nat) {
    size > 34 || (mantissa > 0xFF && size > 33) || (mantissa > 0xFFFF && size > 32)
  }

  /** The limit test refuses exactly the values that need more than 256 bits. */
  lemma TooWideExactly(bits: U32)
    requires Mantissa(bits) > 0
    ensures TooWide(Size(bits), Mantissa(bits)) <==> CompactValue(bits) >= Pow256(32)
  {
    hide Pow256;
    var size, m := Size(bits), Mantissa(bits);
    SmallPowers();
    Pow256Grows(3, 32);
    var digits := if m > 0xFFFF then 3 else if m > 0xFF then 2 else 1;
    assert Pow256(digits - 1) <= m < Pow256(digits);
    if size >= 3 {
      var k := size - 3;
      ScaledMonotone(Pow256(digits - 1), m, Pow256(k));
      ScaledMonotone(m, Pow256(digits), Pow256(k));
      Pow256Adds(digits - 1, k);
      Pow256Adds(digits, k);
      if digits + k <= 32 { Pow256Grows(digits + k, 32); } else { Pow256Grows(32, digits - 1 + k); }
    } else {
      FloorDivision(m, Pow256(3 - size));
    }
  }

  function ThreeBytes(value: nat): (bytes: Bytes)
    requires value < 0x100_0000
    ensures |bytes| == 3
  {
    [value / 0x1_0000, value / 0x100 % 0x100, value % 0x100]
  }

  lemma ThreeBytesValue(value: nat)
    requires value < 0x100_0000
    ensures BeValue(ThreeBytes(value)) == value
  {
    var b := ThreeBytes(value);
    assert b[..2][..1] == b[..1] && b[..1][..0] == [];
    assert BeValue(b[..1]) == value / 0x1_0000;
    assert BeValue(b[..2]) == 0x100 * (value / 0x1_0000) + value / 0x100 % 0x100;
  }

  /** Leading zeros add nothing; trailing zeros scale. */
  lemma PaddedValue(front: nat, middle: Bytes, back: nat)
    ensures BeValue(Zeros(front) + middle + Zeros(back)) == BeValue(middle) * Pow256(back)
  {
    hide BeValue, Pow256;
    BeValueOfZeros(front);
    BeValueOfZeros(back);
    BeValueConcat(Zeros(front), middle);
    BeValueConcat(Zeros(front) + middle, Zeros(back));
  }

  /** The bytes the decoder writes for sizes above 3: mantissa bytes that would fall off the front are zero. */
  lemma PlacedValue(target: Bytes, size: nat, m: nat)
    requires 3 < size <= 34 && 0 < m < 0x80_0000 && !TooWide(size, m) && |target| == 32
    requires forall i | 0 <= i < 32 ::
               target[i] == var offset := i + size - 32; if 0 <= offset < 3 then ThreeBytes(m)[offset] else 0
    ensures BeValue(target) == m * Pow256(size - 3)
  {
    hide BeValue, Pow256;
    var lost := if size > 32 then size - 32 else 0;
    var front := if size > 32 then 0 else 32 - size;
    var middle := ThreeBytes(m)[lost..];
    assert target == Zeros(front) + middle + Zeros(size - 3);
    PaddedValue(front, middle, size - 3);
    assert ThreeBytes(m) == Zeros(lost) + middle + Zeros(0);
    PaddedValue(lost, middle, 0);
    ThreeBytesValue(m);
    SmallPowers();
  }

  lemma ZeroMantissa(bits: U32)
    requires Mantissa(bits) == 0
    ensures CompactValue(bits) == 0 < Pow256(32)
  {
  }

  /** What a commitment means: an unsigned value of at most 256 bits, as a 32-byte big-endian number. */
  function Target(bits: U32): (target: Option<Bytes>)
    ensures target.Some? ==> |target.value| == 32
  {
    if SignBit(bits) || CompactValue(bits) >= Pow256(32) then None else Some(Be(CompactValue(bits), 32))
  }

  method TargetFromCompact(bits: U32) returns (r: Option<Bytes>)
    ensures r == Target(bits)
    ensures r.Some? ==> BeValue(r.value) == CompactValue(bits)
  {
    hide BeValue, Be, Pow256;
    var size, mantissa := bits / 0x100_0000, bits % 0x80_0000;
    if bits / 0x80_0000 % 2 != 0 {
      return None;
    }
    if mantissa == 0 {
      BeValueOfZeros(32);
      BeOfBeValue(Zeros(32));
      ZeroMantissa(bits);
      return Some(Zeros(32));
    }
    TooWideExactly(bits);
    if size > 34 || (mantissa > 0xFF && size > 33) || (mantissa > 0xFFFF && size > 32) {
      return None;
    }
    var target := new U8[32](_ => 0);
    if size <= 3 {
      var value := mantissa / Pow256(3 - size);
      FloorDivision(mantissa, Pow256(3 - size));
      target[29] := value / 0x1_0000;
      target[30] := value / 0x100 % 0x100;
      target[31] := value % 0x100;
      assert target[..] == Zeros(29) + ThreeBytes(value) + Zeros(0);
      PaddedValue(29, ThreeBytes(value), 0);
      ThreeBytesValue(value);
      SmallPowers();
    } else {
      var bytes := ThreeBytes(mantissa);
      for offset := 0 to 3
        invariant forall i | 0 <= i < 32 ::
          target[i] == var k := i + size - 32; if 0 <= k < offset then bytes[k] else 0
      {
        if 32 + offset >= size {
          var index := 32 + offset - size;
          if index < 32 { target[index] := bytes[offset]; }
        }
      }
      PlacedValue(target[..], size, mantissa);
    }
    BeOfBeValue(target[..]);
    r := Some(target[..]);
  }

  /** The seal test `digest <= target` on byte arrays accepts exactly the digests whose number is at
      most the committed value. */
  lemma SealTestIsNumeric(bits: U32, digest: Bytes)
    requires Target(bits).Some? && |digest| == 32
    ensures LexAtMost(digest, Target(bits).value) <==> BeValue(digest) <= CompactValue(bits)
  {
    hide BeValue, Be, Pow256;
    LexIsNumeric(Target(bits).value, digest);
    BeValueOfBe(CompactValue(bits), 32);
  }
}
