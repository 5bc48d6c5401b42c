/** Numbers written in bytes: little-endian and big-endian, and the byte-wise ordering of arrays. */
module ByteNumbers {
  import opened Basics

  function Pow256(n: nat): (p: nat)
    ensures p > 0
  {
    if n == 0 then 1 else 0x100 * Pow256(n - 1)
  }

  lemma SmallPowers()
    ensures Pow256(0) == 1 && Pow256(1) == 0x100 && Pow256(2) == 0x1_0000 && Pow256(3) == 0x100_0000
  {
  }

  lemma MachineWidths()
    ensures Pow256(4) == 0x1_0000_0000 && Pow256(8) == 0x1_0000_0000_0000_0000
  {
    assert Pow256(2) == 0x1_0000;
    assert Pow256(6) == 0x1_0000_0000_0000;
  }

  lemma Distribute(a: int, b: int, c: int)
    ensures (a + b) * c == a * c + b * c
    ensures a * b * c == a * (b * c)
  {
  }

  lemma ScaledMonotone(a: int, b: int, p: nat)
    requires p > 0
    ensures a < b ==> a * p < b * p && a * p + p <= b * p
    ensures a <= b ==> a * p <= b * p
  {
    Distribute(b - a - 1, 1, p);
    Distribute(a, b - a, p);
    assert a < b ==> (b - a - 1) * p >= 0;
  }

  lemma FloorDivision(a: nat, b: nat)
    requires b > 0
    ensures 0 <= a / b <= a
  {
    var q, r := a / b, a % b;
    assert a == q * b + r;
    ScaledMonotone(q, 0, b);
    if q > a {
      ScaledMonotone(a, q, b);
      ScaledMonotone(1, b, a + 1);
    }
  }

  lemma {:induction false} Pow256Adds(m: nat, n: nat)
    ensures Pow256(m + n) == Pow256(m) * Pow256(n)
  {
    if m > 0 {
      Pow256Adds(m - 1, n);
      Distribute(0x100, Pow256(m - 1), Pow256(n));
    }
  }

  lemma {:induction false} Pow256Grows(m: nat, n: nat)
    requires m <= n
    ensures Pow256(m) <= Pow256(n)
    decreases n
  {
    if m < n { Pow256Grows(m, n - 1); }
  }

  // ---------------------------------------------------------------- little-endian

  function Le(value: nat, width: nat): (bytes: Bytes)
    ensures |bytes| == width
  {
    if width == 0 then [] else [value % 0x100] + Le(value / 0x100, width - 1)
  }

  function LeValue(bytes: Bytes): (value: nat)
    ensures value < Pow256(|bytes|)
  {
    if bytes == [] then 0 else bytes[0] as int + 0x100 * LeValue(bytes[1..])
  }

  lemma {:induction false} LeValueOfLe(value: nat, width: nat)
    requires value < Pow256(width)
    ensures LeValue(Le(value, width)) == value
  {
    if width > 0 { LeValueOfLe(value / 0x100, width - 1); }
  }

  lemma LastDigit(digit: U8, rest: nat)
    ensures (digit as int + 0x100 * rest) % 0x100 == digit && (digit as int + 0x100 * rest) / 0x100 == rest
  {
  }

  lemma {:induction false} LeOfLeValue(bytes: Bytes)
    ensures Le(LeValue(bytes), |bytes|) == bytes
  {
    if bytes != [] {
      var rest := LeValue(bytes[1..]);
      LeOfLeValue(bytes[1..]);
      assert LeValue(bytes) % 0x100 == bytes[0] && LeValue(bytes) / 0x100 == rest by { LastDigit(bytes[0], rest); }
    }
  }

  // ---------------------------------------------------------------- big-endian

  function BeValue(bytes: Bytes): (v: nat)
  {
    if bytes == [] then 0 else 0x100 * BeValue(bytes[..|bytes| - 1]) + bytes[|bytes| - 1] as int
  }

  lemma {:induction false} BeValueBound(bytes: Bytes)
    ensures BeValue(bytes) < Pow256(|bytes|)
  {
    if bytes != [] { BeValueBound(bytes[..|bytes| - 1]); }
  }

  /** A number in two parts: the front counts for its value times the weight of the back. */
  lemma {:induction false} BeValueConcat(a: Bytes, b: Bytes)
    ensures BeValue(a + b) == BeValue(a) * Pow256(|b|) + BeValue(b)
  {
    hide BeValue, Pow256;
    if b == [] {
      assert a + b == a;
      assert BeValue(b) == 0 && Pow256(|b|) == 1 by { BeValueLast([]); SmallPowers(); }
    } else {
      var front := b[..|b| - 1];
      BeValueConcat(a, front);
      assert (a + b)[..|a + b| - 1] == a + front;
      BeValueLast(a + b);
      BeValueLast(b);
      Pow256Step(|b|);
      Distribute(0x100, BeValue(a), Pow256(|front|));
      Distribute(BeValue(a), 0x100, Pow256(|front|));
    }
  }

  lemma BeValueLast(b: Bytes)
    ensures BeValue(b) == if b == [] then 0 else 0x100 * BeValue(b[..|b| - 1]) + b[|b| - 1] as int
  {
  }

  lemma Pow256Step(n: nat)
    ensures Pow256(n) == if n == 0 then 1 else 0x100 * Pow256(n - 1)
  {
  }

  function Be(value: nat, width: nat): (bytes: Bytes)
    ensures |bytes| == width
  {
    if width == 0 then [] else Be(value / 0x100, width - 1) + [value % 0x100]
  }

  lemma {:induction false} BeValueOfBe(value: nat, width: nat)
    requires value < Pow256(width)
    ensures BeValue(Be(value, width)) == value
  {
    if width > 0 {
      BeValueOfBe(value / 0x100, width - 1);
      assert Be(value, width)[..width - 1] == Be(value / 0x100, width - 1);
    }
  }

  lemma {:induction false} BeOfBeValue(bytes: Bytes)
    ensures Be(BeValue(bytes), |bytes|) == bytes
  {
    if bytes != [] {
      var front, last := bytes[..|bytes| - 1], bytes[|bytes| - 1];
      BeOfBeValue(front);
      assert BeValue(bytes) % 0x100 == last && BeValue(bytes) / 0x100 == BeValue(front) by {
        LastDigit(last, BeValue(front));
      }
    }
  }

  function Zeros(n: nat): (z: Bytes)
    ensures |z| == n && forall i | 0 <= i < n :: z[i] == 0
  {
    seq(n, _ => 0)
  }

  lemma {:induction false} BeValueOfZeros(n: nat)
    ensures BeValue(Zeros(n)) == 0
  {
    if n > 0 {
      BeValueOfZeros(n - 1);
      assert Zeros(n)[..n - 1] == Zeros(n - 1);
    }
  }

  // ---------------------------------------------------------------- byte-wise ordering

  /** Rust's ordering of byte arrays: the first difference decides. */
  predicate LexLess(a: Bytes, b: Bytes)
    requires |a| == |b|
  {
    a != [] && (a[0] < b[0] || (a[0] == b[0] && LexLess(a[1..], b[1..])))
  }

  predicate LexAtMost(a: Bytes, b: Bytes)
    requires |a| == |b|
  {
    !LexLess(b, a)
  }

  lemma BeValueFront(bytes: Bytes)
    requires bytes != []
    ensures BeValue(bytes) == bytes[0] as int * Pow256(|bytes| - 1) + BeValue(bytes[1..])
    ensures BeValue(bytes[1..]) < Pow256(|bytes| - 1)
  {
    hide Pow256;
    BeValueConcat(bytes[..1], bytes[1..]);
    assert bytes[..1] + bytes[1..] == bytes;
    assert bytes[..1][..0] == [];
    BeValueBound(bytes[1..]);
  }

  /** On arrays of one length, comparing bytes in order is comparing the numbers they write. */
  lemma {:induction false} LexIsNumeric(a: Bytes, b: Bytes)
    requires |a| == |b|
    ensures LexLess(a, b) <==> BeValue(a) < BeValue(b)
  {
    hide BeValue, Pow256;
    if a != [] {
      BeValueFront(a);
      BeValueFront(b);
      LexIsNumeric(a[1..], b[1..]);
      ScaledMonotone(a[0], b[0], Pow256(|a| - 1));
      ScaledMonotone(b[0], a[0], Pow256(|a| - 1));
    }
  }
}
