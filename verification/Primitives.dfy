/** Fixed-width integers, byte strings, failure types and the byte order used by every
    derived `Ord` in the repository. */
module Primitives {

  newtype u8 = x: int | 0 <= x < 0x100
  type u16 = x: int | 0 <= x < 0x1_0000
  type u32 = x: int | 0 <= x < 0x1_0000_0000
  type u64 = x: int | 0 <= x < 0x1_0000_0000_0000_0000
  type i32 = x: int | -0x8000_0000 <= x < 0x8000_0000

  const U32_MAX: u32 := 0xFFFF_FFFF
  const U64_MAX: u64 := 0xFFFF_FFFF_FFFF_FFFF
  const I64_MAX: u64 := 0x7FFF_FFFF_FFFF_FFFF

  type Bytes = seq<u8>

  datatype Option<+T> = None | Some(value: T)

  datatype Result<+T, +E> = Ok(value: T) | Err(error: E) {
    predicate IsFailure() { Err? }
    function PropagateFailure<U>(): Result<U, E> requires Err? { Err(error) }
    function Extract(): T requires Ok? { value }
  }

  /** Outcome of a guard that carries no value. */
  datatype Guard<+E> = Pass | Fail(error: E) {
    predicate IsFailure() { Fail? }
    function PropagateFailure<U>(): Result<U, E> requires Fail? { Err(error) }
  }

  function Need<E>(condition: bool, error: E): Guard<E> {
    if condition then Pass else Fail(error)
  }

  function OkOr<T, E>(o: Option<T>, error: E): Result<T, E> {
    if o.Some? then Ok(o.value) else Err(error)
  }

  // ---------- little-endian integers ----------

  function Pow256(width: nat): (r: nat)
    ensures r > 0
  {
    if width == 0 then 1 else 256 * Pow256(width - 1)
  }

  /** `to_le_bytes` of an integer stored in `width` bytes. */
  function LE(n: nat, width: nat): (r: Bytes)
    ensures |r| == width
    decreases width
  {
    if width == 0 then [] else [(n % 256) as u8] + LE(n / 256, width - 1)
  }

  /** `from_le_bytes`. */
  function FromLE(b: Bytes): nat {
    if |b| == 0 then 0 else b[0] as int + 256 * FromLE(b[1..])
  }

  lemma {:induction false} FromLEBound(b: Bytes)
    ensures FromLE(b) < Pow256(|b|)
  {
    if |b| > 0 { FromLEBound(b[1..]); }
  }

  lemma {:induction false} LERoundTrip(n: nat, width: nat)
    requires n < Pow256(width)
    ensures FromLE(LE(n, width)) == n
    decreases width
  {
    if width > 0 {
      LERoundTrip(n / 256, width - 1);
      assert LE(n, width)[1..] == LE(n / 256, width - 1);
    }
  }

  lemma {:induction false} FromLEPrinted(b: Bytes)
    ensures LE(FromLE(b), |b|) == b
    decreases |b|
  {
    if |b| > 0 {
      FromLEPrinted(b[1..]);
      var n, rest := FromLE(b), FromLE(b[1..]);
      assert n % 256 == b[0] as int && n / 256 == rest;
      assert b == [b[0]] + b[1..];
    }
  }

  /** Byte `i` of the encoding has weight 256 to the `i`: the least significant byte comes first. */
  lemma {:induction false} LEByte(n: nat, width: nat, i: nat)
    requires i < width
    ensures LE(n, width)[i] as int == n / Pow256(i) % 256
    decreases width
  {
    if i > 0 {
      LEByte(n / 256, width - 1, i - 1);
      DivDiv(n, Pow256(i - 1));
    }
  }

  lemma DivDiv(n: nat, d: nat)
    requires d > 0
    ensures n / 256 / d == n / (256 * d)
  {
    var q := n / (256 * d);
    var r := n - 256 * d * q;
    assert 0 <= r < 256 * d;
    assert n / 256 == d * q + r / 256;
    assert 0 <= r / 256 < d;
    DivUnique(d * q + r / 256, d, q, r / 256);
  }

  lemma DivUnique(n: nat, d: nat, q: nat, r: nat)
    requires r < d && n == d * q + r
    ensures n / d == q
  {
    var k := n / d;
    assert k < q ==> d * (k + 1) <= d * q;
    assert k > q ==> d * (q + 1) <= d * k;
  }

  lemma LE4Injective(a: u32, b: u32)
    requires LE(a, 4) == LE(b, 4)
    ensures a == b
  {
    assert Pow256(4) == 0x1_0000_0000;
    LERoundTrip(a, 4);
    LERoundTrip(b, 4);
  }

  lemma LE8Injective(a: u64, b: u64)
    requires LE(a, 8) == LE(b, 8)
    ensures a == b
  {
    assert Pow256(8) == 0x1_0000_0000_0000_0000;
    LERoundTrip(a, 8);
    LERoundTrip(b, 8);
  }

  lemma LE2Injective(a: u16, b: u16)
    requires LE(a, 2) == LE(b, 2)
    ensures a == b
  {
    assert Pow256(2) == 0x1_0000;
    LERoundTrip(a, 2);
    LERoundTrip(b, 2);
  }

  /** Two concatenations of equally long heads agree exactly when heads and tails agree. */
  lemma SplitConcat(a: Bytes, x: Bytes, b: Bytes, y: Bytes)
    requires |a| == |b| && a + x == b + y
    ensures a == b && x == y
  {
    assert a == (a + x)[..|a|] && b == (b + y)[..|b|];
    assert x == (a + x)[|a|..] && y == (b + y)[|b|..];
  }

  // ---------- fixed-width records ----------

  /** Successive `extend_from_slice` calls on an empty buffer. */
  function Concat(fields: seq<Bytes>): Bytes {
    if |fields| == 0 then [] else fields[0] + Concat(fields[1..])
  }

  /** Records whose fields have pairwise equal widths are determined by their bytes. */
  lemma {:induction false} ConcatInjective(fs: seq<Bytes>, gs: seq<Bytes>)
    requires |fs| == |gs| && forall i :: 0 <= i < |fs| ==> |fs[i]| == |gs[i]|
    requires Concat(fs) == Concat(gs)
    ensures fs == gs
    decreases |fs|
  {
    if |fs| > 0 {
      SplitConcat(fs[0], Concat(fs[1..]), gs[0], Concat(gs[1..]));
      ConcatInjective(fs[1..], gs[1..]);
      assert fs == [fs[0]] + fs[1..] && gs == [gs[0]] + gs[1..];
    }
  }

  /** Where field `i` of a record starts. */
  function Offset(fields: seq<Bytes>, i: nat): nat
    requires i <= |fields|
  {
    if i == 0 then 0 else |fields[0]| + Offset(fields[1..], i - 1)
  }

  lemma {:induction false} ConcatAt(fields: seq<Bytes>, i: nat)
    requires i < |fields|
    ensures var at := Offset(fields, i);
            at + |fields[i]| <= |Concat(fields)| && Concat(fields)[at..at + |fields[i]|] == fields[i]
    decreases i
  {
    if i > 0 {
      ConcatAt(fields[1..], i - 1);
      var at := Offset(fields[1..], i - 1);
      assert Concat(fields)[|fields[0]| + at..|fields[0]| + at + |fields[i]|] ==
             Concat(fields[1..])[at..at + |fields[i]|];
    }
  }

  // ---------- lexicographic byte order ----------

  predicate LexLess(a: Bytes, b: Bytes)
    decreases |a|
  {
    |b| > 0 && (|a| == 0 || a[0] < b[0] || (a[0] == b[0] && LexLess(a[1..], b[1..])))
  }

  /** After a common prefix of length `i`, `a` ends or has the smaller byte. */
  predicate FirstDiffers(a: Bytes, b: Bytes, i: nat) {
    i <= |a| && i < |b| && a[..i] == b[..i] && (i == |a| || a[i] < b[i])
  }

  /** The order of byte strings: the first differing byte decides, and a proper prefix comes first. */
  lemma {:induction false} LexLessExact(a: Bytes, b: Bytes)
    ensures LexLess(a, b) <==> exists i: nat :: FirstDiffers(a, b, i)
    decreases |a|
  {
    if |a| > 0 && |b| > 0 && a[0] == b[0] {
      LexLessExact(a[1..], b[1..]);
      if i: nat :| FirstDiffers(a[1..], b[1..], i) {
        assert a[..i + 1] == [a[0]] + a[1..][..i] && b[..i + 1] == [b[0]] + b[1..][..i];
        assert FirstDiffers(a, b, i + 1);
      }
      if i: nat :| FirstDiffers(a, b, i) {
        assert i > 0;
        assert a[1..][..i - 1] == a[..i][1..] && b[1..][..i - 1] == b[..i][1..];
        assert FirstDiffers(a[1..], b[1..], i - 1);
      }
    } else if |b| > 0 && (|a| == 0 || a[0] < b[0]) {
      assert FirstDiffers(a, b, 0);
    } else {
      forall i: nat ensures !FirstDiffers(a, b, i) {
        if i > 0 && i <= |a| && i < |b| { assert a[..i][0] == a[0] && b[..i][0] == b[0]; }
      }
    }
  }

  lemma {:induction false} LexIrreflexive(a: Bytes)
    ensures !LexLess(a, a)
    decreases |a|
  {
    if |a| > 0 { LexIrreflexive(a[1..]); }
  }

  lemma {:induction false} LexTransitive(a: Bytes, b: Bytes, d: Bytes)
    requires LexLess(a, b) && LexLess(b, d)
    ensures LexLess(a, d)
    decreases |a|
  {
    if |a| > 0 && a[0] == b[0] && b[0] == d[0] { LexTransitive(a[1..], b[1..], d[1..]); }
  }

  lemma {:induction false} LexTotal(a: Bytes, b: Bytes)
    ensures a == b || LexLess(a, b) || LexLess(b, a)
    decreases |a|
  {
    if |a| > 0 && |b| > 0 && a[0] == b[0] {
      LexTotal(a[1..], b[1..]);
      assert a == [a[0]] + a[1..] && b == [b[0]] + b[1..];
    }
  }

  lemma LexAsymmetric(a: Bytes, b: Bytes)
    requires LexLess(a, b)
    ensures !LexLess(b, a) && a != b
  {
    LexIrreflexive(a);
    if LexLess(b, a) { LexTransitive(a, b, a); }
  }
}
