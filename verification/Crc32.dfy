/** The bitwise CRC-32 of the image tool, and which corruptions it always detects. */
module Crc32 {

  const POLYNOMIAL: bv32 := 0xEDB88320
  const SEED: bv32 := 0xFFFF_FFFF

  type Byte = bv8

  function Iterate<T>(f: T -> T, v: T, n: nat): T
    decreases n, v
  {
    if n == 0 then v else Iterate(f, f(v), n - 1)
  }

  function Fold<S, T>(f: (S, T) -> S, start: S, data: seq<T>): S {
    if data == [] then start else f(Fold(f, start, data[..|data| - 1]), data[|data| - 1])
  }

  /** One turn of the inner loop. */
  function BitStep(v: bv32): bv32 {
    if v & 1 != 0 then (v >> 1) ^ POLYNOMIAL else v >> 1
  }

  function Step8(v: bv32): bv32 { Iterate(BitStep, v, 8) }

  function Word(b: Byte): bv32 { b as bv32 }

  function ByteStep(v: bv32, b: Byte): bv32 { Step8(v ^ Word(b)) }

  /** The register after `data`, starting from `v`. */
  function Register(v: bv32, data: seq<Byte>): bv32 { Fold(ByteStep, v, data) }

  function Checksum(data: seq<Byte>): bv32 { !Register(SEED, data) }

  method Crc32(data: seq<Byte>) returns (crc: bv32)
    ensures crc == Checksum(data)
  {
    var value := SEED;
    for i := 0 to |data|
      invariant value == Fold(ByteStep, SEED, data[..i])
    {
      assert data[..i + 1][..i] == data[..i];
      value := EnterByte(value, data[i]);
    }
    assert data[..|data|] == data;
    return !value;
  }

  /** The inner loop. */
  method EnterByte(before: bv32, b: Byte) returns (value: bv32)
    ensures value == ByteStep(before, b)
  {
    value := before ^ Word(b);
    for k := 0 to 8
      invariant Iterate(BitStep, value, 8 - k) == ByteStep(before, b)
    {
      value := BitStep(value);
    }
  }

  // --- Nothing entered is ever forgotten --------------------------------------------------------

  /** The polynomial has its top bit set, so that bit tells which branch was taken. */
  function BitUnstep(w: bv32): bv32 {
    if w & 0x8000_0000 != 0 then ((w ^ POLYNOMIAL) << 1) | 1 else w << 1
  }

  lemma BitStepInvertible(v: bv32)
    ensures BitUnstep(BitStep(v)) == v
  {
  }

  lemma {:induction false} IterateInjective<T>(step: T -> T, unstep: T -> T, v: T, w: T, n: nat)
    requires v != w && forall u :: unstep(step(u)) == u
    ensures Iterate(step, v, n) != Iterate(step, w, n)
    decreases n
  {
    if n > 0 {
      assert unstep(step(v)) == v && unstep(step(w)) == w;
      IterateInjective(step, unstep, step(v), step(w), n - 1);
    }
  }

  lemma Step8Injective(v: bv32, w: bv32)
    requires v != w
    ensures Step8(v) != Step8(w)
  {
    forall u ensures BitUnstep(BitStep(u)) == u {
      BitStepInvertible(u);
    }
    IterateInjective(BitStep, BitUnstep, v, w, 8);
  }

  lemma ByteStepInjective(v: bv32, w: bv32, b: Byte)
    requires v != w
    ensures ByteStep(v, b) != ByteStep(w, b)
  {
    XorInjective(v, w, Word(b));
    Step8Injective(v ^ Word(b), w ^ Word(b));
  }

  lemma XorInjective(v: bv32, w: bv32, x: bv32)
    requires v != w
    ensures v ^ x != w ^ x
  {
    assert (v ^ x) ^ x == v && (w ^ x) ^ x == w;
  }

  /** Two different registers stay different whatever equal data follows. */
  lemma {:induction false} RegisterInjective(v: bv32, w: bv32, data: seq<Byte>)
    requires v != w
    ensures Register(v, data) != Register(w, data)
  {
    if data != [] {
      var front := data[..|data| - 1];
      RegisterInjective(v, w, front);
      ByteStepInjective(Register(v, front), Register(w, front), data[|data| - 1]);
    }
  }

  lemma {:induction false} FoldAppend<S, T>(f: (S, T) -> S, start: S, a: seq<T>, b: seq<T>)
    ensures Fold(f, start, a + b) == Fold(f, Fold(f, start, a), b)
    decreases |b|
  {
    if b == [] {
      assert a + b == a;
    } else {
      assert (a + b)[..|a + b| - 1] == a + b[..|b| - 1];
      FoldAppend(f, start, a, b[..|b| - 1]);
    }
  }

  // --- Four bytes enter the register like one 32-bit word ------------------------------------------

  lemma ShiftedBit(v: bv32, x: bv32)
    requires x & 1 == 0
    ensures BitStep(v ^ x) == BitStep(v) ^ (x >> 1)
  {
  }

  function Half(x: bv32): bv32 { x >> 1 }
  function Xor(v: bv32, x: bv32): bv32 { v ^ x }

  predicate Even(x: bv32) { x & 1 == 0 }

  lemma HalfNext(x: bv32, i: nat)
    ensures Iterate(Half, x, i + 1) == Half(Iterate(Half, x, i))
    decreases i
  {
    if i > 0 {
      HalfNext(Half(x), i - 1);
    }
  }

  lemma Halves(x: bv32)
    requires x & 0xFF == 0
    ensures forall i: nat :: i < 8 ==> Even(Iterate(Half, x, i))
    ensures Iterate(Half, x, 8) == x >> 8
  {
    assert Iterate(Half, x, 0) == x;
    HalfNext(x, 0); HalfNext(x, 1); HalfNext(x, 2); HalfNext(x, 3);
    HalfNext(x, 4); HalfNext(x, 5); HalfNext(x, 6); HalfNext(x, 7);
    forall i: nat | i < 8 ensures Even(Iterate(Half, x, i)) {
      assert i == 0 || i == 1 || i == 2 || i == 3 || i == 4 || i == 5 || i == 6 || i == 7;
    }
  }

  /** Bits that are not due within one byte only move down by one byte. */
  ghost predicate MovesLaterBytes(step: bv32 -> bv32) {
    forall v, x :: x & 0xFF == 0 ==> step(Xor(v, x)) == Xor(step(v), x >> 8)
  }

  /** Addition of a pattern whose due bits are all zero commutes with every step. */
  lemma {:induction false} LaterBits<T>(step: T -> T, half: T -> T, add: (T, T) -> T, even: T -> bool, v: T, x: T, n: nat)
    requires forall u, y :: even(y) ==> step(add(u, y)) == add(step(u), half(y))
    requires forall i: nat :: i < n ==> even(Iterate(half, x, i))
    ensures Iterate(step, add(v, x), n) == add(Iterate(step, v, n), Iterate(half, x, n))
    decreases n
  {
    if n > 0 {
      assert Iterate(half, x, 0) == x;
      forall i: nat | i < n - 1 ensures even(Iterate(half, half(x), i)) {
        assert Iterate(half, x, i + 1) == Iterate(half, half(x), i);
      }
      LaterBits(step, half, add, even, step(v), half(x), n - 1);
    }
  }

  lemma Step8MovesLaterBytes()
    ensures MovesLaterBytes(Step8)
  {
    forall u, y | Even(y) ensures BitStep(Xor(u, y)) == Xor(BitStep(u), Half(y)) {
      ShiftedBit(u, y);
    }
    forall v, x | x & 0xFF == 0 ensures Step8(Xor(v, x)) == Xor(Step8(v), x >> 8) {
      Halves(x);
      LaterBits(BitStep, Half, Xor, Even, v, x, 8);
    }
  }

  function Rest(b: Byte, c: Byte, d: Byte): bv32 { (Word(b) << 8) ^ (Word(c) << 16) ^ (Word(d) << 24) }

  function Word32(a: Byte, b: Byte, c: Byte, d: Byte): bv32 { Xor(Word(a), Rest(b, c, d)) }

  lemma XorThree(u: bv32, v: bv32, w: bv32, p: bv32, q: bv32)
    requires p == v ^ w && q == u ^ v
    ensures u ^ p == q ^ w
  {
  }

  lemma XorPairs(u: bv32, v: bv32, w: bv32, p: bv32, q: bv32)
    requires p == v ^ w && q == u ^ v
    ensures Xor(u, p) == Xor(q, w)
  {
    XorThree(u, v, w, p, q);
  }

  lemma XorAssociative(u: bv32, v: bv32, w: bv32)
    ensures Xor(u, Xor(v, w)) == Xor(Xor(u, v), w)
  {
    XorPairs(u, v, w, Xor(v, w), Xor(u, v));
  }

  lemma RestMovesDown(b: Byte, c: Byte, d: Byte)
    ensures Rest(b, c, d) & 0xFF == 0 && Rest(b, c, d) >> 8 == Word32(b, c, d, 0)
  {
  }

  /** The first of the bytes still to come enters; the others move down. */
  lemma FirstByte(step: bv32 -> bv32, v: bv32, a: Byte, b: Byte, c: Byte, d: Byte)
    requires MovesLaterBytes(step)
    ensures step(Xor(v, Word32(a, b, c, d))) == Xor(step(Xor(v, Word(a))), Word32(b, c, d, 0))
  {
    XorAssociative(v, Word(a), Rest(b, c, d));
    RestMovesDown(b, c, d);
  }

  lemma NothingLeft(v: bv32)
    ensures Xor(v, Word32(0, 0, 0, 0)) == v
  {
  }

  function Register4(step: bv32 -> bv32, v: bv32, a: Byte, b: Byte, c: Byte, d: Byte): bv32 {
    step(Xor(step(Xor(step(Xor(step(Xor(v, Word(a))), Word(b))), Word(c))), Word(d)))
  }

  lemma FourBytes(step: bv32 -> bv32, v: bv32, a: Byte, b: Byte, c: Byte, d: Byte)
    requires MovesLaterBytes(step)
    ensures Register4(step, v, a, b, c, d) == step(step(step(step(Xor(v, Word32(a, b, c, d))))))
  {
    var v1 := step(Xor(v, Word(a)));
    var v2 := step(Xor(v1, Word(b)));
    var v3 := step(Xor(v2, Word(c)));
    FirstByte(step, v, a, b, c, d);
    FirstByte(step, v1, b, c, d, 0);
    FirstByte(step, v2, c, d, 0, 0);
    FirstByte(step, v3, d, 0, 0, 0);
    NothingLeft(step(Xor(v3, Word(d))));
  }

  lemma Word32Injective(m: seq<Byte>, n: seq<Byte>)
    requires |m| == |n| == 4 && m != n
    ensures Word32(m[0], m[1], m[2], m[3]) != Word32(n[0], n[1], n[2], n[3])
  {
    assert m == [m[0], m[1], m[2], m[3]] && n == [n[0], n[1], n[2], n[3]];
  }

  lemma FourBytesInjective(step: bv32 -> bv32, v: bv32, m: seq<Byte>, n: seq<Byte>)
    requires MovesLaterBytes(step) && forall a, b :: a != b ==> step(a) != step(b)
    requires |m| == |n| == 4 && m != n
    ensures Register4(step, v, m[0], m[1], m[2], m[3]) != Register4(step, v, n[0], n[1], n[2], n[3])
  {
    var x, y := Word32(m[0], m[1], m[2], m[3]), Word32(n[0], n[1], n[2], n[3]);
    Word32Injective(m, n);
    FourBytes(step, v, m[0], m[1], m[2], m[3]);
    FourBytes(step, v, n[0], n[1], n[2], n[3]);
    XorInjective(x, y, v);
    XorCommutes(v, x);
    XorCommutes(v, y);
  }

  lemma XorCommutes(v: bv32, w: bv32)
    ensures Xor(v, w) == w ^ v
  {
  }

  function Enter(step: bv32 -> bv32): (bv32, Byte) -> bv32 { (v: bv32, b: Byte) => step(Xor(v, Word(b))) }

  lemma FoldFour(step: bv32 -> bv32, v: bv32, m: seq<Byte>)
    requires |m| == 4
    ensures Fold(Enter(step), v, m) == Register4(step, v, m[0], m[1], m[2], m[3])
  {
    var f := Enter(step);
    assert m[..3][..2] == m[..2] && m[..2][..1] == m[..1] && m[..1][..0] == [];
    assert Fold(f, v, m[..1]) == f(v, m[0]);
    assert Fold(f, v, m[..2]) == f(Fold(f, v, m[..1]), m[1]);
    assert Fold(f, v, m[..3]) == f(Fold(f, v, m[..2]), m[2]);
  }

  lemma RegisterInjectiveInData(v: bv32, m: seq<Byte>, n: seq<Byte>)
    requires |m| == |n| == 4 && m != n
    ensures Register(v, m) != Register(v, n)
  {
    Step8MovesLaterBytes();
    forall a, b | a != b ensures Step8(a) != Step8(b) {
      Step8Injective(a, b);
    }
    FourBytesInjective(Step8, v, m, n);
    FoldFour(Step8, v, m);
    FoldFour(Step8, v, n);
    FoldSame(ByteStep, Enter(Step8), v, m);
    FoldSame(ByteStep, Enter(Step8), v, n);
  }

  lemma {:induction false} FoldSame<S, T>(f: (S, T) -> S, g: (S, T) -> S, start: S, data: seq<T>)
    requires forall s, t :: f(s, t) == g(s, t)
    ensures Fold(f, start, data) == Fold(g, start, data)
  {
    if data != [] {
      FoldSame(f, g, start, data[..|data| - 1]);
    }
  }

  /** Messages of one length that differ, but only within four consecutive bytes, never have the
      same checksum. */
  lemma BurstIsDetected(before: seq<Byte>, m: seq<Byte>, n: seq<Byte>, after: seq<Byte>)
    requires |m| == |n| <= 4 && m != n
    ensures Checksum(before + m + after) != Checksum(before + n + after)
  {
    var v := Register(SEED, before);
    var padding := seq(4 - |m|, _ => 0);
    if Register(v, m) == Register(v, n) {
      FoldAppend(ByteStep, v, m, padding);
      FoldAppend(ByteStep, v, n, padding);
      assert (m + padding)[..|m|] != (n + padding)[..|m|];
      RegisterInjectiveInData(v, m + padding, n + padding);
    }
    RegisterInjective(Register(v, m), Register(v, n), after);
    FoldAppend(ByteStep, SEED, before, m);
    FoldAppend(ByteStep, SEED, before, n);
    FoldAppend(ByteStep, SEED, before + m, after);
    FoldAppend(ByteStep, SEED, before + n, after);
    ComplementInjective(Register(SEED, before + m + after), Register(SEED, before + n + after));
  }

  lemma ComplementInjective(v: bv32, w: bv32)
    requires v != w
    ensures !v != !w
  {
  }

  /** `a` and `b` have one length and agree outside `[from, from + 4)`. */
  ghost predicate Burst(a: seq<Byte>, b: seq<Byte>, from: int) {
    |a| == |b| && forall i :: 0 <= i < |a| && a[i] != b[i] ==> from <= i < from + 4
  }

  function Clamp(x: int, high: nat): (r: nat)
    ensures r <= high
  {
    if x < 0 then 0 else if x > high then high else x
  }

  /** Whatever happens to four consecutive bytes of a message changes its checksum. */
  lemma DamageIsDetected(data: seq<Byte>, damaged: seq<Byte>, from: int)
    requires Burst(data, damaged, from) && data != damaged
    ensures Checksum(data) != Checksum(damaged)
  {
    var start, end := Clamp(from, |data|), Clamp(from + 4, |data|);
    var m, n := data[start..end], damaged[start..end];
    assert data[..start] == damaged[..start] && data[end..] == damaged[end..];
    assert data == data[..start] + m + data[end..];
    assert damaged == damaged[..start] + n + damaged[end..];
    BurstIsDetected(data[..start], m, n, data[end..]);
  }
}
