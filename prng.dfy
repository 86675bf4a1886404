/**
 * `createDeterministicRNG`: an FNV-1a (32-bit) hash of the seed string seeds a
 * mulberry32-style generator whose state advances by 0x6d2b79f5 per call.
 * The state is the uint32 JavaScript number the closure captures. The bitwise
 * operators are written out bit by bit over integers below 2^32; a signed
 * int32 result of `^` or `Math.imul` is represented by its unsigned bit pattern.
 */
module Prng {

  const Modulus: int := 0x1_0000_0000

  newtype uint32 = x: int | 0 <= x < 0x1_0000_0000

  /** A UTF-16 code unit, as `charCodeAt` returns it. */
  type CodeUnit = x: int | 0 <= x < 0x1_0000

  const FnvOffsetBasis: uint32 := 2166136261
  const FnvPrime: uint32 := 16777619
  const Increment: uint32 := 0x6d2b79f5

  /** The exclusive or of the low `n` bits of `a` and `b`, computed bit by bit. */
  function XorBits(a: nat, b: nat, n: nat): nat
  {
    if n == 0 then 0 else (a + b) % 2 + 2 * XorBits(a / 2, b / 2, n - 1)
  }

  /** The inclusive or of the low `n` bits of `a` and `b`, computed bit by bit. */
  function OrBits(a: nat, b: nat, n: nat): nat
  {
    if n == 0 then 0 else (if a % 2 == 1 || b % 2 == 1 then 1 else 0) + 2 * OrBits(a / 2, b / 2, n - 1)
  }

  /** `a` times the low `n` bits of `b`, modulo 2^32, by shift and add. */
  function MulBits(a: nat, b: nat, n: nat): (r: nat)
    ensures r < Modulus
  {
    if n == 0 then 0 else ((if b % 2 == 1 then a else 0) + 2 * MulBits(a, b / 2, n - 1)) % Modulus
  }

  /** `a ^ b` on 32-bit words (the bit pattern is the same for the signed and unsigned readings). */
  function Xor(a: uint32, b: uint32): uint32
  {
    (XorBits(a as nat, b as nat, 32) % Modulus) as uint32
  }

  /** `a | b` on 32-bit words. */
  function Or(a: uint32, b: uint32): uint32
  {
    (OrBits(a as nat, b as nat, 32) % Modulus) as uint32
  }

  /** `Math.imul(a, b)`: the low 32 bits of the product. */
  function Imul(a: uint32, b: uint32): uint32
  {
    MulBits(a as nat, b as nat, 32) as uint32
  }

  /** One FNV-1a round: xor in the code unit, then multiply by the FNV prime. */
  function FnvStep(h: uint32, c: CodeUnit): uint32
  {
    Imul(Xor(h, c as uint32), FnvPrime)
  }

  /** FNV-1a over `units`, starting from state `h`. */
  function FnvFrom(h: uint32, units: seq<CodeUnit>): uint32
    decreases units
  {
    if units == [] then h else FnvFrom(FnvStep(h, units[0]), units[1..])
  }

  /** The FNV-1a 32-bit hash of a code-unit string. */
  function Fnv1a(units: seq<CodeUnit>): uint32
  {
    FnvFrom(FnvOffsetBasis, units)
  }

  /** Hashing can be resumed: the hash of `s + t` continues from the hash of `s`. */
  lemma {:induction false} FnvFromAppend(h: uint32, s: seq<CodeUnit>, t: seq<CodeUnit>)
    ensures FnvFrom(h, s + t) == FnvFrom(FnvFrom(h, s), t)
    decreases s
  {
    if s == [] {
      assert s + t == t;
    } else {
      assert (s + t)[1..] == s[1..] + t;
      FnvFromAppend(FnvStep(h, s[0]), s[1..], t);
    }
  }

  /** The seed loop of `createDeterministicRNG`. */
  method SeedHash(seed: seq<CodeUnit>) returns (h: uint32)
    ensures h == Fnv1a(seed)
    ensures seed == [] ==> h == 2166136261
  {
    h := FnvOffsetBasis;
    for i := 0 to |seed|
      invariant h == Fnv1a(seed[..i])
    {
      FnvFromAppend(FnvOffsetBasis, seed[..i], [seed[i]]);
      assert seed[..i + 1] == seed[..i] + [seed[i]];
      h := FnvStep(h, seed[i]);
    }
    assert seed[..|seed|] == seed;
  }

  /** `(a + b) >>> 0` */
  function AddWrap(a: uint32, b: uint32): uint32
  {
    ((a as int + b as int) % Modulus) as uint32
  }

  /** The state after `k` calls of a generator whose state started at `h0`. */
  function Advance(h0: uint32, k: nat): uint32
  {
    if k == 0 then h0 else AddWrap(Advance(h0, k - 1), Increment)
  }

  lemma ModAddLeft(a: int, c: int)
    ensures (a % Modulus + c) % Modulus == (a + c) % Modulus
  {
  }

  /** After `k` calls the state is `h0 + k * 0x6d2b79f5` modulo 2^32. */
  lemma {:induction false} AdvanceClosedForm(h0: uint32, k: nat)
    ensures Advance(h0, k) as int == (h0 as int + k * Increment as int) % Modulus
  {
    if k > 0 {
      AdvanceClosedForm(h0, k - 1);
      ModAddLeft(h0 as int + (k - 1) * Increment as int, Increment as int);
    }
  }

  /** The output mixing of one call, applied to the already advanced state. */
  function Mix(h: uint32): uint32
  {
    var t := Imul(Xor(h, h / 0x8000), Or(1, h));
    var t' := Xor(t, AddWrap(t, Imul(Xor(t, t / 0x80), Or(61, t))));
    Xor(t', t' / 0x4000)
  }

  /** The number a call returns: a uint32 divided by 2^32, hence in [0, 1). */
  function Output(h: uint32): (x: real)
    ensures 0.0 <= x < 1.0
  {
    Mix(h) as real / 4294967296.0
  }

  /** The first `n` numbers returned by a generator whose state started at `h0`. */
  function Stream(h0: uint32, n: nat): (xs: seq<real>)
    ensures |xs| == n
    ensures forall i :: 0 <= i < n ==> 0.0 <= xs[i] < 1.0
  {
    if n == 0 then [] else Stream(h0, n - 1) + [Output(Advance(h0, n))]
  }

  /** The closure returned by `createDeterministicRNG`, with its captured state `h`. */
  class DeterministicRng {
    var h: uint32
    /** The hash of the seed, and how many numbers have been drawn since. */
    ghost var seedHash: uint32
    ghost var calls: nat

    ghost predicate Valid()
      reads this
    {
      h == Advance(seedHash, calls)
    }

    constructor (seed: seq<CodeUnit>)
      ensures Valid() && seedHash == Fnv1a(seed) && calls == 0
    {
      var s := SeedHash(seed);
      h := s;
      seedHash := s;
      calls := 0;
    }

    /** One call of the generator. */
    method Next() returns (x: real)
      requires Valid()
      modifies this
      ensures Valid() && seedHash == old(seedHash) && calls == old(calls) + 1
      ensures h == AddWrap(old(h), Increment)
      ensures x == Output(h) && 0.0 <= x < 1.0
    {
      h := AddWrap(h, Increment);
      calls := calls + 1;
      x := Output(h);
    }
  }

  /** Builds a generator from `seed` and draws `n` numbers: the result depends on the seed and `n` only. */
  method Draw(seed: seq<CodeUnit>, n: nat) returns (xs: seq<real>)
    ensures xs == Stream(Fnv1a(seed), n)
    ensures forall i :: 0 <= i < n ==> 0.0 <= xs[i] < 1.0
  {
    var rng := new DeterministicRng(seed);
    ghost var h0 := Fnv1a(seed);
    xs := [];
    while |xs| < n
      invariant rng.Valid() && rng.seedHash == h0
      invariant rng.calls == |xs| <= n
      invariant xs == Stream(h0, |xs|)
    {
      var x := rng.Next();
      assert x == Output(Advance(h0, |xs| + 1));
      xs := xs + [x];
    }
  }

  /** Determinism: two generators built from the same seed return the same numbers. */
  method SameSeedSameNumbers(seed: seq<CodeUnit>, n: nat) returns (xs: seq<real>, ys: seq<real>)
    ensures xs == ys && |xs| == n
  {
    xs := Draw(seed, n);
    ys := Draw(seed, n);
  }
}
