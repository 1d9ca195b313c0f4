/** What number a 64-bit word is, and that every number below 2^64 is a word's. The word
    arithmetic stays inside small lemmas about one word and the next. */
module Words {
  import opened Metrics

  const ONES: bv64 := 0xFFFF_FFFF_FFFF_FFFF

  function Bit(z: bv64): nat {
    if z & 1 == 1 then 1 else 0
  }

  /** The number a word spells in binary. */
  function Widen(z: bv64): nat
    decreases z
  {
    if z == 0 then 0 else 2 * Widen(z >> 1) + Bit(z)
  }

  lemma Halved(z: bv64)
    ensures Widen(z) == 2 * Widen(z >> 1) + Bit(z)
  {
    assert z == 0 ==> z >> 1 == 0 && z & 1 == 0;
  }

  // ---- one word and the next ------------------------------------------------

  predicate SetsTheBit(z: bv64, y: bv64) {
    y >> 1 == z >> 1 && y & 1 == 1
  }

  predicate Carries(z: bv64, y: bv64) {
    y >> 1 == (z >> 1) + 1 && y & 1 == 0
  }

  predicate IsLess(z: bv64, y: bv64) {
    y < z
  }

  lemma EvenWord(z: bv64)
    requires z & 1 == 0
    ensures SetsTheBit(z, z + 1)
  {
  }

  lemma OddWord(z: bv64)
    requires z & 1 == 1 && z != 0xFFFF_FFFF_FFFF_FFFF
    ensures Carries(z, z + 1)
  {
  }

  lemma HalfWord(z: bv64)
    ensures z >> 1 != 0xFFFF_FFFF_FFFF_FFFF
    ensures z & 1 == 0 || z & 1 == 1
  {
  }

  lemma HalfIsLess(z: bv64)
    requires z != 0
    ensures IsLess(z, z >> 1)
  {
  }

  predicate Follows(y: bv64, z: bv64) {
    z != ONES && y == z + 1
  }

  predicate CountsOn(y: bv64, z: bv64) {
    Widen(y) == Widen(z) + 1
  }

  lemma EvenCounts(z: bv64, y: bv64)
    requires z & 1 == 0 && SetsTheBit(z, y)
    ensures CountsOn(y, z)
  {
    Halved(z);
    Halved(y);
    TwiceAndBit(z, y, Widen(z >> 1), Widen(z >> 1));
  }

  lemma OddCounts(z: bv64, y: bv64, h: bv64)
    requires z & 1 == 1 && h == z >> 1 && Carries(z, y) && CountsOn(h + 1, h)
    ensures CountsOn(y, z)
  {
    Halved(z);
    Halved(y);
    TwiceAndBit(z, y, Widen(h), Widen(h + 1));
  }

  lemma TwiceAndBit(z: bv64, y: bv64, hz: nat, hy: nat)
    requires Widen(z) == 2 * hz + Bit(z) && Widen(y) == 2 * hy + Bit(y)
    requires (Bit(z) == 0 && Bit(y) == 1 && hy == hz) || (Bit(z) == 1 && Bit(y) == 0 && hy == hz + 1)
    ensures CountsOn(y, z)
  {
  }

  lemma OddHalves(z: bv64, y: bv64) returns (h: bv64, next: bv64)
    requires Follows(y, z) && z & 1 == 1
    ensures Follows(next, h) && h < z
    ensures CountsOn(next, h) ==> CountsOn(y, z)
  {
    h := z >> 1;
    next := h + 1;
    HalfWord(z);
    OddWord(z);
    HalfIsLess(z);
    assert IsLess(z, z >> 1) && Carries(z, y);
    if CountsOn(next, h) {
      OddCounts(z, y, h);
    }
  }

  lemma EvenNext(z: bv64, y: bv64)
    requires Follows(y, z) && z & 1 != 1
    ensures CountsOn(y, z)
  {
    HalfWord(z);
    EvenWord(z);
    EvenCounts(z, y);
  }

  /** The next word is the next number. */
  lemma {:induction false} NextWordCountsOn(z: bv64, y: bv64)
    requires Follows(y, z)
    ensures CountsOn(y, z)
    decreases z
  {
    if z & 1 == 1 {
      var h, next := OddHalves(z, y);
      NextWordCountsOn(h, next);
    } else {
      EvenNext(z, y);
    }
  }

  // ---- all words ------------------------------------------------------------

  function NextByte(z: bv64): bv64 {
    z >> 8
  }

  lemma EightHalves(z: bv64)
    ensures ((((((((z >> 1) >> 1) >> 1) >> 1) >> 1) >> 1) >> 1) >> 1) == z >> 8
  {
  }

  lemma NoNinthByte(z: bv64)
    ensures NextByte(NextByte(NextByte(NextByte(NextByte(NextByte(NextByte(NextByte(z)))))))) == 0
  {
  }

  lemma ByteBound(z: bv64, rest: bv64)
    requires rest == NextByte(z)
    ensures Widen(z) < 256 * (Widen(rest) + 1)
  {
    EightHalves(z);
    var a := z >> 1;
    var b := a >> 1;
    var c := b >> 1;
    var d := c >> 1;
    var e := d >> 1;
    var f := e >> 1;
    var g := f >> 1;
    Halved(z);
    Halved(a);
    Halved(b);
    Halved(c);
    Halved(d);
    Halved(e);
    Halved(f);
    Halved(g);
  }

  /** A word is a number below 2^64. */
  lemma WordsAreBelow(z: bv64)
    ensures Widen(z) < WORD
  {
    var a := NextByte(z);
    var b := NextByte(a);
    var c := NextByte(b);
    var d := NextByte(c);
    var e := NextByte(d);
    var f := NextByte(e);
    var g := NextByte(f);
    NoNinthByte(z);
    ByteBound(z, a);
    ByteBound(a, b);
    ByteBound(b, c);
    ByteBound(c, d);
    ByteBound(d, e);
    ByteBound(e, f);
    ByteBound(f, g);
    ByteBound(g, NextByte(g));
  }

  lemma FullByte(z: bv64, rest: bv64)
    requires z & 0xFF == 0xFF && rest == NextByte(z)
    ensures Widen(z) == 256 * Widen(rest) + 255
  {
    EightHalves(z);
    var a := z >> 1;
    var b := a >> 1;
    var c := b >> 1;
    var d := c >> 1;
    var e := d >> 1;
    var f := e >> 1;
    var g := f >> 1;
    Halved(z);
    Halved(a);
    Halved(b);
    Halved(c);
    Halved(d);
    Halved(e);
    Halved(f);
    Halved(g);
  }

  lemma AllOnesIsTheLast()
    ensures Widen(ONES) == WORD - 1
  {
    FullByte(0xFFFF_FFFF_FFFF_FFFF, 0xFF_FFFF_FFFF_FFFF);
    FullByte(0xFF_FFFF_FFFF_FFFF, 0xFFFF_FFFF_FFFF);
    FullByte(0xFFFF_FFFF_FFFF, 0xFF_FFFF_FFFF);
    FullByte(0xFF_FFFF_FFFF, 0xFFFF_FFFF);
    FullByte(0xFFFF_FFFF, 0xFF_FFFF);
    FullByte(0xFF_FFFF, 0xFFFF);
    FullByte(0xFFFF, 0xFF);
    FullByte(0xFF, 0);
  }

  /** Every number below 2^64 is some word's. */
  lemma {:induction false} EveryNumberIsAWord(n: nat) returns (z: bv64)
    requires n < WORD
    ensures Widen(z) == n
  {
    if n == 0 {
      z := 0;
    } else {
      var before := EveryNumberIsAWord(n - 1);
      AllOnesIsTheLast();
      z := before + 1;
      NextWordCountsOn(before, z);
      assert CountsOn(z, before);
    }
  }
}
