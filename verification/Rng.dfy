/** The deterministic generator behind every disguise, on 64-bit words.

    Each stage of the output function is undone by a stage of its own. The facts are stated
    through `Undoes...` predicates so that the word arithmetic stays inside one lemma each. */
module Rng {
  import opened Metrics
  import opened Words

  // ---- the stages -----------------------------------------------------------

  function Advance(state: bv64): bv64 {
    state + 0x9E3779B97F4A7C15
  }

  function Fold30(x: bv64): bv64 {
    x ^ (x >> 30)
  }

  function Unfold30(y: bv64): bv64 {
    y ^ (y >> 30) ^ (y >> 60)
  }

  function Fold27(x: bv64): bv64 {
    x ^ (x >> 27)
  }

  function Unfold27(y: bv64): bv64 {
    y ^ (y >> 27) ^ (y >> 54)
  }

  function Fold31(x: bv64): bv64 {
    x ^ (x >> 31)
  }

  function Unfold31(y: bv64): bv64 {
    y ^ (y >> 31) ^ (y >> 62)
  }

  function Scramble1(x: bv64): bv64 {
    x * 0xBF58476D1CE4E5B9
  }

  function Unscramble1(y: bv64): bv64 {
    y * 0x96DE1B173F119089
  }

  function Scramble2(x: bv64): bv64 {
    x * 0x94D049BB133111EB
  }

  function Unscramble2(y: bv64): bv64 {
    y * 0x319642B2D24D8EC3
  }

  /** One output from one state. */
  function Mix(state: bv64): bv64 {
    Fold31(Scramble2(Fold27(Scramble1(Fold30(state)))))
  }

  function Unmix(z: bv64): bv64 {
    Unfold30(Unscramble1(Unfold27(Unscramble2(Unfold31(z)))))
  }

  predicate UndoesFold30(x: bv64, y: bv64) {
    y ^ (y >> 30) ^ (y >> 60) == x
  }

  lemma FoldedWord30(x: bv64)
    ensures UndoesFold30(x, x ^ (x >> 30))
  {
  }

  lemma Fold30Undone(x: bv64)
    ensures Unfold30(Fold30(x)) == x
  {
    FoldedWord30(x);
    assert UndoesFold30(x, Fold30(x));
  }

  predicate UndoesFold27(x: bv64, y: bv64) {
    y ^ (y >> 27) ^ (y >> 54) == x
  }

  lemma FoldedWord27(x: bv64)
    ensures UndoesFold27(x, x ^ (x >> 27))
  {
  }

  lemma Fold27Undone(x: bv64)
    ensures Unfold27(Fold27(x)) == x
  {
    FoldedWord27(x);
    assert UndoesFold27(x, Fold27(x));
  }

  predicate UndoesFold31(x: bv64, y: bv64) {
    y ^ (y >> 31) ^ (y >> 62) == x
  }

  lemma FoldedWord31(x: bv64)
    ensures UndoesFold31(x, x ^ (x >> 31))
  {
  }

  lemma Fold31Undone(x: bv64)
    ensures Unfold31(Fold31(x)) == x
  {
    FoldedWord31(x);
    assert UndoesFold31(x, Fold31(x));
  }

  predicate UndoesScramble1(x: bv64, y: bv64) {
    y * 0x96DE1B173F119089 == x
  }

  lemma ScrambledWord1(x: bv64)
    ensures UndoesScramble1(x, x * 0xBF58476D1CE4E5B9)
  {
  }

  lemma Scramble1Undone(x: bv64)
    ensures Unscramble1(Scramble1(x)) == x
  {
    ScrambledWord1(x);
    assert UndoesScramble1(x, Scramble1(x));
  }

  predicate UndoesScramble2(x: bv64, y: bv64) {
    y * 0x319642B2D24D8EC3 == x
  }

  lemma ScrambledWord2(x: bv64)
    ensures UndoesScramble2(x, x * 0x94D049BB133111EB)
  {
  }

  lemma Scramble2Undone(x: bv64)
    ensures Unscramble2(Scramble2(x)) == x
  {
    ScrambledWord2(x);
    assert UndoesScramble2(x, Scramble2(x));
  }

  /** Mixing loses nothing: every state can be read back from its output, so different
      states give different outputs. */
  lemma MixIsInvertible(state: bv64)
    ensures Unmix(Mix(state)) == state
  {
    Fold30Undone(state);
    Scramble1Undone(Fold30(state));
    Fold27Undone(Scramble1(Fold30(state)));
    Scramble2Undone(Fold27(Scramble1(Fold30(state))));
    Fold31Undone(Scramble2(Fold27(Scramble1(Fold30(state)))));
  }

  predicate RedoesFold30(y: bv64, x: bv64) {
    x ^ (x >> 30) == y
  }

  lemma UnfoldedWord30(y: bv64)
    ensures RedoesFold30(y, y ^ (y >> 30) ^ (y >> 60))
  {
  }

  lemma Fold30Redone(y: bv64)
    ensures Fold30(Unfold30(y)) == y
  {
    UnfoldedWord30(y);
    assert RedoesFold30(y, Unfold30(y));
  }

  predicate RedoesFold27(y: bv64, x: bv64) {
    x ^ (x >> 27) == y
  }

  lemma UnfoldedWord27(y: bv64)
    ensures RedoesFold27(y, y ^ (y >> 27) ^ (y >> 54))
  {
  }

  lemma Fold27Redone(y: bv64)
    ensures Fold27(Unfold27(y)) == y
  {
    UnfoldedWord27(y);
    assert RedoesFold27(y, Unfold27(y));
  }

  predicate RedoesFold31(y: bv64, x: bv64) {
    x ^ (x >> 31) == y
  }

  lemma UnfoldedWord31(y: bv64)
    ensures RedoesFold31(y, y ^ (y >> 31) ^ (y >> 62))
  {
  }

  lemma Fold31Redone(y: bv64)
    ensures Fold31(Unfold31(y)) == y
  {
    UnfoldedWord31(y);
    assert RedoesFold31(y, Unfold31(y));
  }

  predicate RedoesScramble1(y: bv64, x: bv64) {
    x * 0xBF58476D1CE4E5B9 == y
  }

  lemma UnscrambledWord1(y: bv64)
    ensures RedoesScramble1(y, y * 0x96DE1B173F119089)
  {
  }

  lemma Scramble1Redone(y: bv64)
    ensures Scramble1(Unscramble1(y)) == y
  {
    UnscrambledWord1(y);
    assert RedoesScramble1(y, Unscramble1(y));
  }

  predicate RedoesScramble2(y: bv64, x: bv64) {
    x * 0x94D049BB133111EB == y
  }

  lemma UnscrambledWord2(y: bv64)
    ensures RedoesScramble2(y, y * 0x319642B2D24D8EC3)
  {
  }

  lemma Scramble2Redone(y: bv64)
    ensures Scramble2(Unscramble2(y)) == y
  {
    UnscrambledWord2(y);
    assert RedoesScramble2(y, Unscramble2(y));
  }

  /** Nothing is left out either: every word is the output of a state. */
  lemma MixIsOnto(z: bv64)
    ensures Mix(Unmix(z)) == z
  {
    Fold31Redone(z);
    var a := Unfold31(z);
    Scramble2Redone(a);
    var b := Unscramble2(a);
    Fold27Redone(b);
    var c := Unfold27(b);
    Scramble1Redone(c);
    Fold30Redone(Unscramble1(c));
  }

  // ---- the stream -----------------------------------------------------------

  function StateAfter(state: bv64, n: nat): bv64 {
    if n == 0 then state else Advance(StateAfter(state, n - 1))
  }

  /** The n-th output of a generator, counting from 0. */
  function Output(seed: bv64, n: nat): bv64 {
    Mix(StateAfter(seed, n + 1))
  }

  lemma FirstOutput(state: bv64)
    ensures Output(state, 0) == Mix(Advance(state))
  {
    assert StateAfter(state, 1) == Advance(StateAfter(state, 0));
  }

  function Retreat(state: bv64): bv64 {
    state - 0x9E3779B97F4A7C15
  }

  lemma RetreatIsUndone(state: bv64)
    ensures Advance(Retreat(state)) == state
  {
  }

  /** The first outputs of the generator seeded with zero, as published for SplitMix64. */
  lemma KnownOutputs()
    ensures Output(0, 0) == 0xE220A8397B1DCDAF
    ensures Output(0, 1) == 0x6E789E6AA1B965F4
    ensures Output(0, 2) == 0x06C45D188009454F
  {
    assert StateAfter(0, 0) == 0;
    assert StateAfter(0, 1) == 0x9E3779B97F4A7C15;
    assert StateAfter(0, 2) == 0x3C6EF372FE94F82A;
    assert StateAfter(0, 3) == 0xDAA66D2C7DDF743F;
  }

  /** Every number in a word is the next output of some state. */
  lemma EveryOutputIsDrawn(n: nat) returns (state: bv64)
    requires n < WORD
    ensures Widen(Output(state, 0)) == n
  {
    var z := EveryNumberIsAWord(n);
    state := Retreat(Unmix(z));
    MixIsOnto(z);
    RetreatIsUndone(Unmix(z));
    FirstOutput(state);
  }

  lemma {:induction false} StatesStayApart(a: bv64, b: bv64, n: nat)
    requires StateAfter(a, n) == StateAfter(b, n)
    ensures a == b
  {
    if n > 0 {
      StatesStayApart(a, b, n - 1);
    }
  }

  // ---- seeding --------------------------------------------------------------

  function Seed(hash: bv64, salt: bv64): bv64 {
    hash ^ (salt * 0x9E3779B97F4A7C15)
  }

  predicate UndoesSeed(hash: bv64, salt: bv64, seed: bv64) {
    (hash ^ seed) * 0xF1DE83E19937733D == salt
  }

  lemma SeedWord(hash: bv64, salt: bv64)
    ensures UndoesSeed(hash, salt, hash ^ (salt * 0x9E3779B97F4A7C15))
  {
  }

  lemma SeedKeepsSaltsApart(hash: bv64, a: bv64, b: bv64)
    requires Seed(hash, a) == Seed(hash, b)
    ensures a == b
  {
    SeedWord(hash, a);
    SeedWord(hash, b);
    assert UndoesSeed(hash, a, Seed(hash, a)) && UndoesSeed(hash, b, Seed(hash, b));
  }

  /** For one wallet, different op salts give different outputs: the first ones, and the n-th
      ones of the two streams for every n. */
  lemma DifferentSaltsDiffer(hash: bv64, a: bv64, b: bv64, n: nat)
    requires a != b
    ensures Output(Seed(hash, a), n) != Output(Seed(hash, b), n)
  {
    if Output(Seed(hash, a), n) == Output(Seed(hash, b), n) {
      MixIsInvertible(StateAfter(Seed(hash, a), n + 1));
      MixIsInvertible(StateAfter(Seed(hash, b), n + 1));
      StatesStayApart(Seed(hash, a), Seed(hash, b), n + 1);
      SeedKeepsSaltsApart(hash, a, b);
      assert false;
    }
  }

  // ---- drawing --------------------------------------------------------------

  /** What one draw yields and the state it leaves. */
  datatype Draw<T> = Draw(value: T, state: bv64)

  /** The length of a range, in a word: the full 64-bit range has none. */
  function SpanOf(lo: nat, hi: nat): (n: nat)
    requires lo <= hi
    ensures n < WORD
  {
    (hi - lo + 1) % WORD
  }

  /** The source divides by the span; by zero it panics. */
  predicate RangePanics(lo: nat, hi: nat) {
    lo < hi && SpanOf(lo, hi) == 0
  }

  /** Of all ranges in a word, drawing panics on the full one alone. */
  lemma PanicsOnTheFullRangeAlone(lo: nat, hi: nat)
    requires hi < WORD
    ensures RangePanics(lo, hi) <==> lo == 0 && hi == WORD - 1
  {
    if lo < hi && hi - lo + 1 < WORD {
      assert SpanOf(lo, hi) == hi - lo + 1;
    }
  }

  /** Uniform in `[lo, hi]`; a reversed or single range yields `lo` and draws nothing. */
  function RangeOf(state: bv64, lo: nat, hi: nat): (d: Draw<nat>)
    requires hi < WORD && !RangePanics(lo, hi)
    ensures if lo <= hi then lo <= d.value <= hi else d.value == lo
  {
    if hi <= lo then Draw(lo, state)
    else
      PanicsOnTheFullRangeAlone(lo, hi);
      Draw(lo + Widen(Mix(Advance(state))) % SpanOf(lo, hi), Advance(state))
  }

  function IndexOf(state: bv64, len: nat): (d: Draw<nat>)
    requires len < WORD
    ensures len > 0 ==> d.value < len
  {
    if len <= 1 then Draw(0, state)
    else Draw(Widen(Mix(Advance(state))) % len, Advance(state))
  }

  /** True with probability `pct` in a hundred. */
  function ChanceOf(state: bv64, pct: nat): (d: Draw<bool>)
    ensures pct == 0 ==> !d.value
    ensures pct >= 100 ==> d.value
  {
    if pct == 0 then Draw(false, state)
    else if pct >= 100 then Draw(true, state)
    else
      var roll := RangeOf(state, 1, 100);
      Draw(roll.value <= pct, roll.state)
  }

  // ---- what a draw means ----------------------------------------------------

  lemma Divided(x: nat, n: nat) returns (q: nat)
    requires n > 0
    ensures x == q * n + x % n
  {
    q := x / n;
  }

  lemma RemainderIsUnique(q: nat, n: nat, r: nat)
    requires r < n
    ensures (q * n + r) % n == r
  {
    var x := q * n + r;
    var k := Divided(x, n);
    if q < k {
      MulMono(q + 1, k, n);
    } else if k < q {
      MulMono(k + 1, q, n);
    }
  }

  /** A draw is the remainder of the next output over the range's length, counted from its
      lower end; a point or a reversed range uses no output. */
  lemma DrawIsTheRemainder(state: bv64, lo: nat, hi: nat) returns (q: nat)
    requires hi < WORD && !RangePanics(lo, hi)
    ensures var d := RangeOf(state, lo, hi);
            if lo < hi then
              && lo <= d.value <= hi && d.state == Advance(state)
              && Widen(Output(state, 0)) == q * (hi - lo + 1) + (d.value - lo)
            else d == Draw(lo, state)
  {
    q := 0;
    if lo < hi {
      PanicsOnTheFullRangeAlone(lo, hi);
      FirstOutput(state);
      var span := hi - lo + 1;
      assert SpanOf(lo, hi) == span;
      q := Divided(Widen(Output(state, 0)), span);
    }
  }

  /** Every value of a range is drawn from some state. */
  lemma EveryValueIsDrawn(lo: nat, hi: nat, v: nat) returns (state: bv64)
    requires lo <= v <= hi < WORD && !RangePanics(lo, hi)
    ensures RangeOf(state, lo, hi).value == v
  {
    state := EveryOutputIsDrawn(v - lo);
    var q := DrawIsTheRemainder(state, lo, hi);
    if lo < hi {
      RemainderIsUnique(q, hi - lo + 1, RangeOf(state, lo, hi).value - lo);
      RemainderIsUnique(0, hi - lo + 1, v - lo);
    }
  }

  /** Two states draw the same value of a range exactly when their outputs are congruent
      modulo its length. */
  lemma SameDrawIffCongruent(a: bv64, b: bv64, lo: nat, hi: nat)
    requires lo < hi < WORD && !RangePanics(lo, hi)
    ensures RangeOf(a, lo, hi).value == RangeOf(b, lo, hi).value
            <==> Widen(Output(a, 0)) % (hi - lo + 1) == Widen(Output(b, 0)) % (hi - lo + 1)
  {
    var p := DrawIsTheRemainder(a, lo, hi);
    var q := DrawIsTheRemainder(b, lo, hi);
    RemainderIsUnique(p, hi - lo + 1, RangeOf(a, lo, hi).value - lo);
    RemainderIsUnique(q, hi - lo + 1, RangeOf(b, lo, hi).value - lo);
  }

  /** An index is the remainder of the next output over the length. */
  lemma IndexIsTheRemainder(state: bv64, len: nat) returns (q: nat)
    requires len < WORD
    ensures var d := IndexOf(state, len);
            if len > 1 then d.value < len && d.state == Advance(state) && Widen(Output(state, 0)) == q * len + d.value
            else d == Draw(0, state)
  {
    q := 0;
    if len > 1 {
      FirstOutput(state);
      q := Divided(Widen(Output(state, 0)), len);
    }
  }

  /** Every index is drawn from some state. */
  lemma EveryIndexIsDrawn(len: nat, i: nat) returns (state: bv64)
    requires i < len < WORD
    ensures IndexOf(state, len).value == i
  {
    state := EveryOutputIsDrawn(i);
    var q := IndexIsTheRemainder(state, len);
    if len > 1 {
      RemainderIsUnique(q, len, IndexOf(state, len).value);
      RemainderIsUnique(0, len, i);
    }
  }

  /** A chance of `pct` comes true on exactly `pct` of each hundred outputs. */
  lemma ChanceIsPctOfAHundred(state: bv64, pct: nat)
    ensures ChanceOf(state, pct).value <==> Widen(Output(state, 0)) % 100 < pct
    ensures ChanceOf(state, pct).state == if 0 < pct < 100 then Advance(state) else state
  {
    var q := DrawIsTheRemainder(state, 1, 100);
    RemainderIsUnique(q, 100, RangeOf(state, 1, 100).value - 1);
  }

  /** Short of certainty it comes true from some state and not from another. */
  lemma ChanceGoesBothWays(pct: nat) returns (yes: bv64, no: bv64)
    requires 0 < pct < 100
    ensures ChanceOf(yes, pct).value && !ChanceOf(no, pct).value
  {
    yes := EveryOutputIsDrawn(0);
    no := EveryOutputIsDrawn(99);
    ChanceIsPctOfAHundred(yes, pct);
    ChanceIsPctOfAHundred(no, pct);
  }

  class SplitMix64 {
    var state: bv64

    constructor (seed: bv64)
      ensures state == seed
    {
      state := seed;
    }

    method NextU64() returns (z: bv64)
      modifies this
      ensures state == Advance(old(state)) && z == Output(old(state), 0)
    {
      ghost var before := state;
      state := Advance(state);
      z := state;
      z := Scramble1(Fold30(z));
      z := Scramble2(Fold27(z));
      z := Fold31(z);
      assert StateAfter(before, 1) == Advance(StateAfter(before, 0));
    }

    method Range(lo: nat, hi: nat) returns (n: nat)
      requires hi < WORD && !RangePanics(lo, hi)
      modifies this
      ensures Draw(n, state) == RangeOf(old(state), lo, hi)
    {
      if hi <= lo {
        return lo;
      }
      var span := SpanOf(lo, hi);
      ghost var before := state;
      var z := NextU64();
      assert StateAfter(before, 1) == Advance(StateAfter(before, 0));
      n := lo + Widen(z) % span;
    }

    method Index(len: nat) returns (n: nat)
      requires len < WORD
      modifies this
      ensures Draw(n, state) == IndexOf(old(state), len)
    {
      if len <= 1 {
        return 0;
      }
      ghost var before := state;
      var z := NextU64();
      assert StateAfter(before, 1) == Advance(StateAfter(before, 0));
      n := Widen(z) % len;
    }

    method Chance(pct: nat) returns (yes: bool)
      modifies this
      ensures Draw(yes, state) == ChanceOf(old(state), pct)
    {
      if pct == 0 {
        return false;
      }
      if pct >= 100 {
        return true;
      }
      var roll := Range(1, 100);
      yes := roll <= pct;
    }
  }

  // ---- the wallet hash ------------------------------------------------------

  function Folded(hash: bv64, b: bv64): bv64 {
    hash ^ b
  }

  function Primed(x: bv64): bv64 {
    x * 0x100000001B3
  }

  function HashByte(hash: bv64, b: bv8): bv64 {
    Primed(Folded(hash, b as bv64))
  }

  function HashFrom(hash: bv64, bytes: seq<bv8>): bv64 {
    if bytes == [] then hash else HashByte(HashFrom(hash, bytes[..|bytes| - 1]), bytes[|bytes| - 1])
  }

  const FNV_BASIS: bv64 := 0xCBF29CE484222325

  method Fnv1a(bytes: seq<bv8>) returns (hash: bv64)
    ensures hash == HashFrom(FNV_BASIS, bytes)
  {
    hash := FNV_BASIS;
    for i := 0 to |bytes|
      invariant hash == HashFrom(FNV_BASIS, bytes[..i])
    {
      assert bytes[..i + 1][..i] == bytes[..i];
      hash := HashByte(hash, bytes[i]);
    }
    assert bytes[..|bytes|] == bytes;
  }

  /** The published hashes of nothing, of "a" and of "foo". */
  lemma KnownHashes()
    ensures HashFrom(FNV_BASIS, []) == 0xCBF29CE484222325
    ensures HashFrom(FNV_BASIS, [0x61]) == 0xAF63DC4C8601EC8C
    ensures HashFrom(FNV_BASIS, [0x66, 0x6F, 0x6F]) == 0xDCB27518FED9D577
  {
    OneMoreByte([], 0x61);
    OneMoreByte([], 0x66);
    OneMoreByte([0x66], 0x6F);
    OneMoreByte([0x66, 0x6F], 0x6F);
    assert [0x66] + [0x6F] == [0x66, 0x6F] && [0x66, 0x6F] + [0x6F] == [0x66, 0x6F, 0x6F];
    assert [] + [0x61] == [0x61] && [] + [0x66] == [0x66];
  }

  lemma OneMoreByte(bytes: seq<bv8>, b: bv8)
    ensures HashFrom(FNV_BASIS, bytes + [b]) == HashByte(HashFrom(FNV_BASIS, bytes), b)
  {
    assert (bytes + [b])[..|bytes|] == bytes;
  }

  predicate UndoesPrime(x: bv64, y: bv64) {
    y * 0xCE965057AFF6957B == x
  }

  lemma PrimedWord(x: bv64)
    ensures UndoesPrime(x, x * 0x100000001B3)
  {
  }

  lemma PrimeKeepsApart(x: bv64, y: bv64)
    requires Primed(x) == Primed(y)
    ensures x == y
  {
    PrimedWord(x);
    PrimedWord(y);
    assert UndoesPrime(x, Primed(x)) && UndoesPrime(y, Primed(y));
  }

  lemma FoldedKeepsApart(h: bv64, k: bv64, x: bv8, y: bv8)
    requires Folded(h, x as bv64) == Folded(k, y as bv64)
    ensures x == y ==> h == k
    ensures h == k ==> x == y
  {
  }

  lemma SameHashSameFold(h: bv64, k: bv64, x: bv8, y: bv8)
    requires HashByte(h, x) == HashByte(k, y)
    ensures Folded(h, x as bv64) == Folded(k, y as bv64)
  {
    PrimeKeepsApart(Folded(h, x as bv64), Folded(k, y as bv64));
  }

  lemma HashByteKeepsApart(h: bv64, k: bv64, x: bv8, y: bv8)
    requires HashByte(h, x) == HashByte(k, y)
    ensures x == y ==> h == k
    ensures h == k ==> x == y
  {
    SameHashSameFold(h, k, x, y);
    FoldedKeepsApart(h, k, x, y);
  }

  lemma {:induction false} SuffixKeepsApart(h: bv64, k: bv64, suffix: seq<bv8>)
    requires HashFrom(h, suffix) == HashFrom(k, suffix)
    ensures h == k
  {
    if suffix != [] {
      var n := |suffix| - 1;
      HashByteKeepsApart(HashFrom(h, suffix[..n]), HashFrom(k, suffix[..n]), suffix[n], suffix[n]);
      SuffixKeepsApart(h, k, suffix[..n]);
    }
  }

  lemma {:induction false} HashSplits(hash: bv64, a: seq<bv8>, b: seq<bv8>)
    ensures HashFrom(hash, a + b) == HashFrom(HashFrom(hash, a), b)
  {
    if b == [] {
      assert a + b == a;
    } else {
      var n := |b| - 1;
      HashSplits(hash, a, b[..n]);
      assert (a + b)[..|a + b| - 1] == a + b[..n];
    }
  }

  /** Two wallet names that differ in one byte never share a hash. */
  lemma OneByteChangesTheHash(prefix: seq<bv8>, x: bv8, y: bv8, suffix: seq<bv8>)
    requires x != y
    ensures HashFrom(FNV_BASIS, prefix + [x] + suffix) != HashFrom(FNV_BASIS, prefix + [y] + suffix)
  {
    var h := HashFrom(FNV_BASIS, prefix);
    forall b: bv8
      ensures HashFrom(FNV_BASIS, prefix + [b] + suffix) == HashFrom(HashByte(h, b), suffix)
    {
      HashSplits(FNV_BASIS, prefix + [b], suffix);
      HashSplits(FNV_BASIS, prefix, [b]);
    }
    if HashFrom(FNV_BASIS, prefix + [x] + suffix) == HashFrom(FNV_BASIS, prefix + [y] + suffix) {
      SuffixKeepsApart(HashByte(h, x), HashByte(h, y), suffix);
      HashByteKeepsApart(h, h, x, y);
      assert false;
    }
  }
}
