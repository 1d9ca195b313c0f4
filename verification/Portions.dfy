/** How many tokens a sell takes, and what any sequence of sells leaves. */
module Portions {
  import opened Metrics

  datatype Portion = All | BpsOfInitial(bps: nat) | BpsOfRemaining(bps: nat)

  function Remaining(initial: nat, sold: nat): nat {
    if initial < sold then 0 else initial - sold
  }

  /** `bps / 10_000` of an amount, cut to 64 bits. */
  function Share(amount: nat, bps: nat): nat {
    (amount * bps / 10_000) % WORD
  }

  /** A positive share of what is left sells at least one token. */
  function TokenAmount(p: Portion, initial: nat, sold: nat): nat {
    var remaining := Remaining(initial, sold);
    match p
    case All => remaining
    case BpsOfInitial(bps) => MinNat(Share(initial, bps), remaining)
    case BpsOfRemaining(bps) =>
      var want := Share(remaining, bps);
      MinNat(if want == 0 && remaining > 0 && bps > 0 then 1 else want, remaining)
  }

  function SoldAfter(initial: nat, sold: nat, sells: seq<Portion>): nat {
    if sells == [] then sold
    else
      var before := SoldAfter(initial, sold, sells[..|sells| - 1]);
      before + TokenAmount(sells[|sells| - 1], initial, before)
  }

  /** No sequence of sells ever sells more than the bag, whatever its basis points, and one
      `All` anywhere in it leaves nothing. */
  lemma {:induction false} NeverOversells(initial: nat, sold: nat, sells: seq<Portion>)
    requires sold <= initial
    ensures sold <= SoldAfter(initial, sold, sells) <= initial
    ensures All in sells ==> SoldAfter(initial, sold, sells) == initial
  {
    if sells != [] {
      var n := |sells| - 1;
      NeverOversells(initial, sold, sells[..n]);
      assert sells == sells[..n] + [sells[n]];
    }
  }

  predicate AllOfRemaining(sells: seq<Portion>) {
    forall p | p in sells :: p.BpsOfRemaining? && p.bps > 0
  }

  /** Positive sells of the remainder each take at least one token, so they empty the bag in
      no more steps than it has tokens. */
  lemma {:induction false} RemainderSellsMakeProgress(initial: nat, sold: nat, sells: seq<Portion>)
    requires sold <= initial && AllOfRemaining(sells)
    ensures SoldAfter(initial, sold, sells) >= MinNat(initial, sold + |sells|)
    ensures |sells| >= initial - sold ==> SoldAfter(initial, sold, sells) == initial
  {
    NeverOversells(initial, sold, sells);
    if sells != [] {
      var n := |sells| - 1;
      assert sells[n] in sells;
      NeverOversells(initial, sold, sells[..n]);
      RemainderSellsMakeProgress(initial, sold, sells[..n]);
    }
  }

  // ---- shares of the first bag ----------------------------------------------

  function TotalBps(bps: seq<nat>): nat {
    if bps == [] then 0 else TotalBps(bps[..|bps| - 1]) + bps[|bps| - 1]
  }

  function ShareSells(bps: seq<nat>): seq<Portion> {
    if bps == [] then [] else ShareSells(bps[..|bps| - 1]) + [BpsOfInitial(bps[|bps| - 1])]
  }

  lemma ShareRoundsDown(initial: nat, bps: nat)
    requires initial < WORD && bps <= 10_000
    ensures 10_000 * Share(initial, bps) <= initial * bps < 10_000 * Share(initial, bps) + 10_000
  {
    assert initial * bps <= initial * 10_000 by {
      MulMono(bps, 10_000, initial);
    }
  }

  lemma Distribute(a: nat, b: nat, c: nat)
    ensures a * (b + c) == a * b + a * c
  {
  }

  lemma OneMoreShare(initial: nat, total: nat, b: nat, sold: nat, share: nat, n: nat)
    requires 10_000 * sold <= initial * total <= 10_000 * sold + 9_999 * n
    requires 10_000 * share <= initial * b < 10_000 * share + 10_000 && total + b <= 10_000
    ensures 10_000 * (sold + share) <= initial * (total + b) <= 10_000 * (sold + share) + 9_999 * (n + 1)
    ensures sold + share <= initial
  {
    Distribute(initial, total, b);
    MulMono(total + b, 10_000, initial);
  }

  lemma {:induction false} ShareSellsAddUp(initial: nat, bps: seq<nat>)
    requires initial < WORD && TotalBps(bps) <= 10_000
    ensures var sold := SoldAfter(initial, 0, ShareSells(bps));
            10_000 * sold <= initial * TotalBps(bps) <= 10_000 * sold + 9_999 * |bps|
  {
    if bps != [] {
      var n := |bps| - 1;
      var first := bps[..n];
      var before := SoldAfter(initial, 0, ShareSells(first));
      ShareSellsAddUp(initial, first);
      NeverOversells(initial, 0, ShareSells(first));
      assert ShareSells(bps)[..|ShareSells(first)|] == ShareSells(first);
      ShareRoundsDown(initial, bps[n]);
      OneMoreShare(initial, TotalBps(first), bps[n], before, Share(initial, bps[n]), n);
    }
  }

  /** Sells of the first bag whose shares make up the whole leave fewer tokens than there are
      sells: only what rounding down lost. */
  lemma WholeBagInSharesLeavesLittle(initial: nat, bps: seq<nat>)
    requires initial < WORD && bps != [] && TotalBps(bps) == 10_000
    ensures initial - SoldAfter(initial, 0, ShareSells(bps)) < |bps|
  {
    ShareSellsAddUp(initial, bps);
  }

  // ---- what one sell takes, and what sells of the remainder leave -----------

  /** Of a bag in a word, `All` takes what is left, a share of the first bag the most tokens
      that share and what is left allow, and a share of what is left the most that share
      allows, or one token when that is none and something was asked for. A bag sold beyond
      its first tokens has nothing left. */
  lemma SellTakesTheMost(initial: nat, sold: nat, bps: nat)
    requires initial < WORD && bps <= 10_000
    ensures var left := if sold <= initial then initial - sold else 0;
            var ofFirst, ofLeft := TokenAmount(BpsOfInitial(bps), initial, sold), TokenAmount(BpsOfRemaining(bps), initial, sold);
            && TokenAmount(All, initial, sold) == left
            && ofFirst <= left && 10_000 * ofFirst <= initial * bps
            && (ofFirst == left || initial * bps < 10_000 * (ofFirst + 1))
            && (if left * bps >= 10_000 then 10_000 * ofLeft <= left * bps < 10_000 * (ofLeft + 1)
                else ofLeft == if left > 0 && bps > 0 then 1 else 0)
  {
    var left := Remaining(initial, sold);
    ShareRoundsDown(initial, bps);
    ShareRoundsDown(left, bps);
    MulMono(bps, 10_000, left);
    if left > 0 && bps > 0 {
      MulMono(1, left, bps);
    }
  }

  function RemainderSells(bps: seq<nat>): seq<Portion> {
    if bps == [] then [] else RemainderSells(bps[..|bps| - 1]) + [BpsOfRemaining(bps[|bps| - 1])]
  }

  /** Basis points of no more than the whole. */
  predicate Parts(bps: seq<nat>) {
    forall i | 0 <= i < |bps| :: bps[i] <= 10_000
  }

  /** What exact shares would keep, in units of `Scale`. */
  function Kept(bps: seq<nat>): nat
    requires Parts(bps)
  {
    if bps == [] then 1 else Kept(bps[..|bps| - 1]) * (10_000 - bps[|bps| - 1])
  }

  function Scale(k: nat): nat {
    if k == 0 then 1 else Scale(k - 1) * 10_000
  }

  lemma OneSellIsOffByLessThanAToken(initial: nat, sold: nat, b: nat)
    requires sold <= initial < WORD && b <= 10_000
    ensures var left, t := initial - sold, TokenAmount(BpsOfRemaining(b), initial, sold);
            t <= left && left * (10_000 - b) <= 10_000 * (left - t) + 10_000 && 10_000 * (left - t) <= left * (10_000 - b) + 10_000
  {
    var left := initial - sold;
    SellTakesTheMost(initial, sold, b);
    NeverOversells(initial, sold, [BpsOfRemaining(b)]);
    Distribute(left, 10_000 - b, b);
  }

  /** `left` tokens are, in units of `scale`, what `kept` of the first ones are, to within `k`. */
  predicate Within(left0: nat, kept: nat, left: nat, scale: nat, k: nat) {
    left * scale <= left0 * kept + k * scale && left0 * kept <= left * scale + k * scale
  }

  /** One sell more, with the error of the sells before scaled along. */
  lemma OneMoreError(left0: nat, kept: nat, left: nat, next: nat, scale: nat, k: nat, q: nat)
    requires q <= 10_000
    requires Within(left0, kept, left, scale, k)
    requires left * q <= 10_000 * next + 10_000 && 10_000 * next <= left * q + 10_000
    ensures Within(left0, kept * q, next, scale * 10_000, k + 1)
  {
    var a, c, e := left * scale, left0 * kept, k * scale;
    MulMono(a, c + e, q);
    MulMono(c, a + e, q);
    MulMono(q, 10_000, e);
    MulMono(10_000 * next, left * q + 10_000, scale);
    MulMono(left * q, 10_000 * next + 10_000, scale);
    Rearranged(left0, kept, left, next, scale, k, q);
  }

  lemma Rearranged(left0: nat, kept: nat, left: nat, next: nat, scale: nat, k: nat, q: nat)
    ensures (left * scale) * q == (left * q) * scale
    ensures (left0 * kept) * q == left0 * (kept * q)
    ensures (10_000 * next) * scale == next * (scale * 10_000)
    ensures (left * q + 10_000) * scale == (left * q) * scale + 10_000 * scale
    ensures (10_000 * next + 10_000) * scale == (10_000 * next) * scale + 10_000 * scale
    ensures (left0 * kept + k * scale) * q == (left0 * kept) * q + (k * scale) * q
    ensures (left * scale + k * scale) * q == (left * scale) * q + (k * scale) * q
    ensures (k + 1) * (scale * 10_000) == (k * scale) * 10_000 + scale * 10_000
  {
  }

  lemma OneSellMore(initial: nat, sold: nat, left0: nat, kept: nat, scale: nat, k: nat, b: nat)
    requires sold <= initial < WORD && b <= 10_000 && Within(left0, kept, initial - sold, scale, k)
    ensures TokenAmount(BpsOfRemaining(b), initial, sold) <= initial - sold
    ensures Within(left0, kept * (10_000 - b), initial - sold - TokenAmount(BpsOfRemaining(b), initial, sold), scale * 10_000, k + 1)
  {
    OneSellIsOffByLessThanAToken(initial, sold, b);
    OneMoreError(left0, kept, initial - sold, initial - sold - TokenAmount(BpsOfRemaining(b), initial, sold), scale, k, 10_000 - b);
  }

  /** Sells of the remainder leave what exact shares would keep, to within as many tokens as
      there are sells. */
  lemma {:induction false} RemainderSellsLeaveTheirShares(initial: nat, sold: nat, bps: seq<nat>)
    requires sold <= initial < WORD && Parts(bps)
    ensures SoldAfter(initial, sold, RemainderSells(bps)) <= initial
    ensures Within(initial - sold, Kept(bps), initial - SoldAfter(initial, sold, RemainderSells(bps)), Scale(|bps|), |bps|)
  {
    NeverOversells(initial, sold, RemainderSells(bps));
    if bps != [] {
      var n := |bps| - 1;
      var first := bps[..n];
      RemainderSellsLeaveTheirShares(initial, sold, first);
      RemainderSellsStep(initial, sold, bps);
      OneSellMore(initial, SoldAfter(initial, sold, RemainderSells(first)), initial - sold, Kept(first), Scale(n), n, bps[n]);
    }
  }

  lemma RemainderSellsStep(initial: nat, sold: nat, bps: seq<nat>)
    requires bps != []
    ensures var n := |bps| - 1;
            var before := SoldAfter(initial, sold, RemainderSells(bps[..n]));
            SoldAfter(initial, sold, RemainderSells(bps)) == before + TokenAmount(BpsOfRemaining(bps[n]), initial, before)
  {
    var sells := RemainderSells(bps);
    assert sells[..|sells| - 1] == RemainderSells(bps[..|bps| - 1]);
  }
}
