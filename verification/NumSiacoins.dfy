/** The coin supply of types/block.go, against what modules/consensus pays out block by block. */
module NumSiacoins {
  import Multiples
  import opened Wire

  const SIACOIN_PRECISION: nat := 1_000_000_000_000_000_000_000_000

  /** The constants that differ between builds, and the sum of the genesis outputs. */
  datatype Params = Params(
    initialCoinbase: nat, minimumCoinbase: nat, hardforkHeight: nat, subsidyFrequency: nat,
    subsidyPerBlock: nat, initialSubsidy: nat, genesis: nat)
  {
    predicate Valid() {
      && minimumCoinbase <= initialCoinbase < TWO_64 && subsidyFrequency > 0
    }
  }

  const BLOCKS_PER_YEAR := 52560

  function Standard(genesis: nat): (p: Params)
    ensures p.Valid() && DeflationBlocks(p) + 1 < TWO_64
  {
    Params(300_000, 30_000, 298_000, BLOCKS_PER_YEAR / 12, 30_000 * SIACOIN_PRECISION,
           30_000 * BLOCKS_PER_YEAR * SIACOIN_PRECISION, genesis)
  }

  // ----- block by block -----

  function Greater(a: int, b: int): int { if a < b then b else a }

  /** The coinbase as its documentation gives it. */
  function CoinbaseSpec(p: Params, height: nat): nat
    requires p.Valid()
  {
    Greater(p.initialCoinbase - height, p.minimumCoinbase) * SIACOIN_PRECISION
  }

  /** applyFoundationSubsidy: what is paid to the Foundation in the block at this height. */
  function FoundationPayout(p: Params, height: nat): nat
    requires p.Valid()
  {
    if height < p.hardforkHeight then 0
    else if (height - p.hardforkHeight) % p.subsidyFrequency != 0 then 0
    else if height == p.hardforkHeight then p.initialSubsidy
    else p.subsidyPerBlock * p.subsidyFrequency
  }

  /** Everything issued up to and including this height. */
  function Issued(p: Params, height: nat): nat
    requires p.Valid()
  {
    p.genesis + Coinbases(p, height) + Payouts(p, height)
  }

  function Coinbases(p: Params, height: nat): nat
    requires p.Valid()
  {
    CoinbaseSpec(p, height) + if height == 0 then 0 else Coinbases(p, height - 1)
  }

  function Payouts(p: Params, height: nat): nat
    requires p.Valid()
  {
    FoundationPayout(p, height) + if height == 0 then 0 else Payouts(p, height - 1)
  }

  // ----- the closed form -----

  /** CalculateCoinbase, whose subtraction wraps around. */
  function CalculateCoinbase(p: Params, height: nat): (c: nat)
    requires p.Valid() && height < TWO_64
    ensures c == CoinbaseSpec(p, height)
  {
    var base := (p.initialCoinbase - height) % TWO_64;
    var base' := if height > p.initialCoinbase || base < p.minimumCoinbase then p.minimumCoinbase else base;
    base' * SIACOIN_PRECISION
  }

  const HALF: nat := 500_000_000_000_000_000_000_000

  function DeflationBlocks(p: Params): nat
    requires p.Valid()
  {
    p.initialCoinbase - p.minimumCoinbase
  }

  lemma Triangle(x: int, h: int)
    ensures (x + 1) * h + (x - h) == x * (h + 1)
  {
  }

  /** While the coinbase falls by one coin a block, its sum is the average of its ends times the blocks. */
  lemma {:induction false} RampSum(p: Params, height: nat)
    requires p.Valid() && height <= DeflationBlocks(p)
    ensures Coinbases(p, height) == (2 * p.initialCoinbase - height) * (height + 1) * HALF
  {
    if height > 0 {
      RampSum(p, height - 1);
      Triangle(2 * p.initialCoinbase - height, height);
    }
  }

  /** After that it grows by the minimum every block. */
  lemma {:induction false} FlatSum(p: Params, height: nat)
    requires p.Valid() && height >= DeflationBlocks(p)
    ensures Coinbases(p, height) ==
      Coinbases(p, DeflationBlocks(p)) + p.minimumCoinbase * (height - DeflationBlocks(p)) * SIACOIN_PRECISION
  {
    var d := DeflationBlocks(p);
    if height > d {
      FlatSum(p, height - 1);
      OneMore(p.minimumCoinbase, height - d);
    }
  }

  lemma OneMore(m: nat, n: nat)
    requires n > 0
    ensures m * n == m * (n - 1) + m
  {
  }

  lemma NextQuotient(n: nat, f: nat)
    requires f > 0 && n > 0
    ensures n / f == (n - 1) / f + if n % f == 0 then 1 else 0
  {
    var q, r := (n - 1) / f, (n - 1) % f;
    Multiples.Quotient(n - 1, f);
    if r + 1 == f {
      Multiples.QuotientUnique(n, f, q + 1, 0);
    } else {
      Multiples.QuotientUnique(n, f, q, r + 1);
    }
  }

  lemma {:induction false} NoPayouts(p: Params, height: nat)
    requires p.Valid() && height < p.hardforkHeight
    ensures Payouts(p, height) == 0
  {
    if height > 0 {
      NoPayouts(p, height - 1);
    }
  }

  /** One initial payout, then one regular payout for every full period since the hardfork. */
  lemma {:induction false} PayoutSum(p: Params, height: nat)
    requires p.Valid() && height >= p.hardforkHeight
    ensures Payouts(p, height) ==
      p.initialSubsidy + p.subsidyPerBlock * p.subsidyFrequency * ((height - p.hardforkHeight) / p.subsidyFrequency)
  {
    var n, f, each := height - p.hardforkHeight, p.subsidyFrequency, p.subsidyPerBlock * p.subsidyFrequency;
    if n == 0 {
      Multiples.QuotientUnique(0, f, 0, 0);
      if height > 0 {
        NoPayouts(p, height - 1);
      }
    } else {
      PayoutSum(p, height - 1);
      NextQuotient(n, f);
      if n % f == 0 {
        OneMore(each, n / f);
      }
    }
  }

  lemma Average(a: nat, b: nat)
    ensures (a * SIACOIN_PRECISION + b * SIACOIN_PRECISION) / 2 == (a + b) * HALF
  {
  }

  lemma Reorder(x: nat, y: nat)
    ensures x * HALF * y == x * y * HALF && x * SIACOIN_PRECISION * y == x * y * SIACOIN_PRECISION
  {
    assert x * HALF * y == HALF * (x * y);
    assert x * SIACOIN_PRECISION * y == SIACOIN_PRECISION * (x * y);
  }

  /** The average that the code takes, times the number of blocks, with exact halving. */
  lemma RampClosed(p: Params, height: nat)
    requires p.Valid() && height <= DeflationBlocks(p)
    ensures (CoinbaseSpec(p, 0) + CoinbaseSpec(p, height)) / 2 * (height + 1) == Coinbases(p, height)
  {
    hide Coinbases;
    Average(p.initialCoinbase, p.initialCoinbase - height);
    Reorder(2 * p.initialCoinbase - height, height + 1);
    RampSum(p, height);
  }

  lemma FlatClosed(p: Params, height: nat)
    requires p.Valid() && height > DeflationBlocks(p)
    ensures CoinbaseSpec(p, height) == CoinbaseSpec(p, DeflationBlocks(p))
    ensures Coinbases(p, DeflationBlocks(p)) + CoinbaseSpec(p, height) * (height - DeflationBlocks(p)) ==
      Coinbases(p, height)
  {
    hide Coinbases;
    Reorder(p.minimumCoinbase, height - DeflationBlocks(p));
    FlatSum(p, height);
  }

  lemma SomeCoinbase(p: Params, height: nat)
    requires p.Valid() && height <= DeflationBlocks(p) && p.initialCoinbase > 0
    ensures Coinbases(p, height) > 0
  {
    hide Coinbases;
    RampSum(p, height);
    Positive(2 * p.initialCoinbase - height, height + 1);
  }

  lemma Positive(x: nat, y: nat)
    requires x > 0 && y > 0
    ensures x * y * HALF > 0
  {
  }

  /** The Standard build in numbers: 300 000 coins for the first block, one fewer for each block down to 30 000, and
      a year's worth of the minimum to the Foundation at block 298 000, then a month's worth every 4380 blocks. */
  lemma StandardValues(genesis: nat, height: nat)
    ensures var p, coins := Standard(genesis), CoinbaseSpec(Standard(genesis), height);
      && (height <= 270_000 ==> coins == (300_000 - height) * 1_000_000_000_000_000_000_000_000)
      && (height >= 270_000 ==> coins == 30_000 * 1_000_000_000_000_000_000_000_000)
      && (height == 298_000 ==> FoundationPayout(p, height) == 30_000 * 52_560 * 1_000_000_000_000_000_000_000_000)
      && (height > 298_000 && (height - 298_000) % 4_380 == 0 ==>
            FoundationPayout(p, height) == 30_000 * 4_380 * 1_000_000_000_000_000_000_000_000)
      && (height < 298_000 || (height - 298_000) % 4_380 != 0 ==> FoundationPayout(p, height) == 0)
  {
  }

  /** CalculateNumSiacoins gives the sum of all that was ever issued, at every height but the largest one, and
      there too unless the coinbase falls for all of 2^64 blocks: then the number of blocks wraps around. */
  method CalculateNumSiacoins(p: Params, height: nat) returns (total: nat)
    requires p.Valid() && height < TWO_64
    ensures total == Issued(p, height) <==> height + 1 < TWO_64 || DeflationBlocks(p) + 1 < TWO_64
  {
    hide Coinbases, Payouts, CoinbaseSpec, CalculateCoinbase;
    total := p.genesis;
    var deflationBlocks := p.initialCoinbase - p.minimumCoinbase;
    var avg := (CalculateCoinbase(p, 0) + CalculateCoinbase(p, height)) / 2;
    if height <= deflationBlocks {
      RampClosed(p, height);
      var blocks := (height + 1) % TWO_64;
      if blocks == 0 {
        SomeCoinbase(p, height);
      }
      total := total + avg * blocks;
    } else {
      FlatClosed(p, height);
      RampClosed(p, deflationBlocks);
      total := total + avg * ((deflationBlocks + 1) % TWO_64);
      total := total + CalculateCoinbase(p, height) * (height - deflationBlocks);
    }
    if height >= p.hardforkHeight {
      PayoutSum(p, height);
      total := total + p.initialSubsidy;
      var perSubsidy := p.subsidyPerBlock * p.subsidyFrequency;
      var subsidies := (height - p.hardforkHeight) / p.subsidyFrequency;
      total := total + perSubsidy * subsidies;
    } else {
      NoPayouts(p, height);
    }
  }
}
