/** The shape of a rebuilt grid: spacing, symmetry, rounding, profit margin and coverage of the price. */
module GridGeometry {
  import opened Prelude
  import opened Rounding
  import opened Grid

  lemma SpacingPositive(c: Config, anchor: real)
    requires Sane(c) && anchor > 0.0
    ensures Spacing(c, anchor) > 0.0
    ensures Spacing(c, anchor) * (c.levels - 1) as real == anchor * c.bandRatio
  {
    MulLeftStrict(anchor, 0.0, c.bandRatio);
    assert Upper(c, anchor) - Lower(c, anchor) == anchor * c.bandRatio;
    QuotientPositive(anchor * c.bandRatio, (c.levels - 1) as real);
  }

  lemma QuotientPositive(x: real, y: real)
    requires x > 0.0 && y > 0.0
    ensures x / y > 0.0 && x / y * y == x
  {}

  lemma ExactIncreasing(c: Config, anchor: real, i: int, j: int)
    requires Sane(c) && anchor > 0.0 && i < j
    ensures ExactBuy(c, anchor, j) - ExactBuy(c, anchor, i) >= Spacing(c, anchor) > 0.0
  {
    SpacingPositive(c, anchor);
    var step := Spacing(c, anchor);
    MulLeft(step, 1.0, (j - i) as real);
    assert step * j as real - step * i as real == step * (j - i) as real;
  }

  /** The unrounded prices run from the lower to the upper edge, symmetrically about the anchor. */
  lemma ExactSymmetric(c: Config, anchor: real, i: int)
    requires Sane(c) && anchor > 0.0
    ensures ExactBuy(c, anchor, 0) == Lower(c, anchor)
    ensures ExactBuy(c, anchor, c.levels - 1) == Upper(c, anchor)
    ensures ExactBuy(c, anchor, i) + ExactBuy(c, anchor, c.levels - 1 - i) == 2.0 * anchor
  {
    SpacingPositive(c, anchor);
    var step := Spacing(c, anchor);
    assert step * i as real + step * (c.levels - 1 - i) as real == step * (c.levels - 1) as real;
  }

  /** Rounded buy prices keep the order of the levels, strictly so once levels are a cent apart. */
  lemma BuyOrder(c: Config, anchor: real, i: nat, j: nat)
    requires Sane(c) && anchor > 0.0 && i < j
    ensures LevelAt(c, anchor, i).buyPrice <= LevelAt(c, anchor, j).buyPrice
    ensures Spacing(c, anchor) >= 0.01 ==> LevelAt(c, anchor, i).buyPrice < LevelAt(c, anchor, j).buyPrice
  {
    ExactIncreasing(c, anchor, i, j);
    Round2Monotone(ExactBuy(c, anchor, i), ExactBuy(c, anchor, j));
    if Spacing(c, anchor) >= 0.01 {
      Round2Strict(ExactBuy(c, anchor, i), ExactBuy(c, anchor, j));
    }
  }

  predicate Sorted(levels: seq<Level>) {
    forall i, j | 0 <= i < j < |levels| :: levels[i].buyPrice <= levels[j].buyPrice
  }

  /** On every reachable grid the levels have ids 1..n and rounded buy prices in order. */
  lemma ReachableSorted(s: State)
    requires Inv(s)
    ensures Sorted(s.levels)
    ensures forall i | 0 <= i < |s.levels| :: s.levels[i].id == i + 1
  {
    if s.anchor > 0.0 {
      forall i, j | 0 <= i < j < |s.levels| ensures s.levels[i].buyPrice <= s.levels[j].buyPrice {
        BuyOrder(s.cfg, s.anchor, i, j);
        assert s.levels[i].(state := Idle) == LevelAt(s.cfg, s.anchor, i);
        assert s.levels[j].(state := Idle) == LevelAt(s.cfg, s.anchor, j);
      }
      forall i | 0 <= i < |s.levels| ensures s.levels[i].id == i + 1 {
        assert s.levels[i].(state := Idle) == LevelAt(s.cfg, s.anchor, i);
      }
    }
  }

  // ----- The take-profit margin -----

  lemma MarginRounded(i: nat, buy: real, ratio: real)
    requires (buy >= 0.0 || Round2(buy) > 0.0) && ratio > 0.0
    ensures LevelOf(i, buy, ratio).sellPrice >= LevelOf(i, buy, ratio).buyPrice
    ensures buy * ratio >= 0.01 ==> LevelOf(i, buy, ratio).sellPrice > LevelOf(i, buy, ratio).buyPrice
  {
    if buy < 0.0 { Round2Monotone(buy, 0.0); }
    var gain := buy * ratio;
    MulLeft(ratio, 0.0, buy);
    assert buy * (1.0 + ratio) == buy + gain;
    Round2Monotone(buy, buy + gain);
    if gain >= 0.01 { Round2Strict(buy, buy + gain); }
  }

  /** A level that rounds to a positive buy price never sells below it, and gains if a cent is to be had. */
  lemma SellCoversBuy(c: Config, anchor: real, i: nat)
    requires Sane(c)
    requires LevelAt(c, anchor, i).buyPrice > 0.0
    ensures LevelAt(c, anchor, i).sellPrice >= LevelAt(c, anchor, i).buyPrice
    ensures ExactBuy(c, anchor, i) * c.takeProfitRatio >= 0.01 ==>
              LevelAt(c, anchor, i).sellPrice > LevelAt(c, anchor, i).buyPrice
  {
    MarginRounded(i, ExactBuy(c, anchor, i), c.takeProfitRatio);
  }

  /** A level gains exactly when its unrounded sell price is at least half a cent above its rounded buy price. */
  lemma SellGainsIff(c: Config, anchor: real, i: nat)
    requires Sane(c)
    requires LevelAt(c, anchor, i).buyPrice > 0.0
    ensures LevelAt(c, anchor, i).sellPrice > LevelAt(c, anchor, i).buyPrice <==>
            ExactSell(c, anchor, i) >= LevelAt(c, anchor, i).buyPrice + 0.005
  {
    GainOf(i, ExactBuy(c, anchor, i), c.takeProfitRatio);
  }

  lemma GainOf(i: nat, buy: real, ratio: real)
    requires LevelOf(i, buy, ratio).buyPrice >= 0.0
    ensures LevelOf(i, buy, ratio).sellPrice > LevelOf(i, buy, ratio).buyPrice <==>
            buy * (1.0 + ratio) >= LevelOf(i, buy, ratio).buyPrice + 0.005
  {
    Round2Above(buy, buy * (1.0 + ratio));
  }

  ghost predicate NoLossLayout(c: Config)
    requires Sane(c)
  {
    forall anchor: real, i: nat | anchor > 0.0 && i < c.levels ::
      LevelAt(c, anchor, i).sellPrice >= LevelAt(c, anchor, i).buyPrice
  }

  /**
   The configuration has no upper bound on the band. Every level of every grid
   sells at or above its buy price exactly when the band is at most twice the
   anchor; a wider band has levels at negative prices, where a take-profit
   factor above one lowers the price.
   */
  lemma NoLossLayoutIff(c: Config)
    requires Sane(c)
    ensures NoLossLayout(c) <==> c.bandRatio <= 2.0
  {
    if c.bandRatio <= 2.0 {
      forall anchor: real, i: nat | anchor > 0.0 && i < c.levels
        ensures LevelAt(c, anchor, i).sellPrice >= LevelAt(c, anchor, i).buyPrice
      {
        LevelsNonNegative(c, anchor, i);
        MarginRounded(i, ExactBuy(c, anchor, i), c.takeProfitRatio);
      }
    } else {
      var anchor := WideBandWitness(c);
      assert LevelAt(c, anchor, 0).sellPrice < LevelAt(c, anchor, 0).buyPrice;
    }
  }

  lemma LevelsNonNegative(c: Config, anchor: real, i: nat)
    requires Sane(c) && anchor > 0.0 && c.bandRatio <= 2.0
    ensures ExactBuy(c, anchor, i) >= 0.0
  {
    MulLeft(anchor, c.bandRatio * 0.5, 1.0);
    if i > 0 { ExactIncreasing(c, anchor, 0, i); }
    ExactSymmetric(c, anchor, 0);
  }

  lemma WideBandWitness(c: Config) returns (anchor: real)
    requires Sane(c) && c.bandRatio > 2.0
    ensures anchor > 0.0
    ensures LevelAt(c, anchor, 0).sellPrice < LevelAt(c, anchor, 0).buyPrice
  {
    var excess := c.bandRatio * 0.5 - 1.0;
    anchor := AnchorForLoss(excess, c.takeProfitRatio);
    ExactSymmetric(c, anchor, 0);
    assert Lower(c, anchor) == -(anchor * excess);
    LossRounded(ExactBuy(c, anchor, 0), c.takeProfitRatio);
  }

  lemma AnchorForLoss(excess: real, ratio: real) returns (anchor: real)
    requires excess > 0.0 && ratio > 0.0
    ensures anchor > 0.0 && -(anchor * excess) * ratio == -0.01
  {
    MulLeftStrict(excess, 0.0, ratio);
    QuotientPositive(0.01, excess * ratio);
    anchor := 0.01 / (excess * ratio);
    assert anchor * (excess * ratio) == 0.01;
  }

  lemma LossRounded(buy: real, ratio: real)
    requires buy * ratio == -0.01
    ensures LevelOf(0, buy, ratio).sellPrice < LevelOf(0, buy, ratio).buyPrice
  {
    assert buy * (1.0 + ratio) == buy - 0.01;
    Round2Strict(buy * (1.0 + ratio), buy);
  }

  // ----- Coverage -----

  /** The anchor is close enough to this price that a dynamic grid stays where it is. */
  predicate Settled(c: Config, anchor: real, price: real) {
    anchor > 0.0 && price > 0.0 && Abs(price - anchor) < c.recenterThresholdRatio * anchor
  }

  predicate Brackets(c: Config, anchor: real, price: real)
    requires c.levels >= 2
  {
    LevelAt(c, anchor, 0).buyPrice <= price <= LevelAt(c, anchor, c.levels - 1).buyPrice
  }

  ghost predicate AlwaysBrackets(c: Config)
    requires Sane(c)
  {
    forall anchor: real, price: real | Settled(c, anchor, price) && WholeCents(price) :: Brackets(c, anchor, price)
  }

  /**
   A settled grid brackets every price quoted in whole cents exactly when the
   recentring threshold is at most half the band. Nothing in the configuration
   checks enforces that.
   */
  lemma BracketsIff(c: Config)
    requires Sane(c)
    ensures AlwaysBrackets(c) <==> c.recenterThresholdRatio <= c.bandRatio * 0.5
  {
    if c.recenterThresholdRatio <= c.bandRatio * 0.5 {
      forall anchor: real, price: real | Settled(c, anchor, price) && WholeCents(price)
        ensures Brackets(c, anchor, price)
      {
        SettledBracketed(c, anchor, price);
      }
    } else {
      var anchor, price := UncoveredWitness(c);
      assert !Brackets(c, anchor, price);
    }
  }

  lemma SettledBracketed(c: Config, anchor: real, price: real)
    requires Sane(c) && c.recenterThresholdRatio <= c.bandRatio * 0.5
    requires Settled(c, anchor, price) && WholeCents(price)
    ensures Brackets(c, anchor, price)
  {
    WithinBand(c, anchor, price);
    ExactSymmetric(c, anchor, 0);
    RoundedBetween(ExactBuy(c, anchor, 0), price, ExactBuy(c, anchor, c.levels - 1));
  }

  lemma WithinBand(c: Config, anchor: real, price: real)
    requires c.recenterThresholdRatio <= c.bandRatio * 0.5
    requires Settled(c, anchor, price)
    ensures Lower(c, anchor) <= price <= Upper(c, anchor)
  {
    MulLeft(anchor, c.recenterThresholdRatio, c.bandRatio * 0.5);
  }

  lemma RoundedBetween(lo: real, price: real, hi: real)
    requires lo <= price <= hi && WholeCents(price)
    ensures Round2(lo) <= price <= Round2(hi)
  {
    Round2Monotone(lo, price);
    Round2Monotone(price, hi);
    Round2OnCents(price);
  }

  /** A price in whole cents just above the top level. */
  lemma PriceAbove(c: Config, anchor: real) returns (price: real)
    requires Sane(c) && anchor > 0.0
    ensures WholeCents(price) && Upper(c, anchor) + 0.01 < price <= Upper(c, anchor) + 0.02
    ensures price > anchor && !Brackets(c, anchor, price)
  {
    var cents := (Upper(c, anchor) * 100.0).Floor + 2;
    price := cents as real / 100.0;
    assert price * 100.0 == cents as real;
    MulLeftStrict(anchor, 0.0, c.bandRatio * 0.5);
    ExactSymmetric(c, anchor, 0);
  }

  lemma AnchorForGap(gap: real) returns (anchor: real)
    requires gap > 0.0
    ensures anchor > 0.0 && anchor * gap == 0.03
  {
    QuotientPositive(0.03, gap);
    anchor := 0.03 / gap;
  }

  lemma GapSettles(anchor: real, price: real, r: real, half: real, top: real)
    requires 0.0 < anchor < price <= top + 0.02
    requires top == anchor + anchor * half
    requires anchor * (r - half) == 0.03
    ensures Abs(price - anchor) < r * anchor
  {
    assert anchor * (r - half) == r * anchor - anchor * half;
  }

  lemma AboveIsSettled(c: Config, anchor: real, price: real, half: real, gap: real)
    requires 0.0 < anchor < price <= Upper(c, anchor) + 0.02
    requires half == c.bandRatio * 0.5 && gap == c.recenterThresholdRatio - half
    requires anchor * gap == 0.03
    ensures Settled(c, anchor, price)
  {
    GapSettles(anchor, price, c.recenterThresholdRatio, half, Upper(c, anchor));
  }

  lemma UncoveredWitness(c: Config) returns (anchor: real, price: real)
    requires Sane(c) && c.recenterThresholdRatio > c.bandRatio * 0.5
    ensures Settled(c, anchor, price) && WholeCents(price) && !Brackets(c, anchor, price)
  {
    var half := c.bandRatio * 0.5;
    var gap := c.recenterThresholdRatio - half;
    anchor := AnchorForGap(gap);
    price := PriceAbove(c, anchor);
    AboveIsSettled(c, anchor, price, half, gap);
  }
}
