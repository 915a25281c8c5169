/** The life of one level: after its sale is reported it is free, alone of all levels, and is bought again. */
module GridCycle {
  import opened Prelude
  import opened Grid
  import opened GridGeometry
  import opened GridPairing
  import opened GridDrift
  import opened GridJournal

  /** A reported sale frees its level, whatever state that was in, and touches nothing else and no other level. */
  lemma SaleFreesLevel(c: Config, events: seq<Event>, gridId: nat)
    ensures var s, s1 := After(c, events), After(c, events + [SellFill(gridId)]);
            && Log(c, events + [SellFill(gridId)]) == Log(c, events)
            && s1.cfg == s.cfg && s1.anchor == s.anchor && s1.rebuilds == s.rebuilds && |s1.levels| == |s.levels|
            && (forall j | 0 <= j < |s.levels| && j != gridId - 1 :: s1.levels[j] == s.levels[j])
            && (1 <= gridId <= |s.levels| ==> s1.levels[gridId - 1] == s.levels[gridId - 1].(state := Idle))
  {
    OneMore(c, events, SellFill(gridId));
    assert Stamp(OnSellFill(After(c, events), gridId)) == [];
  }

  function Ticks(price: real, n: nat): (events: seq<Event>)
    ensures |events| == n
  {
    seq(n, i => Tick(price))
  }

  /** From this position on, the log contains a BUY with this id. */
  ghost predicate BuysFromOn(log: seq<Entry>, from: nat, gridId: nat) {
    exists j :: from <= j < |log| && log[j].intent.side == Buy && log[j].intent.gridId == gridId
  }

  lemma BuysEarlier(log: seq<Entry>, from: nat, later: nat, gridId: nat)
    requires from <= later && BuysFromOn(log, later, gridId)
    ensures BuysFromOn(log, from, gridId)
  {
    var j :| later <= j < |log| && log[j].intent.side == Buy && log[j].intent.gridId == gridId;
  }

  /** One tick at a resting price buys the first eligible level and leaves the others as they are. */
  lemma RestingTick(s: State, price: real, k: nat)
    requires Inv(s) && Resting(s, price) && k < |s.levels| && Eligible(s.levels[k], price)
    ensures var o, first := OnTick(s, price), FirstEligible(s.levels, price, 0);
            && Inv(o.state) && Resting(o.state, price) && |o.state.levels| == |s.levels|
            && first <= k && o.out == [BuyIntent(s, first)] && s.levels[first].id == first + 1
            && (first < k ==> Eligible(o.state.levels[k], price) && FirstEligible(o.state.levels, price, 0) > first)
  {
    CountAfterTick(s, price);
    StepInv(s, Tick(price));
    ReachableSorted(s);
  }

  /** The same within a run: the level is bought by this tick, or still can be, by fewer of them. */
  lemma RestingTickInRun(c: Config, events: seq<Event>, price: real, k: nat)
    requires CanBuy(After(c, events), price, k)
    ensures var s, s1 := After(c, events), After(c, events + [Tick(price)]);
            var log, log1 := Log(c, events), Log(c, events + [Tick(price)]);
            && |log1| == |log| + 1
            && (if Ahead(s, price, k) == 0 then log1[|log|].intent.side == Buy && log1[|log|].intent.gridId == k + 1
                else CanBuy(s1, price, k) && Ahead(s1, price, k) < Ahead(s, price, k))
  {
    ReachableInv(c, events);
    OneMore(c, events, Tick(price));
    RestingTick(After(c, events), price, k);
  }

  predicate CanBuy(s: State, price: real, k: nat) {
    k < |s.levels| && Eligible(s.levels[k], price) && Resting(s, price)
  }

  /** How many levels there are from the first eligible one up to this one. */
  function Ahead(s: State, price: real, k: nat): nat
    requires CanBuy(s, price, k)
  {
    k - FirstEligible(s.levels, price, 0)
  }

  lemma AheadBound(s: State, price: real, k: nat)
    requires CanBuy(s, price, k)
    ensures Ahead(s, price, k) < |s.levels|
  {}

  /** A level that can be bought is bought once there have been more ticks than there are levels ahead of it. */
  lemma {:induction false} EventuallyBought(c: Config, all: seq<Event>, m: nat, price: real, k: nat)
    requires m < |all| && forall j | m <= j < |all| :: all[j] == Tick(price)
    requires CanBuy(After(c, all[..m]), price, k) && |all| - m > Ahead(After(c, all[..m]), price, k)
    ensures BuysFromOn(Log(c, all), |Log(c, all[..m])|, k + 1)
    decreases |all| - m
  {
    assert all[..m + 1] == all[..m] + [Tick(price)];
    RestingTickInRun(c, all[..m], price, k);
    if Ahead(After(c, all[..m]), price, k) == 0 {
      LogExtends(c, all, m + 1);
      PrefixBuys(Log(c, all[..m + 1]), Log(c, all), |Log(c, all[..m])|, k + 1);
    } else {
      EventuallyBought(c, all, m + 1, price, k);
      BuysEarlier(Log(c, all), |Log(c, all[..m])|, |Log(c, all[..m + 1])|, k + 1);
    }
  }

  lemma PrefixBuys(log: seq<Entry>, longer: seq<Entry>, j: nat, gridId: nat)
    requires log <= longer && j < |log| && log[j].intent.side == Buy && log[j].intent.gridId == gridId
    ensures BuysFromOn(longer, j, gridId)
  {
    assert longer[j] == log[j];
  }

  lemma FreedCanBuy(s: State, s1: State, k: nat, price: real)
    requires k < |s.levels| && price <= s.levels[k].buyPrice && Resting(s, price)
    requires s1.cfg == s.cfg && s1.anchor == s.anchor && |s1.levels| == |s.levels|
    requires s1.levels[k] == s.levels[k].(state := Idle)
    ensures CanBuy(s1, price, k)
  {}

  /**
   The cycle of every level closes: after any run, once its sale is reported
   and the price rests at or below its buy price, the level is bought again
   within as many ticks as the grid has levels.
   */
  lemma CycleCloses(c: Config, events: seq<Event>, gridId: nat, price: real)
    requires var s := After(c, events);
             && 1 <= gridId <= |s.levels| && price <= s.levels[gridId - 1].buyPrice && Resting(s, price)
    ensures var n := |After(c, events).levels|;
            BuysFromOn(Log(c, events + [SellFill(gridId)] + Ticks(price, n)), |Log(c, events)|, gridId)
  {
    var k := gridId - 1;
    var sold := events + [SellFill(gridId)];
    SaleFreesLevel(c, events, gridId);
    FreedCanBuy(After(c, events), After(c, sold), k, price);
    AheadBound(After(c, sold), price, k);
    var all := sold + Ticks(price, |After(c, events).levels|);
    assert all[..|sold|] == sold;
    EventuallyBought(c, all, |sold|, price, k);
  }
}
