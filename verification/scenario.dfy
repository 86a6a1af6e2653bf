/**
 * The life of one market as the program's own test suite drives it, with the
 * balances it expects at each point, derived from the instructions' contracts.
 */
module Scenario {
  import opened Results
  import opened Token
  import opened Settlement
  import opened PredictionMarket

  method EndToEnd() {
    // User 0 holds 1 000 000 units of collateral and user 1 holds 500 000;
    // the deadline is a day away.
    var accounts := OpenedHoldings([1000000, 500000]);
    assert accounts == [Holding(1000000, 0, 0), Holding(500000, 0, 0)];
    assert Sum(accounts, Collateral) == 1500000 by {
      assert accounts[..1][..0] == [];
    }
    var created := Market.InitializeMarket(1, 7, 86400, 0, [1000000, 500000]);
    assert created.Ok?;
    var m := created.value;
    SplitAndMerge(m);
    SettleAndClaim(m);
  }

  /** User 0 splits 100 000, fails a zero split, merges everything back and fails a second merge. */
  method SplitAndMerge(m: Market)
    requires m.Valid() && !m.isSettled && m.settlementDeadline == 86400 && |m.ledger.holdings| == 2
    requires m.ledger.holdings[0] == Holding(1000000, 0, 0) && m.totalCollateralLocked == 0
    modifies m
    ensures m.Valid() && !m.isSettled && m.settlementDeadline == 86400 && |m.ledger.holdings| == 2
    ensures m.ledger.holdings[1] == old(m.ledger.holdings[1]) && m.totalCollateralLocked == 0
  {
    var st := m.SplitTokens(0, 100000, 10);
    assert st.Ok?;
    assert BalanceOf(m.State(), 0, OutcomeToken(OutcomeA)) == 100000;
    assert BalanceOf(m.State(), 0, OutcomeToken(OutcomeB)) == 100000;
    assert m.ledger.vault == 100000 && m.totalCollateralLocked == 100000;

    st := m.SplitTokens(0, 0, 11);
    assert st == Err(InvalidAmount);

    st := m.MergeTokens(0, 12);
    assert st.Ok?;
    assert BalanceOf(m.State(), 0, Collateral) == 1000000;
    assert m.totalCollateralLocked == 0;

    st := m.MergeTokens(0, 13);
    assert st == Err(InvalidAmount);
  }

  /** User 1 splits 200 000, outcome A wins, and user 1 claims twice. */
  method SettleAndClaim(m: Market)
    requires m.Valid() && !m.isSettled && m.settlementDeadline == 86400 && |m.ledger.holdings| == 2
    requires m.ledger.holdings[1] == Holding(500000, 0, 0)
    modifies m
    ensures m.Valid() && m.isSettled && m.winningOutcome == Some(OutcomeA) && |m.ledger.holdings| == 2
    ensures m.ledger.holdings[1] == Holding(500000, 0, 200000)
  {
    var st := m.SplitTokens(1, 200000, 14);
    assert st.Ok?;

    st := m.SetWinningSide(OutcomeA, 15);
    assert st.Ok? && m.winningOutcome == Some(OutcomeA);
    st := m.SetWinningSide(OutcomeB, 16);
    assert st == Err(MarketAlreadySettled);

    st := m.ClaimRewards(1);
    assert st.Ok?;
    assert BalanceOf(m.State(), 1, Collateral) == 500000;
    assert BalanceOf(m.State(), 1, OutcomeToken(OutcomeA)) == 0;
    assert BalanceOf(m.State(), 1, OutcomeToken(OutcomeB)) == 200000;

    st := m.ClaimRewards(1);
    assert st.Ok? && BalanceOf(m.State(), 1, Collateral) == 500000;

    st := m.SplitTokens(0, 1000, 17);
    assert st == Err(MarketAlreadySettled);
    st := m.MergeTokens(0, 18);
    assert st == Err(MarketAlreadySettled);
  }
}
