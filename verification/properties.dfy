/**
 * Properties of the settlement rules that relate several instructions:
 * split and merge are inverse, a second claim pays nothing, and settlement
 * is final over any sequence of instructions.
 */
module Properties {
  import opened Results
  import opened Token
  import opened Settlement

  /**
   * Splitting `amount` and then merging gives back exactly the state before
   * the split, for a user who held no matched pair before: their collateral
   * is restored, their outcome balances return to what they were (zero on at
   * least one side), and the locked total, the vault and the supplies return
   * to their prior values. The merge may come at any later (or earlier) time
   * before the deadline, as a separate instruction.
   */
  lemma SplitThenMergeRestores(s: MarketState, user: UserId, amount: U64, now: I64, later: I64)
    requires Inv(s) && HasUser(s, user)
    requires Min(BalanceOf(s, user, OutcomeToken(OutcomeA)), BalanceOf(s, user, OutcomeToken(OutcomeB))) == 0
    requires Split(s, user, amount, now).Ok?
    requires later < s.settlementDeadline
    ensures Merge(Split(s, user, amount, now).value, user, later) == Ok(s)
  {
    var s1 := Split(s, user, amount, now).value;
    var s2 := Merge(s1, user, later).value;
    assert s2.ledger.holdings[user] == s.ledger.holdings[user];
    assert s2.ledger.holdings == s.ledger.holdings;
  }

  /**
   * A claim leaves nothing to claim: claiming again right away succeeds, pays
   * nothing and changes nothing, so over both claims the user receives
   * exactly their winning-side balance at the first claim.
   */
  lemma SecondClaimPaysNothing(s: MarketState, user: UserId)
    requires Inv(s) && HasUser(s, user) && s.isSettled
    ensures var s1 := Claim(s, user).value;
      Claim(s1, user) == Ok(s1) &&
      BalanceOf(Claim(s1, user).value, user, Collateral) ==
        BalanceOf(s, user, Collateral) + BalanceOf(s, user, OutcomeToken(s.winningOutcome.value))
  {
    var s1 := Claim(s, user).value;
    var s2 := Claim(s1, user).value;
    assert s2.ledger.holdings[user] == s1.ledger.holdings[user];
    assert s2.ledger.holdings == s1.ledger.holdings;
  }

  /** Once a market is settled, neither outcome mint can mint to anyone. */
  lemma NoMintingOnceSettled(s: MarketState, side: Outcome, user: UserId, amount: U64)
    requires Inv(s) && HasUser(s, user) && s.isSettled
    ensures MintTo(s.ledger, side, user, amount) == Err(FixedSupply)
  {
  }

  /** The vault always holds enough to pay every winning token still outstanding. */
  lemma VaultCoversWinners(s: MarketState, user: UserId)
    requires Inv(s) && HasUser(s, user) && s.isSettled
    ensures BalanceOf(s, user, OutcomeToken(s.winningOutcome.value)) <= s.ledger.vault
  {
    BalanceLeSupply(s.ledger, s.winningOutcome.value, user);
  }

  /** The five instructions after initialisation, with their arguments. */
  datatype Instruction =
    | SplitTokens(user: UserId, amount: U64)
    | MergeTokens(user: UserId)
    | SetWinner(winner: Outcome)
    | ClaimRewards(user: UserId)

  /**
   * The state after one instruction at time `now`: the instruction's new state
   * if it succeeds, the old state if it fails (including when the user has no
   * accounts in this market).
   */
  function Step(s: MarketState, ins: Instruction, now: I64): (s': MarketState)
    requires Inv(s)
    ensures Inv(s')
    ensures s.isSettled ==> s'.isSettled && s'.winningOutcome == s.winningOutcome
  {
    match ins
    case SplitTokens(u, amount) => if HasUser(s, u) then Commit(s, Split(s, u, amount, now)) else s
    case MergeTokens(u) => if HasUser(s, u) then Commit(s, Merge(s, u, now)) else s
    case SetWinner(w) => Commit(s, SetWinningSide(s, w, now))
    case ClaimRewards(u) => if HasUser(s, u) then Commit(s, Claim(s, u)) else s
  }

  /** The state after a sequence of timestamped instructions. */
  function Run(s: MarketState, trace: seq<(Instruction, I64)>): (s': MarketState)
    requires Inv(s)
    ensures Inv(s')
    ensures |s'.ledger.holdings| == |s.ledger.holdings|
    decreases |trace|
  {
    if trace == [] then s
    else
      var s1 := Step(s, trace[0].0, trace[0].1);
      StepKeepsUsers(s, trace[0].0, trace[0].1);
      Run(s1, trace[1..])
  }

  lemma StepKeepsUsers(s: MarketState, ins: Instruction, now: I64)
    requires Inv(s)
    ensures |Step(s, ins, now).ledger.holdings| == |s.ledger.holdings|
  {
  }

  /**
   * Settlement is final: after any sequence of instructions a settled market
   * is still settled with the same winner.
   */
  lemma {:induction false} SettlementIsFinal(s: MarketState, trace: seq<(Instruction, I64)>)
    requires Inv(s) && s.isSettled
    ensures Run(s, trace).isSettled && Run(s, trace).winningOutcome == s.winningOutcome
    decreases |trace|
  {
    if trace != [] {
      SettlementIsFinal(Step(s, trace[0].0, trace[0].1), trace[1..]);
    }
  }

  /**
   * After settlement the locked collateral and both outcome supplies can only
   * go down: no instruction sequence mints or locks anything more.
   */
  lemma {:induction false} NothingGrowsOnceSettled(s: MarketState, trace: seq<(Instruction, I64)>)
    requires Inv(s) && s.isSettled
    ensures var s' := Run(s, trace);
      s'.totalCollateralLocked <= s.totalCollateralLocked &&
      s'.ledger.supplyA <= s.ledger.supplyA && s'.ledger.supplyB <= s.ledger.supplyB
    decreases |trace|
  {
    if trace != [] {
      var s1 := Step(s, trace[0].0, trace[0].1);
      assert s1.totalCollateralLocked <= s.totalCollateralLocked;
      assert s1.ledger.supplyA <= s.ledger.supplyA && s1.ledger.supplyB <= s.ledger.supplyB;
      NothingGrowsOnceSettled(s1, trace[1..]);
    }
  }

  /**
   * The deadline cuts both ways: once it has passed on a market that was never
   * settled, every instruction fails (split, merge and settlement as expired,
   * claim as not settled), so the market and its vault stay as they are for good.
   */
  lemma {:induction false} ExpiredOpenMarketIsFrozen(s: MarketState, trace: seq<(Instruction, I64)>)
    requires Inv(s) && !s.isSettled
    requires forall i :: 0 <= i < |trace| ==> trace[i].1 >= s.settlementDeadline
    ensures Run(s, trace) == s
    decreases |trace|
  {
    if trace != [] {
      assert Step(s, trace[0].0, trace[0].1) == s;
      ExpiredOpenMarketIsFrozen(s, trace[1..]);
    }
  }
}
