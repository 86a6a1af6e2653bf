/**
 * The program's instructions, as the program runs them: each one checks its
 * guards in order. Splitting, merging and claiming then call the token
 * program step by step on a working copy of the ledger, and only when every
 * step has succeeded write the ledger and the market record back; a failing
 * step returns its error with nothing written, as a failed instruction
 * reverts. Settling writes the settled flag and the winner first, as the
 * program does, and then revokes both mint authorities; both revocations are
 * proved unable to fail. Each instruction is proved to have exactly the
 * effect the settlement rules give it.
 */
module PredictionMarket {
  import opened Results
  import opened Token
  import opened Settlement
  import Seeds

  /** What an instruction returns to its caller: success, or the error that reverted it. */
  function Status(r: Result<MarketState, Error>): (st: Result<(), Error>)
    ensures st.Ok? <==> r.Ok?
    ensures st.Err? ==> st.error == r.error
  {
    if r.Ok? then Ok(()) else Err(r.error)
  }

  /** One market account, together with the token accounts it controls. */
  class Market {
    var marketId: Seeds.U32
    var authority: Pubkey
    var settlementDeadline: I64
    var isSettled: bool
    var winningOutcome: Option<Outcome>
    var totalCollateralLocked: U64
    var ledger: Ledger

    function State(): MarketState
      reads this
    {
      MarketState(marketId, authority, settlementDeadline, isSettled, winningOutcome, totalCollateralLocked, ledger)
    }

    ghost predicate Valid()
      reads this
    {
      Inv(State())
    }

    constructor (marketId: Seeds.U32, authority: Pubkey, settlementDeadline: I64, collateral: seq<U64>)
      requires Sum(OpenedHoldings(collateral), Collateral) <= U64_MAX
      ensures Valid()
      ensures State() == MarketState(marketId, authority, settlementDeadline, false, None, 0,
                                     Ledger(OpenedHoldings(collateral), 0, 0, 0, true, true))
    {
      this.marketId := marketId;
      this.authority := authority;
      this.settlementDeadline := settlementDeadline;
      this.isSettled := false;
      this.winningOutcome := None;
      this.totalCollateralLocked := 0;
      this.ledger := Ledger(OpenedHoldings(collateral), 0, 0, 0, true, true);
      OpenedHoldingsSums(collateral);
    }

    /**
     * initialize_market: creates the market when its deadline lies after `now`.
     * `collateral` are the users' collateral balances when the market opens.
     */
    static method InitializeMarket(marketId: Seeds.U32, authority: Pubkey, settlementDeadline: I64, now: I64,
                                   collateral: seq<U64>)
      returns (r: Result<Market, Error>)
      requires Sum(OpenedHoldings(collateral), Collateral) <= U64_MAX
      ensures var spec := Initialize(marketId, authority, settlementDeadline, now, collateral);
        (r.Ok? <==> spec.Ok?) && (r.Err? ==> r.error == spec.error) &&
        (r.Ok? ==> fresh(r.value) && r.value.Valid() && r.value.State() == spec.value)
    {
      if !(settlementDeadline > now) {
        return Err(InvalidSettlementDeadline);
      }
      var m := new Market(marketId, authority, settlementDeadline, collateral);
      r := Ok(m);
    }

    /** split_tokens: locks `amount` of the user's collateral and mints them `amount` of each outcome. */
    method SplitTokens(user: UserId, amount: U64, now: I64) returns (r: Result<(), Error>)
      requires Valid() && HasUser(State(), user)
      modifies this
      ensures Valid()
      ensures r == Status(Split(old(State()), user, amount, now))
      ensures State() == Commit(old(State()), Split(old(State()), user, amount, now))
    {
      if isSettled {
        return Err(MarketAlreadySettled);
      }
      if !(now < settlementDeadline) {
        return Err(MarketExpired);
      }
      if !(amount > 0) {
        return Err(InvalidAmount);
      }
      var moved := Transfer(ledger, UserAccount(user, Collateral), Vault, amount);
      if moved.Err? {
        return Err(TokenFailure(moved.error));
      }
      // Neither mint can fail: each supply equals the vault, which the
      // collateral just moved in still fits.
      BalanceLeSupply(ledger, OutcomeA, user);
      BalanceLeSupply(ledger, OutcomeB, user);
      CollateralFits(ledger, user);
      var l := MintTo(moved.value, OutcomeA, user, amount).value;
      l := MintTo(l, OutcomeB, user, amount).value;
      ledger := l;
      totalCollateralLocked := totalCollateralLocked + amount;
      r := Ok(());
    }

    /** merge_tokens: burns the user's matched pairs and pays their collateral back. */
    method MergeTokens(user: UserId, now: I64) returns (r: Result<(), Error>)
      requires Valid() && HasUser(State(), user)
      modifies this
      ensures Valid()
      ensures r == Status(Merge(old(State()), user, now))
      ensures State() == Commit(old(State()), Merge(old(State()), user, now))
    {
      if isSettled {
        return Err(MarketAlreadySettled);
      }
      if !(now < settlementDeadline) {
        return Err(MarketExpired);
      }
      var aBal := Balance(ledger, UserAccount(user, OutcomeToken(OutcomeA)));
      var bBal := Balance(ledger, UserAccount(user, OutcomeToken(OutcomeB)));
      var amount := Min(aBal, bBal);
      if !(amount > 0) {
        return Err(InvalidAmount);
      }
      // The burns and the payout cannot fail: the user's balances are within
      // the supplies, which equal the vault.
      BalanceLeSupply(ledger, OutcomeA, user);
      BalanceLeSupply(ledger, OutcomeB, user);
      CollateralFits(ledger, user);
      var l := Burn(ledger, OutcomeA, user, amount).value;
      l := Burn(l, OutcomeB, user, amount).value;
      l := Transfer(l, Vault, UserAccount(user, Collateral), amount).value;
      ledger := l;
      totalCollateralLocked := totalCollateralLocked - amount;
      r := Ok(());
    }

    /** set_winning_side: records the winner once and revokes minting on both outcome mints. */
    method SetWinningSide(winner: Outcome, now: I64) returns (r: Result<(), Error>)
      requires Valid()
      modifies this
      ensures Valid()
      ensures r == Status(Settlement.SetWinningSide(old(State()), winner, now))
      ensures State() == Commit(old(State()), Settlement.SetWinningSide(old(State()), winner, now))
    {
      if isSettled {
        return Err(MarketAlreadySettled);
      }
      if !(now < settlementDeadline) {
        return Err(MarketExpired);
      }
      isSettled := true;
      winningOutcome := Some(winner);
      var l := RevokeMintAuthority(ledger, OutcomeA).value;
      l := RevokeMintAuthority(l, OutcomeB).value;
      ledger := l;
      r := Ok(());
    }

    /** claim_rewards: burns the user's winning tokens and pays as much collateral out of the vault. */
    method ClaimRewards(user: UserId) returns (r: Result<(), Error>)
      requires Valid() && HasUser(State(), user)
      modifies this
      ensures Valid()
      ensures r == Status(Claim(old(State()), user))
      ensures State() == Commit(old(State()), Claim(old(State()), user))
    {
      if !isSettled {
        return Err(MarketNotSettled);
      }
      // A settled market always records its winner, so the program's
      // WinningOutcomeNotSet error cannot occur.
      var winner := winningOutcome.value;
      var amount := Balance(ledger, UserAccount(user, OutcomeToken(winner)));
      BalanceLeSupply(ledger, winner, user);
      CollateralFits(ledger, user);
      var l := Burn(ledger, winner, user, amount).value;
      l := Transfer(l, Vault, UserAccount(user, Collateral), amount).value;
      ledger := l;
      totalCollateralLocked := totalCollateralLocked - amount;
      r := Ok(());
    }
  }
}
