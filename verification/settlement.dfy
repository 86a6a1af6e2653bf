/**
 * The settlement rules of one binary-outcome market, as pure functions from
 * the market's state before an instruction to its state after it (or to the
 * instruction's error, in which case nothing changes). Each function states
 * the net effect of an instruction directly; the program's instructions,
 * which reach the same effect through a sequence of token-program calls,
 * are proved equal to these functions.
 */
module Settlement {
  import opened Results
  import opened Token
  import Seeds

  /** A unix timestamp, `i64`. */
  type I64 = x: int | -0x8000_0000_0000_0000 <= x < 0x8000_0000_0000_0000

  /** An account's public key. */
  type Pubkey = nat

  /** The program's error codes. */
  datatype Error =
    | InvalidSettlementDeadline
    | MarketAlreadySettled
    | MarketExpired
    | InvalidAmount
    | MathOverflow
    | MarketNotSettled
    | WinningOutcomeNotSet
    | TokenFailure(cause: TokenError)

  /** The market record together with the token accounts of the market. */
  datatype MarketState = MarketState(
    marketId: Seeds.U32,
    authority: Pubkey,
    settlementDeadline: I64,
    isSettled: bool,
    winningOutcome: Option<Outcome>,
    totalCollateralLocked: U64,
    ledger: Ledger)

  /**
   * The accounting invariant of a market:
   * - the settled flag is set exactly when a winner is recorded;
   * - the vault holds exactly the collateral the market counts as locked;
   * - before settlement both outcome supplies equal that total and both mints can mint;
   * - after settlement the winning supply equals that total and neither mint can mint.
   */
  ghost predicate Inv(s: MarketState) {
    var l := s.ledger;
    Consistent(l) &&
    (s.isSettled <==> s.winningOutcome.Some?) &&
    l.vault == s.totalCollateralLocked &&
    (!s.isSettled ==>
      l.supplyA == s.totalCollateralLocked && l.supplyB == s.totalCollateralLocked &&
      l.mintableA && l.mintableB) &&
    (s.isSettled ==>
      Supply(l, s.winningOutcome.value) == s.totalCollateralLocked &&
      !l.mintableA && !l.mintableB)
  }

  predicate HasUser(s: MarketState, user: UserId) {
    user < |s.ledger.holdings|
  }

  /** The user's balance of `asset`, with the user's accounts written as a holding. */
  function BalanceOf(s: MarketState, user: UserId, asset: Asset): U64
    requires HasUser(s, user)
  {
    Balance(s.ledger, UserAccount(user, asset))
  }

  /** `u64::min`. */
  function Min(a: U64, b: U64): (m: U64)
    ensures m <= a && m <= b && (m == a || m == b)
  {
    if a <= b then a else b
  }

  /** Users' accounts when the market opens: their collateral, and no outcome tokens. */
  function OpenedHoldings(collateral: seq<U64>): (hs: seq<Holding>)
    ensures |hs| == |collateral|
    ensures forall u :: 0 <= u < |hs| ==> hs[u] == Holding(collateral[u], 0, 0)
  {
    if collateral == [] then []
    else OpenedHoldings(collateral[..|collateral| - 1]) + [Holding(collateral[|collateral| - 1], 0, 0)]
  }

  lemma {:induction false} OpenedHoldingsSums(collateral: seq<U64>)
    ensures Sum(OpenedHoldings(collateral), OutcomeToken(OutcomeA)) == 0
    ensures Sum(OpenedHoldings(collateral), OutcomeToken(OutcomeB)) == 0
  {
    if collateral != [] {
      var front := collateral[..|collateral| - 1];
      OpenedHoldingsSums(front);
      assert OpenedHoldings(collateral)[..|collateral| - 1] == OpenedHoldings(front);
    }
  }

  /** The state an instruction leaves behind: its new state on success, the old one on failure. */
  function Commit(s: MarketState, r: Result<MarketState, Error>): (s': MarketState)
    ensures r.Ok? ==> s' == r.value
    ensures r.Err? ==> s' == s
  {
    if r.Ok? then r.value else s
  }

  /**
   * initialize_market: fails with InvalidSettlementDeadline unless the deadline
   * lies after `now`; otherwise opens an unsettled market with nothing locked,
   * fresh outcome mints that the market may mint from, an empty vault, and the
   * users' collateral accounts as they were.
   */
  function Initialize(marketId: Seeds.U32, authority: Pubkey, settlementDeadline: I64, now: I64, collateral: seq<U64>)
    : (r: Result<MarketState, Error>)
    ensures r.Ok? <==> settlementDeadline > now
    ensures r.Err? ==> r.error == InvalidSettlementDeadline
    ensures r.Ok? ==>
      r.value.marketId == marketId && r.value.authority == authority &&
      r.value.settlementDeadline == settlementDeadline &&
      !r.value.isSettled && r.value.winningOutcome == None && r.value.totalCollateralLocked == 0
    ensures r.Ok? ==>
      var l := r.value.ledger;
      |l.holdings| == |collateral| && l.vault == 0 && l.supplyA == 0 && l.supplyB == 0 &&
      l.mintableA && l.mintableB &&
      forall u :: 0 <= u < |collateral| ==>
        Balance(l, UserAccount(u, Collateral)) == collateral[u] &&
        Balance(l, UserAccount(u, OutcomeToken(OutcomeA))) == 0 &&
        Balance(l, UserAccount(u, OutcomeToken(OutcomeB))) == 0
  {
    if !(settlementDeadline > now) then Err(InvalidSettlementDeadline)
    else
      var l := Ledger(OpenedHoldings(collateral), 0, 0, 0, true, true);
      Ok(MarketState(marketId, authority, settlementDeadline, false, None, 0, l))
  }

  /** A freshly initialised market satisfies the invariant whenever the users' collateral fits a u64. */
  lemma InitializeEstablishesInv(marketId: Seeds.U32, authority: Pubkey, settlementDeadline: I64, now: I64, collateral: seq<U64>)
    requires Sum(OpenedHoldings(collateral), Collateral) <= U64_MAX
    ensures var r := Initialize(marketId, authority, settlementDeadline, now, collateral);
      r.Ok? ==> Inv(r.value)
  {
    OpenedHoldingsSums(collateral);
  }

  /**
   * split_tokens: the guards in their order (settled, expired, zero amount),
   * then the token program's InsufficientFunds. On success the user's
   * collateral moves into the vault, the user receives `amount` of each
   * outcome, both supplies and the locked total grow by `amount`, and
   * nothing else changes. The overflow checks never fire in a market that
   * keeps its invariant.
   */
  function Split(s: MarketState, user: UserId, amount: U64, now: I64): (r: Result<MarketState, Error>)
    requires Inv(s) && HasUser(s, user)
    ensures r.Ok? <==>
      !s.isSettled && now < s.settlementDeadline && 0 < amount <= BalanceOf(s, user, Collateral)
    ensures r.Err? ==>
      r.error == if s.isSettled then MarketAlreadySettled
        else if now >= s.settlementDeadline then MarketExpired
        else if amount == 0 then InvalidAmount
        else TokenFailure(InsufficientFunds)
    ensures r.Ok? ==>
      var s' := r.value;
      HasUser(s', user) &&
      BalanceOf(s', user, Collateral) == BalanceOf(s, user, Collateral) - amount &&
      BalanceOf(s', user, OutcomeToken(OutcomeA)) == BalanceOf(s, user, OutcomeToken(OutcomeA)) + amount &&
      BalanceOf(s', user, OutcomeToken(OutcomeB)) == BalanceOf(s, user, OutcomeToken(OutcomeB)) + amount &&
      s'.ledger.vault == s.ledger.vault + amount &&
      s'.ledger.supplyA == s.ledger.supplyA + amount &&
      s'.ledger.supplyB == s.ledger.supplyB + amount &&
      s'.totalCollateralLocked == s.totalCollateralLocked + amount
    ensures r.Ok? ==> OnlyUserChanged(s, r.value, user) && r.value.isSettled == s.isSettled
    ensures r.Ok? ==> Inv(r.value)
  {
    if s.isSettled then Err(MarketAlreadySettled)
    else if now >= s.settlementDeadline then Err(MarketExpired)
    else if amount == 0 then Err(InvalidAmount)
    else
      var l := s.ledger;
      var h := l.holdings[user];
      if h.collateral < amount then Err(TokenFailure(InsufficientFunds))
      else
        BalanceLeSupply(l, OutcomeA, user);
        BalanceLeSupply(l, OutcomeB, user);
        CollateralFits(l, user);
        var h' := Holding(h.collateral - amount, h.outcomeA + amount, h.outcomeB + amount);
        SumsUpdate(l.holdings, user, h');
        var l' := l.(holdings := l.holdings[user := h'], vault := l.vault + amount,
                     supplyA := l.supplyA + amount, supplyB := l.supplyB + amount);
        Ok(s.(totalCollateralLocked := s.totalCollateralLocked + amount, ledger := l'))
  }

  /**
   * The market record's fixed fields, the mint authorities and every other
   * user's accounts are the same in both states.
   */
  predicate OnlyUserChanged(s: MarketState, s': MarketState, user: UserId) {
    s'.marketId == s.marketId && s'.authority == s.authority &&
    s'.settlementDeadline == s.settlementDeadline && s'.winningOutcome == s.winningOutcome &&
    s'.ledger.mintableA == s.ledger.mintableA && s'.ledger.mintableB == s.ledger.mintableB &&
    |s'.ledger.holdings| == |s.ledger.holdings| &&
    forall v :: 0 <= v < |s.ledger.holdings| && v != user ==> s'.ledger.holdings[v] == s.ledger.holdings[v]
  }

  /**
   * merge_tokens: the same settled and expired guards as split; the amount is
   * the smaller of the user's two outcome balances and must be positive. On
   * success that many of each outcome are burnt, as much collateral leaves
   * the vault for the user, and the locked total falls by it.
   */
  function Merge(s: MarketState, user: UserId, now: I64): (r: Result<MarketState, Error>)
    requires Inv(s) && HasUser(s, user)
    ensures var amount := Min(BalanceOf(s, user, OutcomeToken(OutcomeA)), BalanceOf(s, user, OutcomeToken(OutcomeB)));
      r.Ok? <==> !s.isSettled && now < s.settlementDeadline && amount > 0
    ensures r.Err? ==>
      r.error == if s.isSettled then MarketAlreadySettled
        else if now >= s.settlementDeadline then MarketExpired
        else InvalidAmount
    ensures r.Ok? ==>
      var s' := r.value;
      var amount := Min(BalanceOf(s, user, OutcomeToken(OutcomeA)), BalanceOf(s, user, OutcomeToken(OutcomeB)));
      HasUser(s', user) &&
      BalanceOf(s', user, Collateral) == BalanceOf(s, user, Collateral) + amount &&
      BalanceOf(s', user, OutcomeToken(OutcomeA)) == BalanceOf(s, user, OutcomeToken(OutcomeA)) - amount &&
      BalanceOf(s', user, OutcomeToken(OutcomeB)) == BalanceOf(s, user, OutcomeToken(OutcomeB)) - amount &&
      s'.ledger.vault == s.ledger.vault - amount &&
      s'.ledger.supplyA == s.ledger.supplyA - amount &&
      s'.ledger.supplyB == s.ledger.supplyB - amount &&
      s'.totalCollateralLocked == s.totalCollateralLocked - amount
    ensures r.Ok? ==> OnlyUserChanged(s, r.value, user) && r.value.isSettled == s.isSettled
    ensures r.Ok? ==> Inv(r.value)
  {
    if s.isSettled then Err(MarketAlreadySettled)
    else if now >= s.settlementDeadline then Err(MarketExpired)
    else
      var l := s.ledger;
      var h := l.holdings[user];
      var amount := Min(h.outcomeA, h.outcomeB);
      if amount == 0 then Err(InvalidAmount)
      else
        BalanceLeSupply(l, OutcomeA, user);
        CollateralFits(l, user);
        var h' := Holding(h.collateral + amount, h.outcomeA - amount, h.outcomeB - amount);
        SumsUpdate(l.holdings, user, h');
        var l' := l.(holdings := l.holdings[user := h'], vault := l.vault - amount,
                     supplyA := l.supplyA - amount, supplyB := l.supplyB - amount);
        Ok(s.(totalCollateralLocked := s.totalCollateralLocked - amount, ledger := l'))
  }

  /**
   * set_winning_side: a one-way latch. Fails with MarketAlreadySettled once a
   * winner is recorded and with MarketExpired at or after the deadline;
   * otherwise records the winner and revokes minting on both outcome mints,
   * leaving every balance, supply and the locked total as they were.
   */
  function SetWinningSide(s: MarketState, winner: Outcome, now: I64): (r: Result<MarketState, Error>)
    requires Inv(s)
    ensures r.Ok? <==> !s.isSettled && now < s.settlementDeadline
    ensures r.Err? ==> r.error == if s.isSettled then MarketAlreadySettled else MarketExpired
    ensures r.Ok? ==>
      r.value.isSettled && r.value.winningOutcome == Some(winner) &&
      !r.value.ledger.mintableA && !r.value.ledger.mintableB
    ensures r.Ok? ==>
      r.value.marketId == s.marketId && r.value.authority == s.authority &&
      r.value.settlementDeadline == s.settlementDeadline &&
      r.value.totalCollateralLocked == s.totalCollateralLocked &&
      r.value.ledger.holdings == s.ledger.holdings && r.value.ledger.vault == s.ledger.vault &&
      r.value.ledger.supplyA == s.ledger.supplyA && r.value.ledger.supplyB == s.ledger.supplyB
    ensures r.Ok? ==> Inv(r.value)
  {
    if s.isSettled then Err(MarketAlreadySettled)
    else if now >= s.settlementDeadline then Err(MarketExpired)
    else
      var l' := s.ledger.(mintableA := false, mintableB := false);
      Ok(s.(isSettled := true, winningOutcome := Some(winner), ledger := l'))
  }

  /**
   * claim_rewards: fails with MarketNotSettled before settlement; afterwards
   * burns the user's whole winning-side balance, pays exactly that much
   * collateral out of the vault, lowers the locked total by it and leaves the
   * losing-side balance alone. It never fails once the market is settled.
   */
  function Claim(s: MarketState, user: UserId): (r: Result<MarketState, Error>)
    requires Inv(s) && HasUser(s, user)
    ensures r.Ok? <==> s.isSettled
    ensures r.Err? ==> r.error == MarketNotSettled
    ensures r.Ok? ==>
      var s' := r.value;
      var w := s.winningOutcome.value;
      var paid := BalanceOf(s, user, OutcomeToken(w));
      HasUser(s', user) &&
      BalanceOf(s', user, OutcomeToken(w)) == 0 &&
      BalanceOf(s', user, Collateral) == BalanceOf(s, user, Collateral) + paid &&
      BalanceOf(s', user, OutcomeToken(Other(w))) == BalanceOf(s, user, OutcomeToken(Other(w))) &&
      s'.ledger.vault == s.ledger.vault - paid &&
      Supply(s'.ledger, w) == Supply(s.ledger, w) - paid &&
      Supply(s'.ledger, Other(w)) == Supply(s.ledger, Other(w)) &&
      s'.totalCollateralLocked == s.totalCollateralLocked - paid
    ensures r.Ok? ==> OnlyUserChanged(s, r.value, user) && r.value.isSettled == s.isSettled
    ensures r.Ok? ==> Inv(r.value)
  {
    if !s.isSettled then Err(MarketNotSettled)
    else
      var l := s.ledger;
      var w := s.winningOutcome.value;
      var h := l.holdings[user];
      var paid := Amount(h, OutcomeToken(w));
      BalanceLeSupply(l, w, user);
      CollateralFits(l, user);
      var h' := WithAmount(h, OutcomeToken(w), 0).(collateral := h.collateral + paid);
      SumsUpdate(l.holdings, user, h');
      var l' := WithSupply(l.(holdings := l.holdings[user := h'], vault := l.vault - paid), w, Supply(l, w) - paid);
      Ok(s.(totalCollateralLocked := s.totalCollateralLocked - paid, ledger := l'))
  }
}
