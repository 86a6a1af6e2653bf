/**
 * An abstract model of the token program a market drives: per-account
 * balances, per-mint supply and whether a mint may still mint. Only the
 * accounts one market touches are modelled: its collateral vault and, for each
 * user, a collateral account and an account of each outcome token.
 */
module Token {
  import opened Results

  const U64_MAX: int := 0xFFFF_FFFF_FFFF_FFFF

  /** Token amounts and supplies are `u64`. */
  type U64 = x: int | 0 <= x <= U64_MAX

  /** A user, standing for the owner of one collateral and two outcome token accounts. */
  type UserId = nat

  /** The two outcome mints of a market (the program's `WinningOutcome`). */
  datatype Outcome = OutcomeA | OutcomeB

  datatype Asset = Collateral | OutcomeToken(side: Outcome)

  /** One user's balances in the three assets of the market. */
  datatype Holding = Holding(collateral: U64, outcomeA: U64, outcomeB: U64)

  datatype Account = Vault | UserAccount(user: UserId, asset: Asset)

  /**
   * The ledger as the market sees it. `holdings[u]` are user `u`'s accounts;
   * `vault` is the market's collateral vault; `supplyA`/`supplyB` are the
   * outcome mints' supplies; `mintableA`/`mintableB` say whether the mint
   * still has a mint authority.
   */
  datatype Ledger = Ledger(
    holdings: seq<Holding>,
    vault: U64,
    supplyA: U64,
    supplyB: U64,
    mintableA: bool,
    mintableB: bool)

  /** The token program's failures that the market's calls can meet. */
  datatype TokenError = InsufficientFunds | Overflow | FixedSupply

  function Amount(h: Holding, asset: Asset): U64 {
    match asset
    case Collateral => h.collateral
    case OutcomeToken(OutcomeA) => h.outcomeA
    case OutcomeToken(OutcomeB) => h.outcomeB
  }

  function WithAmount(h: Holding, asset: Asset, v: U64): (r: Holding)
    ensures Amount(r, asset) == v
    ensures forall other :: other != asset ==> Amount(r, other) == Amount(h, other)
  {
    match asset
    case Collateral => h.(collateral := v)
    case OutcomeToken(OutcomeA) => h.(outcomeA := v)
    case OutcomeToken(OutcomeB) => h.(outcomeB := v)
  }

  /** How much of `asset` all users hold together. */
  function Sum(hs: seq<Holding>, asset: Asset): nat {
    if hs == [] then 0 else Sum(hs[..|hs| - 1], asset) + Amount(hs[|hs| - 1], asset)
  }

  /** One user's balance never exceeds what all users hold together. */
  lemma {:induction false} AmountLeSum(hs: seq<Holding>, i: nat, asset: Asset)
    requires i < |hs|
    ensures Amount(hs[i], asset) <= Sum(hs, asset)
  {
    if i < |hs| - 1 {
      AmountLeSum(hs[..|hs| - 1], i, asset);
    }
  }

  /** Changing one user's holding changes the total by exactly the difference. */
  lemma {:induction false} SumUpdate(hs: seq<Holding>, i: nat, h: Holding, asset: Asset)
    requires i < |hs|
    ensures Sum(hs[i := h], asset) == Sum(hs, asset) - Amount(hs[i], asset) + Amount(h, asset)
  {
    var last := |hs| - 1;
    if i < last {
      SumUpdate(hs[..last], i, h, asset);
      assert hs[i := h][..last] == hs[..last][i := h];
    } else {
      assert hs[i := h][..last] == hs[..last];
    }
  }

  /** `SumUpdate` for all three assets at once. */
  lemma SumsUpdate(hs: seq<Holding>, i: nat, h: Holding)
    requires i < |hs|
    ensures forall asset :: Sum(hs[i := h], asset) == Sum(hs, asset) - Amount(hs[i], asset) + Amount(h, asset)
  {
    forall asset
      ensures Sum(hs[i := h], asset) == Sum(hs, asset) - Amount(hs[i], asset) + Amount(h, asset)
    {
      SumUpdate(hs, i, h, asset);
    }
  }

  predicate Exists(l: Ledger, a: Account) {
    a.UserAccount? ==> a.user < |l.holdings|
  }

  function AssetOf(a: Account): Asset {
    if a.Vault? then Collateral else a.asset
  }

  function Balance(l: Ledger, a: Account): U64
    requires Exists(l, a)
  {
    match a
    case Vault => l.vault
    case UserAccount(u, asset) => Amount(l.holdings[u], asset)
  }

  function Supply(l: Ledger, side: Outcome): U64 {
    if side == OutcomeA then l.supplyA else l.supplyB
  }

  function Mintable(l: Ledger, side: Outcome): bool {
    if side == OutcomeA then l.mintableA else l.mintableB
  }

  function WithSupply(l: Ledger, side: Outcome, v: U64): (r: Ledger)
    ensures Supply(r, side) == v && Supply(r, Other(side)) == Supply(l, Other(side))
    ensures r.holdings == l.holdings && r.vault == l.vault
    ensures r.mintableA == l.mintableA && r.mintableB == l.mintableB
  {
    if side == OutcomeA then l.(supplyA := v) else l.(supplyB := v)
  }

  /** Mints, supplies and the set of accounts are the same in both ledgers. */
  predicate SameMints(l: Ledger, l': Ledger) {
    |l'.holdings| == |l.holdings| &&
    l'.supplyA == l.supplyA && l'.supplyB == l.supplyB &&
    l'.mintableA == l.mintableA && l'.mintableB == l.mintableB
  }

  /**
   * What the token program guarantees of every ledger it keeps: each outcome
   * supply is the sum of the balances in that outcome, and the collateral in
   * the vault and the users' accounts fits the collateral mint's u64 supply.
   */
  ghost predicate Consistent(l: Ledger) {
    l.supplyA == Sum(l.holdings, OutcomeToken(OutcomeA)) &&
    l.supplyB == Sum(l.holdings, OutcomeToken(OutcomeB)) &&
    l.vault + Sum(l.holdings, Collateral) <= U64_MAX
  }

  /** In a consistent ledger no user holds more of an outcome than its supply. */
  lemma BalanceLeSupply(l: Ledger, side: Outcome, u: UserId)
    requires Consistent(l) && u < |l.holdings|
    ensures Balance(l, UserAccount(u, OutcomeToken(side))) <= Supply(l, side)
  {
    AmountLeSum(l.holdings, u, OutcomeToken(side));
  }

  /** In a consistent ledger a user's collateral and the vault together fit a u64. */
  lemma CollateralFits(l: Ledger, u: UserId)
    requires Consistent(l) && u < |l.holdings|
    ensures l.vault + Balance(l, UserAccount(u, Collateral)) <= U64_MAX
  {
    AmountLeSum(l.holdings, u, Collateral);
  }

  function SetBalance(l: Ledger, a: Account, v: U64): (r: Ledger)
    requires Exists(l, a)
    ensures SameMints(l, r)
    ensures Balance(r, a) == v
    ensures forall b :: Exists(l, b) && b != a ==> Balance(r, b) == Balance(l, b)
  {
    match a
    case Vault => l.(vault := v)
    case UserAccount(u, asset) =>
      l.(holdings := l.holdings[u := WithAmount(l.holdings[u], asset, v)])
  }

  /**
   * The token program's transfer: fails with InsufficientFunds when the source
   * holds less than `amount`, is a no-op for a transfer to the same account,
   * and fails with Overflow when the destination would exceed a u64.
   */
  function Transfer(l: Ledger, from: Account, to: Account, amount: U64): (r: Result<Ledger, TokenError>)
    requires Exists(l, from) && Exists(l, to) && AssetOf(from) == AssetOf(to)
    ensures r.Ok? <==> amount <= Balance(l, from) && (from == to || Balance(l, to) + amount <= U64_MAX)
    ensures r.Err? ==> r.error == if Balance(l, from) < amount then InsufficientFunds else Overflow
    ensures r.Ok? ==> SameMints(l, r.value)
    ensures r.Ok? && from != to ==>
      Balance(r.value, from) == Balance(l, from) - amount &&
      Balance(r.value, to) == Balance(l, to) + amount
    ensures r.Ok? ==> forall b :: Exists(l, b) && b != from && b != to ==> Balance(r.value, b) == Balance(l, b)
    ensures r.Ok? ==>
      r.value.vault + Sum(r.value.holdings, Collateral) == l.vault + Sum(l.holdings, Collateral)
    ensures r.Ok? && Consistent(l) ==> Consistent(r.value)
  {
    if Balance(l, from) < amount then Err(InsufficientFunds)
    else if from == to then Ok(l)
    else if Balance(l, to) + amount > U64_MAX then Err(Overflow)
    else
      var l1 := SetBalance(l, from, Balance(l, from) - amount);
      var l2 := SetBalance(l1, to, Balance(l, to) + amount);
      TransferConserves(l, l1, l2, from, to, amount);
      Ok(l2)
  }

  lemma TransferConserves(l: Ledger, l1: Ledger, l2: Ledger, from: Account, to: Account, amount: U64)
    requires Exists(l, from) && Exists(l, to) && AssetOf(from) == AssetOf(to) && from != to
    requires amount <= Balance(l, from) && Balance(l, to) + amount <= U64_MAX
    requires l1 == SetBalance(l, from, Balance(l, from) - amount)
    requires l2 == SetBalance(l1, to, Balance(l, to) + amount)
    ensures l2.vault + Sum(l2.holdings, Collateral) == l.vault + Sum(l.holdings, Collateral)
    ensures Consistent(l) ==> Consistent(l2)
  {
    if from.UserAccount? {
      SumUpdate(l.holdings, from.user, l1.holdings[from.user], from.asset);
      forall other | other != from.asset
        ensures Sum(l1.holdings, other) == Sum(l.holdings, other)
      {
        SumUpdate(l.holdings, from.user, l1.holdings[from.user], other);
      }
    }
    if to.UserAccount? {
      SumUpdate(l1.holdings, to.user, l2.holdings[to.user], to.asset);
      forall other | other != to.asset
        ensures Sum(l2.holdings, other) == Sum(l1.holdings, other)
      {
        SumUpdate(l1.holdings, to.user, l2.holdings[to.user], other);
      }
    }
  }

  /**
   * The token program's mint_to on an outcome mint: fails with FixedSupply
   * once the mint authority is revoked, and with Overflow when the account or
   * the supply would exceed a u64.
   */
  function MintTo(l: Ledger, side: Outcome, u: UserId, amount: U64): (r: Result<Ledger, TokenError>)
    requires u < |l.holdings|
    ensures var acct := UserAccount(u, OutcomeToken(side));
      r.Ok? <==> Mintable(l, side) && Balance(l, acct) + amount <= U64_MAX && Supply(l, side) + amount <= U64_MAX
    ensures r.Ok? ==> |r.value.holdings| == |l.holdings|
    ensures r.Err? ==> r.error == if Mintable(l, side) then Overflow else FixedSupply
    ensures r.Ok? ==>
      Balance(r.value, UserAccount(u, OutcomeToken(side))) == Balance(l, UserAccount(u, OutcomeToken(side))) + amount &&
      Supply(r.value, side) == Supply(l, side) + amount
    ensures r.Ok? ==> forall b :: Exists(l, b) && b != UserAccount(u, OutcomeToken(side)) ==> Balance(r.value, b) == Balance(l, b)
    ensures r.Ok? ==>
      r.value.mintableA == l.mintableA && r.value.mintableB == l.mintableB &&
      Supply(r.value, Other(side)) == Supply(l, Other(side))
    ensures r.Ok? && Consistent(l) ==> Consistent(r.value)
  {
    var acct := UserAccount(u, OutcomeToken(side));
    if !Mintable(l, side) then Err(FixedSupply)
    else if Balance(l, acct) + amount > U64_MAX then Err(Overflow)
    else if Supply(l, side) + amount > U64_MAX then Err(Overflow)
    else
      var l1 := SetBalance(l, acct, Balance(l, acct) + amount);
      var l2 := if side == OutcomeA then l1.(supplyA := l.supplyA + amount) else l1.(supplyB := l.supplyB + amount);
      SupplyFollows(l, l1, acct);
      Ok(l2)
  }

  /**
   * The token program's burn on an outcome mint: fails with InsufficientFunds
   * when the account holds less than `amount`, and with Overflow when the
   * supply would fall below zero. Burning needs no mint authority.
   */
  function Burn(l: Ledger, side: Outcome, u: UserId, amount: U64): (r: Result<Ledger, TokenError>)
    requires u < |l.holdings|
    ensures var acct := UserAccount(u, OutcomeToken(side));
      r.Ok? <==> amount <= Balance(l, acct) && amount <= Supply(l, side)
    ensures r.Ok? ==> |r.value.holdings| == |l.holdings|
    ensures r.Err? ==> r.error == if Balance(l, UserAccount(u, OutcomeToken(side))) < amount then InsufficientFunds else Overflow
    ensures r.Ok? ==>
      Balance(r.value, UserAccount(u, OutcomeToken(side))) == Balance(l, UserAccount(u, OutcomeToken(side))) - amount &&
      Supply(r.value, side) == Supply(l, side) - amount
    ensures r.Ok? ==> forall b :: Exists(l, b) && b != UserAccount(u, OutcomeToken(side)) ==> Balance(r.value, b) == Balance(l, b)
    ensures r.Ok? ==>
      r.value.mintableA == l.mintableA && r.value.mintableB == l.mintableB &&
      Supply(r.value, Other(side)) == Supply(l, Other(side))
    ensures r.Ok? && Consistent(l) ==> Consistent(r.value)
  {
    var acct := UserAccount(u, OutcomeToken(side));
    if Balance(l, acct) < amount then Err(InsufficientFunds)
    else if Supply(l, side) < amount then Err(Overflow)
    else
      var l1 := SetBalance(l, acct, Balance(l, acct) - amount);
      var l2 := if side == OutcomeA then l1.(supplyA := l.supplyA - amount) else l1.(supplyB := l.supplyB - amount);
      SupplyFollows(l, l1, acct);
      Ok(l2)
  }

  function Other(side: Outcome): Outcome {
    if side == OutcomeA then OutcomeB else OutcomeA
  }

  /** Setting one outcome balance moves that outcome's sum by the same amount and no other sum. */
  lemma SupplyFollows(l: Ledger, l1: Ledger, acct: Account)
    requires acct.UserAccount? && acct.asset.OutcomeToken? && acct.user < |l.holdings|
    requires exists v: U64 :: l1 == SetBalance(l, acct, v)
    ensures Sum(l1.holdings, acct.asset) == Sum(l.holdings, acct.asset) - Balance(l, acct) + Balance(l1, acct)
    ensures forall other :: other != acct.asset ==> Sum(l1.holdings, other) == Sum(l.holdings, other)
  {
    var u := acct.user;
    SumUpdate(l.holdings, u, l1.holdings[u], acct.asset);
    forall other | other != acct.asset
      ensures Sum(l1.holdings, other) == Sum(l.holdings, other)
    {
      SumUpdate(l.holdings, u, l1.holdings[u], other);
    }
  }

  /**
   * The token program's set_authority(MintTokens, None) on an outcome mint:
   * removes the mint authority for good; fails with FixedSupply when there is
   * none left to remove.
   */
  function RevokeMintAuthority(l: Ledger, side: Outcome): (r: Result<Ledger, TokenError>)
    ensures r.Ok? <==> Mintable(l, side)
    ensures r.Err? ==> r.error == FixedSupply
    ensures r.Ok? ==>
      !Mintable(r.value, side) && Mintable(r.value, Other(side)) == Mintable(l, Other(side)) &&
      r.value.holdings == l.holdings && r.value.vault == l.vault &&
      r.value.supplyA == l.supplyA && r.value.supplyB == l.supplyB
  {
    if !Mintable(l, side) then Err(FixedSupply)
    else if side == OutcomeA then Ok(l.(mintableA := false))
    else Ok(l.(mintableB := false))
  }

  /** Once a mint's authority is revoked, no amount can be minted to anyone. */
  lemma NoMintAfterRevoke(l: Ledger, side: Outcome, u: UserId, amount: U64)
    requires u < |l.holdings| && RevokeMintAuthority(l, side).Ok?
    ensures MintTo(RevokeMintAuthority(l, side).value, side, u, amount) == Err(FixedSupply)
  {
  }
}
