/** The part of the bank module that swaps use: balances, and the total supply of each denomination. */
module Bank {
  import opened Basics
  import opened SwapTypes
  import opened MapSums

  datatype Account = Account(addr: Address, denom: Denom)

  datatype BankState = BankState(balances: map<Account, int>, total: map<Denom, int>)

  function Balance(b: BankState, addr: Address, denom: Denom): int {
    var k := Account(addr, denom);
    if k in b.balances then b.balances[k] else 0
  }

  function Total(b: BankState, denom: Denom): int {
    if denom in b.total then b.total[denom] else 0
  }

  function Credit(b: BankState, addr: Address, c: Coin): BankState {
    b.(balances := b.balances[Account(addr, c.denom) := Balance(b, addr, c.denom) + c.amount])
  }

  function Debit(b: BankState, addr: Address, c: Coin): BankState {
    Credit(b, addr, Coin(c.denom, -c.amount))
  }

  function Move(b: BankState, from: Address, to: Address, c: Coin): Result<BankState, Error> {
    if Balance(b, from, c.denom) < c.amount then Err(ErrInsufficientFunds)
    else Ok(Credit(Debit(b, from, c), to, c))
  }

  function SendFromAccountToModule(env: Env, b: BankState, from: Address, c: Coin): Result<BankState, Error> {
    Move(b, from, env.moduleAddress, c)
  }

  /** Module accounts may not receive coins this way. */
  function SendFromModuleToAccount(env: Env, b: BankState, to: Address, c: Coin): Result<BankState, Error> {
    if to in env.moduleAccounts then Err(ErrUnauthorized)
    else Move(b, env.moduleAddress, to, c)
  }

  /** Coins that come into being, or with a negative amount go out of being, at an address. */
  function Issue(b: BankState, addr: Address, c: Coin): BankState {
    Credit(b, addr, c).(total := b.total[c.denom := Total(b, c.denom) + c.amount])
  }

  function Mint(env: Env, b: BankState, c: Coin): BankState {
    Issue(b, env.moduleAddress, c)
  }

  function Burn(env: Env, b: BankState, c: Coin): Result<BankState, Error> {
    if Balance(b, env.moduleAddress, c.denom) < c.amount then Err(ErrInsufficientFunds)
    else Ok(Issue(b, env.moduleAddress, Coin(c.denom, -c.amount)))
  }

  function HoldingOf(d: Denom): (Account, int) -> int {
    (k: Account, v: int) => if k.denom == d then v else 0
  }

  predicate NoOverdraft(b: BankState) {
    forall k | k in b.balances :: b.balances[k] >= 0
  }

  /** The total of a denomination is the sum of its balances. */
  ghost predicate Balanced(b: BankState, d: Denom) {
    Total(b, d) == Sum(b.balances, HoldingOf(d))
  }

  ghost predicate Solvent(b: BankState) {
    NoOverdraft(b) && forall d :: Balanced(b, d)
  }

  lemma CreditHoldings(b: BankState, addr: Address, c: Coin, d: Denom)
    ensures Sum(Credit(b, addr, c).balances, HoldingOf(d))
         == Sum(b.balances, HoldingOf(d)) + (if d == c.denom then c.amount else 0)
  {
    hide Sum;
    SumUpdate(b.balances, HoldingOf(d), Account(addr, c.denom), Balance(b, addr, c.denom) + c.amount);
  }

  lemma MoveBalanced(b: BankState, from: Address, to: Address, c: Coin, d: Denom)
    requires Balanced(b, d)
    ensures Balanced(Credit(Debit(b, from, c), to, c), d)
  {
    hide Sum;
    CreditHoldings(b, from, Coin(c.denom, -c.amount), d);
    CreditHoldings(Debit(b, from, c), to, c, d);
  }

  lemma IssueBalanced(b: BankState, addr: Address, c: Coin, d: Denom)
    requires Balanced(b, d)
    ensures Balanced(Issue(b, addr, c), d)
  {
    hide Sum;
    CreditHoldings(b, addr, c, d);
  }

  lemma MoveSolvent(b: BankState, from: Address, to: Address, c: Coin)
    requires Solvent(b) && c.amount >= 0
    requires Move(b, from, to, c).Ok?
    ensures Solvent(Move(b, from, to, c).value)
  {
    hide Sum;
    forall d { MoveBalanced(b, from, to, c, d); }
  }

  lemma MintSolvent(env: Env, b: BankState, c: Coin)
    requires Solvent(b) && c.amount >= 0
    ensures Solvent(Mint(env, b, c))
  {
    hide Sum;
    forall d ensures Balanced(Mint(env, b, c), d) { IssueBalanced(b, env.moduleAddress, c, d); }
  }

  lemma BurnSolvent(env: Env, b: BankState, c: Coin)
    requires Solvent(b) && c.amount >= 0
    requires Burn(env, b, c).Ok?
    ensures Solvent(Burn(env, b, c).value)
  {
    hide Sum;
    var b1 := Burn(env, b, c).value;
    forall d ensures Balanced(b1, d) { IssueBalanced(b, env.moduleAddress, Coin(c.denom, -c.amount), d); }
  }

  /** No balance exceeds the total, so burning an escrowed coin cannot underflow the total. */
  lemma BalanceWithinTotal(b: BankState, addr: Address, d: Denom)
    requires Solvent(b)
    ensures 0 <= Balance(b, addr, d) <= Total(b, d)
  {
    hide Sum;
    assert Balanced(b, d);
    SumAtLeast(b.balances, HoldingOf(d), Account(addr, d));
  }

  /** A move takes the coin from one account and gives it to the other; nothing else changes. */
  lemma MoveEffect(b: BankState, from: Address, to: Address, c: Coin)
    requires Move(b, from, to, c).Ok?
    requires from != to
    ensures var b' := Move(b, from, to, c).value;
            && (forall d :: Total(b', d) == Total(b, d))
            && forall a, d :: Balance(b', a, d) == Balance(b, a, d)
                 - (if a == from && d == c.denom then c.amount else 0)
                 + (if a == to && d == c.denom then c.amount else 0)
  {
  }

  lemma IssueEffect(b: BankState, addr: Address, c: Coin)
    ensures var b' := Issue(b, addr, c);
            && (forall d :: Total(b', d) == Total(b, d) + (if d == c.denom then c.amount else 0))
            && (forall a, d :: Balance(b', a, d) == Balance(b, a, d)
                 + (if a == addr && d == c.denom then c.amount else 0))
  {
  }
}
