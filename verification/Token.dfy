/** The core token's ledger: contracts/eosio.token/src/eosio.token.cpp, restricted to one symbol. */
module TokenLedger {
  import opened Names
  import IntSums

  // The system accounts, as the 64-bit encodings of their names.
  const SYSTEM_ACCOUNT: Name := 0x5530ea0000000000   // eosio
  const RAM_ACCOUNT: Name := 0x5530ea02e6900000      // eosio.ram
  const RAMFEE_ACCOUNT: Name := 0x5530ea02e692d4a0   // eosio.ramfee
  const STAKE_ACCOUNT: Name := 0x5530ea0319341400    // eosio.stake
  const FEES_ACCOUNT: Name := 0x5530ea016a560000     // eosio.fees
  const BPAY_ACCOUNT: Name := 0x5530ea00f5378000     // eosio.bpay
  const VOTERS_ACCOUNT: Name := 0x5530ea0374caaf80   // eosio.voters
  const SAVING_ACCOUNT: Name := 0x5530ea0306dba6c0   // eosio.saving
  const GENESIS_ACCOUNT: Name := 0x62a6ac3b00e1ba00  // genesis.wax
  const RESERVE_ACCOUNT: Name := 0x5530ea02eac2afb0  // eosio.reserv

  type Balances = map<Name, int>

  /** The balance of an account; an account without a row holds nothing. */
  function BalanceOf(b: Balances, a: Name): int {
    if a in b then b[a] else 0
  }

  function Credit(b: Balances, a: Name, q: int): Balances {
    b[a := BalanceOf(b, a) + q]
  }

  /** The balances after q tokens went from one account to another. */
  function Moved(b: Balances, src: Name, dst: Name, q: int): Balances {
    Credit(Credit(b, src, -q), dst, q)
  }

  /** A transfer takes the amount from one account, gives it to the other, and leaves the rest. */
  lemma MovesAmount(b: Balances, src: Name, dst: Name, q: int)
    requires CanMove(b, src, dst, q)
    ensures q > 0 && BalanceOf(b, src) >= q && BalanceOf(Moved(b, src, dst, q), src) == BalanceOf(b, src) - q
    ensures BalanceOf(Moved(b, src, dst, q), dst) == BalanceOf(b, dst) + q
    ensures forall a :: a != src && a != dst ==> BalanceOf(Moved(b, src, dst, q), a) == BalanceOf(b, a)
  {
  }

  ghost function Held(b: Balances): int {
    IntSums.Total((a: Name) => BalanceOf(b, a))
  }

  /** A transfer the token contract accepts. */
  predicate CanMove(b: Balances, src: Name, dst: Name, q: int) {
    src != dst && q > 0 && src in b && b[src] >= q
  }

  /** No row is negative, and together they hold exactly the supply. */
  ghost predicate Backed(b: Balances, supply: int) {
    && (forall a :: a in b ==> b[a] >= 0)
    && Held(b) == supply
  }

  lemma CreditChangesHeld(b: Balances, a: Name, q: int)
    ensures Held(Credit(b, a, q)) == Held(b) + q
  {
    var c := Credit(b, a, q);
    IntSums.TotalPoint((x: Name) => BalanceOf(b, x), (x: Name) => BalanceOf(c, x), a);
  }

  lemma MoveKeepsBacking(b: Balances, supply: int, src: Name, dst: Name, q: int)
    requires Backed(b, supply) && CanMove(b, src, dst, q)
    ensures Backed(Moved(b, src, dst, q), supply)
  {
    CreditChangesHeld(b, src, -q);
    CreditChangesHeld(Credit(b, src, -q), dst, q);
  }

  /** Every balance, and every sum formed while crediting one, is at most the supply. */
  lemma BalanceAtMostSupply(b: Balances, supply: int, a: Name)
    requires Backed(b, supply)
    ensures 0 <= BalanceOf(b, a) <= supply
  {
    IntSums.TotalAtLeast((x: Name) => BalanceOf(b, x), a);
  }

  class Token {
    var supply: int
    var balances: Balances
    const maxSupply: int

    ghost predicate Valid()
      reads this
    {
      Backed(balances, supply) && supply <= maxSupply
    }

    /** Only some accounts have changed. */
    twostate predicate Elsewhere(changed: set<Name>)
      reads `balances
    {
      forall a: Name :: a !in changed ==> BalanceOf(balances, a) == BalanceOf(old(balances), a)
    }

    constructor (maxSupply: int)
      requires maxSupply > 0
      ensures Valid() && supply == 0 && balances == map[] && this.maxSupply == maxSupply
    {
      this.supply, this.balances, this.maxSupply := 0, map[], maxSupply;
      IntSums.TotalZero((a: Name) => BalanceOf(map[], a));
    }

    /** The issuer is the system account. */
    method Issue(q: int) returns (ok: bool)
      requires Valid()
      modifies this
      ensures Valid()
      ensures ok <==> 0 < q <= maxSupply - old(supply)
      ensures ok ==> supply == old(supply) + q && balances == Credit(old(balances), SYSTEM_ACCOUNT, q)
      ensures !ok ==> unchanged(this)
    {
      if !(q > 0) || !(q <= maxSupply - supply) {
        return false;
      }
      CreditChangesHeld(balances, SYSTEM_ACCOUNT, q);
      supply := supply + q;
      AddBalance(SYSTEM_ACCOUNT, q);
      return true;
    }

    method Retire(q: int) returns (ok: bool)
      requires Valid()
      modifies this
      ensures Valid()
      ensures ok <==> q > 0 && SYSTEM_ACCOUNT in old(balances) && old(balances)[SYSTEM_ACCOUNT] >= q
      ensures ok ==> supply == old(supply) - q && balances == Credit(old(balances), SYSTEM_ACCOUNT, -q)
      ensures !ok ==> unchanged(this)
    {
      if !(q > 0) {
        return false;
      }
      CreditChangesHeld(balances, SYSTEM_ACCOUNT, -q);
      supply := supply - q;
      ok := SubBalance(SYSTEM_ACCOUNT, q);
      if !ok {
        supply := supply + q;
      }
    }

    method Transfer(src: Name, dst: Name, q: int) returns (ok: bool)
      requires Valid()
      modifies this
      ensures Valid() && supply == old(supply)
      ensures ok <==> CanMove(old(balances), src, dst, q)
      ensures ok ==> balances == Moved(old(balances), src, dst, q)
      ensures !ok ==> unchanged(this)
    {
      if src == dst || !(q > 0) {
        return false;
      }
      ghost var was := balances;
      ok := SubBalance(src, q);
      if ok {
        MoveKeepsBacking(was, supply, src, dst, q);
        AddBalance(dst, q);
      }
    }

    method SubBalance(owner: Name, q: int) returns (ok: bool)
      modifies this`balances
      ensures ok <==> owner in old(balances) && old(balances)[owner] >= q
      ensures balances == if ok then Credit(old(balances), owner, -q) else old(balances)
    {
      if owner !in balances || !(balances[owner] >= q) {
        return false;
      }
      balances := balances[owner := balances[owner] - q];
      return true;
    }

    method AddBalance(owner: Name, q: int)
      modifies this`balances
      ensures balances == Credit(old(balances), owner, q)
    {
      if owner !in balances {
        balances := balances[owner := q];
      } else {
        balances := balances[owner := balances[owner] + q];
      }
    }
  }
}
