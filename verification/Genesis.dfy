/**
 * The genesis program of contracts/eosio.system/src/delegate_bandwidth.cpp: a balance that pays out linearly over
 * a fixed period, for as long as it stays staked.
 */
module Genesis {
  import opened Names
  import opened Arith
  import opened TokenLedger

  const USECONDS_PER_DAY: int := 86_400_000_000

  const PERIOD: int := 1096 * USECONDS_PER_DAY

  const INITIAL_TIME: int := 1561939200 * 1_000_000

  const FINAL_TIME: int := INITIAL_TIME + PERIOD

  datatype Row = Row(balance: int, unclaimed: int, lastClaimTime: int, lastUpdated: int)

  type Rows = map<Name, Row>

  /** The time up to which a balance has earned. */
  function ClaimTime(now: int): int {
    if now < FINAL_TIME then now else FINAL_TIME
  }

  /** What a balance earns over a span of the period, rounded down. */
  function Earned(balance: int, useconds: int): int {
    Trunc(balance as real * (useconds as real / PERIOD as real))
  }

  /** get_unclaimed_gbm_balance. */
  function Unclaimed(r: Row, now: int): int {
    if now <= INITIAL_TIME then 0
    else if ClaimTime(now) <= r.lastUpdated then r.unclaimed
    else Earned(r.balance, ClaimTime(now) - r.lastUpdated) + r.unclaimed
  }

  /** An amount is the part of a balance that some days' microseconds are of the 1096 days, rounded down. */
  predicate PartOfPeriod(amount: int, balance: int, useconds: int) {
    amount as real * 94_694_400_000_000.0 <= balance as real * useconds as real < (amount + 1) as real * 94_694_400_000_000.0
  }

  /** From the first of July 2019 a balance pays out evenly over 1096 days: nothing before, and nothing more after. */
  lemma PaysOutEvenly(r: Row, now: int)
    requires r.balance >= 0
    ensures var start := 1_561_939_200_000_000; var end := start + 1096 * 24 * 3600 * 1_000_000;
            if now <= start then Unclaimed(r, now) == 0
            else
              var upTo := if now < end then now else end;
              if upTo <= r.lastUpdated then Unclaimed(r, now) == r.unclaimed
              else PartOfPeriod(Unclaimed(r, now) - r.unclaimed, r.balance, upTo - r.lastUpdated)
  {
    if now > INITIAL_TIME && r.lastUpdated < ClaimTime(now) {
      EarnedIsPart(r.balance, ClaimTime(now) - r.lastUpdated);
    }
  }

  lemma EarnedIsPart(balance: int, useconds: int)
    requires balance >= 0 && useconds >= 0
    ensures PartOfPeriod(Earned(balance, useconds), balance, useconds)
  {
    EarnedBounds(balance, useconds);
    PeriodTimes(balance as real, useconds as real, Earned(balance, useconds) as real);
  }

  lemma PeriodTimes(balance: real, useconds: real, earned: real)
    requires earned <= balance * (useconds / PERIOD as real) < earned + 1.0
    ensures earned * 94_694_400_000_000.0 <= balance * useconds < (earned + 1.0) * 94_694_400_000_000.0
  {
    QuotientTimes(useconds, PERIOD as real);
    assert balance * (useconds / PERIOD as real) * PERIOD as real == balance * useconds;
    MulLeReal(earned, balance * (useconds / PERIOD as real), PERIOD as real);
    MulLtReal(balance * (useconds / PERIOD as real), earned + 1.0, PERIOD as real);
  }

  predicate RowOk(r: Row, now: int) {
    r.balance >= 0 && r.unclaimed >= 0 && r.lastUpdated <= now
  }

  /** The part of the period a row last updated at some time still has before it. */
  function Remaining(updated: int): real {
    if updated < FINAL_TIME then (FINAL_TIME - updated) as real / PERIOD as real else 0.0
  }

  /** Everything a row can still pay, or have burned: its entitlement. */
  function Entitlement(r: Row): real {
    r.unclaimed as real + r.balance as real * Remaining(r.lastUpdated)
  }

  /** The entitlement of an account; one without a row has none. */
  function EntitlementOf(rows: Rows, a: Name): real {
    if a in rows then Entitlement(rows[a]) else 0.0
  }

  lemma EarnedBounds(balance: int, useconds: int)
    requires balance >= 0 && useconds >= 0
    ensures var exact := balance as real * (useconds as real / PERIOD as real);
            0 <= Earned(balance, useconds) && Earned(balance, useconds) as real <= exact < Earned(balance, useconds) as real + 1.0
  {
    QuotientNonneg(useconds as real, PERIOD as real);
    MulLeReal(0.0, useconds as real / PERIOD as real, balance as real);
    TruncBounds(balance as real * (useconds as real / PERIOD as real));
  }

  /** Time moves what a balance can still earn to what it has earned. */
  lemma RemainingSplits(updated: int, now: int)
    requires updated <= now
    ensures updated < ClaimTime(now) ==>
              Remaining(updated) == (ClaimTime(now) - updated) as real / PERIOD as real + Remaining(now)
    ensures ClaimTime(now) <= updated ==> Remaining(updated) == Remaining(now)
    ensures 0.0 <= Remaining(now) <= Remaining(updated)
  {
    var p := PERIOD as real;
    if updated < ClaimTime(now) {
      assert (FINAL_TIME - updated) as real / p
             == (ClaimTime(now) - updated) as real / p + (FINAL_TIME - ClaimTime(now)) as real / p;
    }
  }

  lemma EarnedSoFar(balance: int, span: int, before: real, after: real)
    requires balance >= 0 && span >= 0 && before == span as real / PERIOD as real + after
    ensures 0 <= Earned(balance, span)
    ensures Earned(balance, span) as real + balance as real * after <= balance as real * before
            < Earned(balance, span) as real + balance as real * after + 1.0
  {
    EarnedBounds(balance, span);
    assert balance as real * before == balance as real * (span as real / PERIOD as real) + balance as real * after;
  }

  lemma UpdateEarns(r: Row, now: int)
    requires RowOk(r, now) && now > INITIAL_TIME && r.lastUpdated < ClaimTime(now)
    ensures Unclaimed(r, now) >= 0
    ensures Unclaimed(r, now) as real + r.balance as real * Remaining(now) <= Entitlement(r)
            < Unclaimed(r, now) as real + r.balance as real * Remaining(now) + 1.0
  {
    RemainingSplits(r.lastUpdated, now);
    EarnedSoFar(r.balance, ClaimTime(now) - r.lastUpdated, Remaining(r.lastUpdated), Remaining(now));
  }

  /** Bringing a row up to date loses less than one unit of its entitlement, and never gains any. */
  lemma UpdateKeepsEntitlement(r: Row, now: int)
    requires RowOk(r, now)
    ensures Unclaimed(r, now) >= 0
    ensures Unclaimed(r, now) as real + r.balance as real * Remaining(now) <= Entitlement(r)
    ensures now > INITIAL_TIME ==>
              Entitlement(r) < Unclaimed(r, now) as real + r.balance as real * Remaining(now) + 1.0
  {
    RemainingSplits(r.lastUpdated, now);
    if now <= INITIAL_TIME {
      MulLeReal(Remaining(now), Remaining(r.lastUpdated), r.balance as real);
    } else if r.lastUpdated < ClaimTime(now) {
      UpdateEarns(r, now);
    } else {
      assert Unclaimed(r, now) == r.unclaimed && Remaining(now) == Remaining(r.lastUpdated);
    }
  }

  /** Rows that start with the program or later are entitled to at most their balance besides what is unclaimed. */
  lemma EntitlementAtMostBalance(r: Row)
    requires r.balance >= 0 && r.lastUpdated >= INITIAL_TIME
    ensures Entitlement(r) <= (r.unclaimed + r.balance) as real
  {
    var x := Remaining(r.lastUpdated);
    assert x <= 1.0;
    MulLeReal(x, 1.0, r.balance as real);
  }

  // Claiming

  function Claimed(r: Row, now: int): Row {
    r.(lastClaimTime := now, lastUpdated := now, unclaimed := 0)
  }

  /** A claim pays what the entitlement falls by, up to the rounding of one payment. */
  lemma ClaimKeepsEntitlement(r: Row, now: int)
    requires RowOk(r, now) && now > INITIAL_TIME
    ensures var after := if r.balance == 0 then 0.0 else Entitlement(Claimed(r, now));
            Unclaimed(r, now) as real + after <= Entitlement(r) < Unclaimed(r, now) as real + after + 1.0
  {
    UpdateKeepsEntitlement(r, now);
    assert 0 as real == 0.0;
  }

  // Unstaking

  /** What is left of the balance: never more than the account has delegated to itself. */
  function Kept(r: Row, selfDelegated: int): int {
    if selfDelegated < r.balance then selfDelegated else r.balance
  }

  function Unstaked(r: Row, selfDelegated: int, now: int): Row {
    r.(unclaimed := Unclaimed(r, now), lastUpdated := now, balance := Kept(r, selfDelegated))
  }

  /** What the withdrawn part of the balance would still have earned. */
  function ToBurn(r: Row, selfDelegated: int, now: int): int {
    Earned(r.balance - Kept(r, selfDelegated), FINAL_TIME - ClaimTime(now))
  }

  /** An entitlement falls by an amount, up to the rounding of two. */
  predicate Falls(before: real, after: real, amount: int, late: bool) {
    amount as real + after <= before && (late ==> before < amount as real + after + 2.0)
  }

  /** Unstaking burns what the entitlement falls by, up to the rounding of two amounts. */
  lemma UnstakeKeepsEntitlement(r: Row, selfDelegated: int, now: int)
    requires RowOk(r, now) && selfDelegated >= 0
    ensures ToBurn(r, selfDelegated, now) >= 0
    ensures Falls(Entitlement(r), Entitlement(Unstaked(r, selfDelegated, now)), ToBurn(r, selfDelegated, now), now > INITIAL_TIME)
  {
    BroughtUpToDate(r, now);
    BalanceCut(Brought(r, now), Kept(r, selfDelegated), now);
    TwoFalls(Entitlement(r), Entitlement(Brought(r, now)), Entitlement(Unstaked(r, selfDelegated, now)),
             ToBurn(r, selfDelegated, now), now > INITIAL_TIME);
  }

  function Brought(r: Row, now: int): Row {
    r.(unclaimed := Unclaimed(r, now), lastUpdated := now)
  }

  predicate Near(before: real, after: real, late: bool) {
    after <= before && (late ==> before < after + 1.0)
  }

  lemma BroughtUpToDate(r: Row, now: int)
    requires RowOk(r, now)
    ensures Near(Entitlement(r), Entitlement(Brought(r, now)), now > INITIAL_TIME)
  {
    UpdateKeepsEntitlement(r, now);
  }

  lemma BalanceCut(r: Row, kept: int, now: int)
    requires kept <= r.balance && r.lastUpdated == now
    ensures var burned := Earned(r.balance - kept, FINAL_TIME - ClaimTime(now));
            burned >= 0 && Near(Entitlement(r) - Entitlement(r.(balance := kept)), burned as real, true)
  {
    BurnedBounds(r.balance - kept, now);
    SplitProduct((r.balance - kept) as real, kept as real, Remaining(now));
  }

  lemma TwoFalls(before: real, mid: real, after: real, burned: int, late: bool)
    requires Near(before, mid, late) && Near(mid - after, burned as real, true)
    ensures Falls(before, after, burned, late)
  {
  }

  /** What the rest of a balance would still have earned, rounded down. */
  lemma BurnedBounds(gone: int, now: int)
    requires gone >= 0
    ensures var burned := Earned(gone, FINAL_TIME - ClaimTime(now));
            0 <= burned && burned as real <= gone as real * Remaining(now) < burned as real + 1.0
  {
    EarnedBounds(gone, FINAL_TIME - ClaimTime(now));
    assert Remaining(now) == (FINAL_TIME - ClaimTime(now)) as real / PERIOD as real;
  }

  lemma SplitProduct(a: real, b: real, x: real)
    ensures (a + b) * x == a * x + b * x
  {
  }

  /** What an account has got, what it is still due, and what it was entitled to at the start. */
  ghost predicate Accounted(got: int, due: real, opening: real, actions: nat, early: bool) {
    && got as real + due <= opening
    && (!early ==> opening <= got as real + due + 2.0 * actions as real)
  }

  lemma AccountedStep(got: int, due: real, opening: real, actions: nat, early: bool, amount: int, dueAfter: real, late: bool)
    requires Accounted(got, due, opening, actions, early)
    requires amount as real + dueAfter <= due && (late ==> due < amount as real + dueAfter + 2.0)
    ensures Accounted(got + amount, dueAfter, opening, actions + 1, early || !late)
  {
    assert 2.0 * (actions + 1) as real == 2.0 * actions as real + 2.0;
  }

  /** One row's entitlement falls by an amount it gets, up to roundings if the program has begun; no other row's moves. */
  ghost predicate Settles(before: Rows, after: Rows, a: Name, amount: int, late: bool) {
    && Falls(EntitlementOf(before, a), EntitlementOf(after, a), amount, late)
    && forall b: Name :: b != a ==> EntitlementOf(after, b) == EntitlementOf(before, b)
  }

  /** What an unstaking burns for an account. */
  function Burned(rows: Rows, owner: Name, selfDelegated: int, now: int): int {
    if owner in rows && rows[owner].balance > 0 then ToBurn(rows[owner], selfDelegated, now) else 0
  }

  /** The rows after it. */
  function Changed(rows: Rows, owner: Name, selfDelegated: int, now: int): Rows {
    if owner in rows && rows[owner].balance > 0 then
      var after := Unstaked(rows[owner], selfDelegated, now);
      if after.balance == 0 && after.unclaimed == 0 then rows - {owner} else rows[owner := after]
    else rows
  }

  /** What that leaves of an account's row: no more balance than it has delegated to itself, and nothing lost before. */
  predicate CutRecorded(rows: Rows, owner: Name, selfDelegated: int, now: int, after: Rows)
    requires owner in rows
  {
    var was := rows[owner];
    var kept := if selfDelegated < was.balance then selfDelegated else was.balance;
    && after - {owner} == rows - {owner}
    && (owner in after <==> kept != 0 || Unclaimed(was, now) != 0)
    && (owner in after ==> after[owner] == Row(kept, Unclaimed(was, now), was.lastClaimTime, now))
  }

  /** What a claim leaves of an account's row: nothing unclaimed, and the balance, unless there is none. */
  predicate ClaimRecorded(rows: Rows, claimer: Name, now: int, after: Rows) {
    && claimer in rows && now - rows[claimer].lastClaimTime > 86_400_000_000
    && after - {claimer} == rows - {claimer}
    && (claimer in after <==> rows[claimer].balance != 0)
    && (claimer in after ==> after[claimer] == Row(rows[claimer].balance, 0, now, now))
  }

  /** The rows after a claim. */
  function AfterClaim(rows: Rows, claimer: Name, now: int): Rows
    requires claimer in rows
  {
    if rows[claimer].balance == 0 then rows - {claimer} else rows[claimer := Claimed(rows[claimer], now)]
  }

  /** And whether that can be paid. */
  predicate CanChange(rows: Rows, b: Balances, owner: Name, selfDelegated: int, now: int) {
    Burned(rows, owner, selfDelegated, now) > 0 ==>
      CanMove(b, GENESIS_ACCOUNT, SYSTEM_ACCOUNT, Burned(rows, owner, selfDelegated, now))
  }

  class GenesisProgram {
    var rows: Rows
    const token: Token

    /** What each account was entitled to at the start. */
    ghost const opening: Name -> real
    /** What each account has been paid and what was burned for it, and in how many actions. */
    ghost var got: map<Name, int>
    ghost var actions: map<Name, nat>
    /** Some account unstaked before the program began, which costs it what it had not claimed. */
    ghost var early: bool
    /** The time of the latest action. */
    ghost var latest: int

    ghost function Got(a: Name): int
      reads `got
    {
      if a in got then got[a] else 0
    }

    ghost function Actions(a: Name): nat
      reads `actions
    {
      if a in actions then actions[a] else 0
    }

    ghost predicate AccountOk(rows: Rows, a: Name)
      reads `got, `actions, `early
    {
      Accounted(Got(a), EntitlementOf(rows, a), opening(a), Actions(a), early)
    }

    /**
     * What was ever paid to an account or burned for it, and what it is still due, never exceed its opening
     * entitlement, nor fall short of it by more than the roundings.
     */
    ghost predicate Accounts()
      reads this
    {
      && (forall a :: a in rows ==> RowOk(rows[a], latest))
      && forall a: Name :: AccountOk(rows, a)
    }

    ghost predicate Valid()
      reads this, token
    {
      token.Valid() && Accounts()
    }

    constructor (rows: Rows, token: Token, now: int)
      requires token.Valid() && forall a :: a in rows ==> RowOk(rows[a], now)
      ensures Valid() && this.rows == rows && this.token == token && latest == now && !early
      ensures forall a: Name :: opening(a) == EntitlementOf(rows, a) && Got(a) == 0 && Actions(a) == 0
    {
      this.rows, this.token, this.latest := rows, token, now;
      opening := (a: Name) => EntitlementOf(rows, a);
      got, actions, early := map[], map[], false;
    }

    /** One account got an amount, in one action; nothing else was recorded. */
    twostate predicate Recorded(a: Name, amount: int, late: bool)
      reads `got, `actions, `early
    {
      && (forall b: Name :: Got(b) == old(Got(b)) + if b == a then amount else 0)
      && (forall b: Name :: Actions(b) == old(Actions(b)) + if b == a then 1 else 0)
      && early == (old(early) || !late)
    }

    twostate predicate NothingRecorded()
      reads `rows, `got, `actions, `early, `latest
    {
      unchanged(`rows, `got, `actions, `early, `latest)
    }

    /** An account's row is replaced, and it gets an amount. */
    ghost method Account(a: Name, amount: int, was: Rows, now: int, late: bool)
      requires forall b: Name :: AccountOk(was, b)
      requires Settles(was, rows, a, amount, late)
      modifies `got, `actions, `early, `latest
      ensures forall b: Name :: AccountOk(rows, b)
      ensures Recorded(a, amount, late) && latest == now
    {
      assert AccountOk(was, a);
      AccountedStep(Got(a), EntitlementOf(was, a), opening(a), Actions(a), early, amount, EntitlementOf(rows, a), late);
      forall b: Name
        ensures Accounted(Got(b), EntitlementOf(was, b), opening(b), Actions(b), early || !late)
      {
        assert AccountOk(was, b);
      }
      got := got[a := Got(a) + amount];
      actions := actions[a := Actions(a) + 1];
      early := early || !late;
      latest := now;
    }

    /** claimgenesis. */
    method ClaimGenesis(claimer: Name, now: int) returns (ok: bool, paid: int)
      requires Valid() && now >= latest
      modifies this, token
      ensures Valid()
      ensures ok <==> && claimer in old(rows) && now - old(rows)[claimer].lastClaimTime > 86_400_000_000
                      && Unclaimed(old(rows)[claimer], now) > 0
                      && CanMove(old(token.balances), GENESIS_ACCOUNT, claimer, Unclaimed(old(rows)[claimer], now))
      ensures ok ==> && paid == Unclaimed(old(rows)[claimer], now)
                     && token.balances == Moved(old(token.balances), GENESIS_ACCOUNT, claimer, paid)
                     && rows == AfterClaim(old(rows), claimer, now)
      ensures ok ==> ClaimRecorded(old(rows), claimer, now, rows)
      ensures ok ==> Settles(old(rows), rows, claimer, paid, true) && Recorded(claimer, paid, true) && latest == now
      ensures token.Elsewhere({claimer, GENESIS_ACCOUNT})
      ensures token.supply == old(token.supply)
      ensures !ok ==> NothingRecorded() && token.balances == old(token.balances)
    {
      paid := 0;
      if claimer !in rows || !(now - rows[claimer].lastClaimTime > USECONDS_PER_DAY) {
        return false, paid;
      }
      var row := rows[claimer];
      paid := Unclaimed(row, now);
      if !(paid > 0) {
        return false, paid;
      }
      ok := token.Transfer(GENESIS_ACCOUNT, claimer, paid);
      if ok {
        ghost var was := rows;
        if row.balance == 0 {
          rows := rows - {claimer};
        } else {
          rows := rows[claimer := row.(lastClaimTime := now, lastUpdated := now, unclaimed := 0)];
        }
        ClaimKeepsEntitlement(row, now);
        Account(claimer, paid, was, now, true);
      }
    }

    /**
     * change_genesis, after an unstaking: the balance is cut down to what is still delegated to oneself, and
     * what the rest would have earned is burned.
     */
    method ChangeGenesis(owner: Name, selfDelegated: int, now: int) returns (ok: bool, burned: int)
      requires Valid() && now >= latest && selfDelegated >= 0
      modifies this, token
      ensures Valid()
      ensures burned == Burned(old(rows), owner, selfDelegated, now) >= 0
      ensures ok <==> CanChange(old(rows), old(token.balances), owner, selfDelegated, now)
      ensures ok ==> rows == Changed(old(rows), owner, selfDelegated, now)
      ensures ok && owner in old(rows) && old(rows)[owner].balance > 0 ==> CutRecorded(old(rows), owner, selfDelegated, now, rows)
      ensures ok && owner in old(rows) && old(rows)[owner].balance > 0 ==>
                && Settles(old(rows), rows, owner, burned, now > INITIAL_TIME)
                && Recorded(owner, burned, now > INITIAL_TIME) && latest == now
      ensures ok ==> && token.supply == old(token.supply) - burned
                     && forall a: Name :: BalanceOf(token.balances, a)
                          == BalanceOf(old(token.balances), a) - if a == GENESIS_ACCOUNT then burned else 0
      ensures token.Elsewhere({GENESIS_ACCOUNT})
      ensures ok && !(owner in old(rows) && old(rows)[owner].balance > 0) ==> NothingRecorded()
      ensures !ok ==> NothingRecorded() && token.supply == old(token.supply) && token.balances == old(token.balances)
    {
      if owner !in rows || !(rows[owner].balance > 0) {
        return true, 0;
      }
      var table, row := rows, rows[owner];
      burned := CutDown(owner, selfDelegated, now);
      ok := true;
      if burned > 0 {
        ok := Burn(burned);
      }
      if ok {
        Account(owner, burned, table, now, now > INITIAL_TIME);
      } else {
        rows := table;
      }
    }

    /** The balance cut down, and what is to be burned for it. */
    method CutDown(owner: Name, selfDelegated: int, now: int) returns (toBurn: int)
      requires owner in rows && rows[owner].balance > 0 && RowOk(rows[owner], now) && selfDelegated >= 0
      modifies `rows
      ensures rows == Changed(old(rows), owner, selfDelegated, now)
      ensures toBurn == ToBurn(old(rows)[owner], selfDelegated, now) >= 0
      ensures Settles(old(rows), rows, owner, toBurn, now > INITIAL_TIME)
      ensures RowOk(Unstaked(old(rows)[owner], selfDelegated, now), now)
    {
      var row := rows[owner];
      var unclaimed := Unclaimed(row, now);
      var kept := if selfDelegated < row.balance then selfDelegated else row.balance;
      var after := row.(unclaimed := unclaimed, lastUpdated := now, balance := kept);
      if after.balance == 0 && after.unclaimed == 0 {
        rows := rows - {owner};
      } else {
        rows := rows[owner := after];
      }
      toBurn := Earned(row.balance - kept, FINAL_TIME - ClaimTime(now));
      UnstakeKeepsEntitlement(row, selfDelegated, now);
      UpdateKeepsEntitlement(row, now);
    }

    method Burn(amount: int) returns (ok: bool)
      requires token.Valid() && amount > 0
      modifies token
      ensures token.Valid()
      ensures ok <==> CanMove(old(token.balances), GENESIS_ACCOUNT, SYSTEM_ACCOUNT, amount)
      ensures ok ==> && token.supply == old(token.supply) - amount
                     && forall a: Name :: BalanceOf(token.balances, a)
                          == BalanceOf(old(token.balances), a) - if a == GENESIS_ACCOUNT then amount else 0
      ensures !ok ==> token.supply == old(token.supply) && token.balances == old(token.balances)
    {
      BalanceAtMostSupply(token.balances, token.supply, SYSTEM_ACCOUNT);
      ok := token.Transfer(GENESIS_ACCOUNT, SYSTEM_ACCOUNT, amount);
      if ok {
        ok := token.Retire(amount);
        assert ok;
      }
    }
  }

  // Runs of claims and unstakings

  datatype GenesisAction = Claim(account: Name) | Unstake(account: Name, selfDelegated: nat)

  datatype GenesisEvent = GenesisEvent(action: GenesisAction, now: int)

  ghost predicate Timed(run: seq<GenesisEvent>, start: int) {
    && (forall i :: 0 <= i < |run| ==> start <= run[i].now)
    && (forall i, j :: 0 <= i < j < |run| ==> run[i].now <= run[j].now)
  }

  /** All that was paid to an account or burned for it. */
  function AmountFor(run: seq<GenesisEvent>, amounts: seq<int>, a: Name): int
    requires |amounts| <= |run|
  {
    var n := |amounts|;
    if n == 0 then 0
    else AmountFor(run, amounts[..n - 1], a) + if run[n - 1].action.account == a then amounts[n - 1] else 0
  }

  /** The part of it that was paid. */
  function PaidTo(run: seq<GenesisEvent>, amounts: seq<int>, a: Name): int
    requires |amounts| <= |run|
  {
    var n := |amounts|;
    if n == 0 then 0
    else PaidTo(run, amounts[..n - 1], a) + if run[n - 1].action == Claim(a) then amounts[n - 1] else 0
  }

  function SumOf(amounts: seq<int>): int {
    var n := |amounts|;
    if n == 0 then 0 else SumOf(amounts[..n - 1]) + amounts[n - 1]
  }

  function ActionsOf(run: seq<GenesisEvent>, n: nat, a: Name): nat
    requires n <= |run|
  {
    if n == 0 then 0 else ActionsOf(run, n - 1, a) + if run[n - 1].action.account == a then 1 else 0
  }

  /** What one event pays or burns: nothing if it is refused. */
  function AmountOf(rows: Rows, b: Balances, e: GenesisEvent): int {
    var a := e.action.account;
    if a !in rows then 0
    else match e.action
      case Claim(_) =>
        var due := Unclaimed(rows[a], e.now);
        if e.now - rows[a].lastClaimTime > USECONDS_PER_DAY && CanMove(b, GENESIS_ACCOUNT, a, due) then due else 0
      case Unstake(_, selfDelegated) =>
        if CanChange(rows, b, a, selfDelegated, e.now) then Burned(rows, a, selfDelegated, e.now) else 0
  }

  method Act(program: GenesisProgram, e: GenesisEvent) returns (amount: int)
    requires program.Valid() && e.now >= program.latest
    modifies program, program.token
    ensures program.Valid() && program.latest <= e.now
    ensures amount == AmountOf(old(program.rows), old(program.token.balances), e)
    ensures Settles(old(program.rows), program.rows, e.action.account, amount, e.now > INITIAL_TIME)
    ensures forall a: Name :: BalanceOf(program.token.balances, a) == BalanceOf(old(program.token.balances), a)
              + (if e.action == Claim(a) then amount else 0) - (if a == GENESIS_ACCOUNT then amount else 0)
  {
    amount := 0;
    match e.action
    case Claim(account) =>
      var ok, paid := program.ClaimGenesis(account, e.now);
      if ok {
        amount := paid;
      }
    case Unstake(account, selfDelegated) =>
      var ok, burned := program.ChangeGenesis(account, selfDelegated, e.now);
      if ok {
        amount := burned;
      }
  }

  lemma OneMore(run: seq<GenesisEvent>, amounts: seq<int>, amount: int, a: Name)
    requires |amounts| < |run|
    ensures var n := |amounts|;
            && AmountFor(run, amounts + [amount], a)
               == AmountFor(run, amounts, a) + (if run[n].action.account == a then amount else 0)
            && PaidTo(run, amounts + [amount], a)
               == PaidTo(run, amounts, a) + (if run[n].action == Claim(a) then amount else 0)
            && SumOf(amounts + [amount]) == SumOf(amounts) + amount
  {
    assert (amounts + [amount])[..|amounts|] == amounts;
  }

  /** Paid, burned and still due stay within the entitlement, and within two units of it for each action. */
  ghost predicate Settled(opening: Rows, rows: Rows, run: seq<GenesisEvent>, amounts: seq<int>, a: Name)
    requires |amounts| <= |run|
  {
    var got, due := AmountFor(run, amounts, a), EntitlementOf(rows, a);
    && got as real + due <= EntitlementOf(opening, a)
    && ((forall i :: 0 <= i < |amounts| ==> run[i].now > INITIAL_TIME) ==>
          EntitlementOf(opening, a) <= got as real + due + 2.0 * ActionsOf(run, |amounts|, a) as real)
  }

  lemma SettledStep(opening: Rows, before: Rows, after: Rows, run: seq<GenesisEvent>, amounts: seq<int>, amount: int, a: Name)
    requires |amounts| < |run| && Settled(opening, before, run, amounts, a)
    requires var e := run[|amounts|]; Settles(before, after, e.action.account, amount, e.now > INITIAL_TIME)
    ensures Settled(opening, after, run, amounts + [amount], a)
  {
    OneMore(run, amounts, amount, a);
    var n := ActionsOf(run, |amounts|, a);
    assert 2.0 * (n + 1) as real == 2.0 * n as real + 2.0;
  }

  /**
   * Over any interleaving of claims and unstakings, what is paid to an account and burned for it, all together, never
   * exceeds what it was entitled to at the start.  Once the program has begun, neither does it fall short of what the
   * account is no longer due by more than two units for each of its actions.  All of it comes from genesis.wax.
   */
  method Run(program: GenesisProgram, run: seq<GenesisEvent>) returns (amounts: seq<int>, ghost trace: seq<(Rows, Balances)>)
    requires program.Valid() && Timed(run, program.latest)
    modifies program, program.token
    ensures program.Valid()
    ensures |amounts| == |run| && |trace| == |run| + 1
    ensures trace[0] == old((program.rows, program.token.balances)) && trace[|run|] == (program.rows, program.token.balances)
    ensures forall i :: 0 <= i < |run| ==> amounts[i] == AmountOf(trace[i].0, trace[i].1, run[i])
    ensures forall a: Name :: Settled(old(program.rows), program.rows, run, amounts, a)
    ensures forall a: Name :: BalanceOf(program.token.balances, a) == BalanceOf(old(program.token.balances), a)
              + PaidTo(run, amounts, a) - (if a == GENESIS_ACCOUNT then SumOf(amounts) else 0)
  {
    amounts, trace := [], [(program.rows, program.token.balances)];
    while |amounts| < |run|
      invariant |amounts| <= |run| && |trace| == |amounts| + 1
      invariant program.Valid() && forall j :: |amounts| <= j < |run| ==> run[j].now >= program.latest
      invariant trace[0] == old((program.rows, program.token.balances))
      invariant trace[|amounts|] == (program.rows, program.token.balances)
      invariant forall i :: 0 <= i < |amounts| ==> amounts[i] == AmountOf(trace[i].0, trace[i].1, run[i])
      invariant forall a: Name :: Settled(old(program.rows), program.rows, run, amounts, a)
      invariant forall a: Name :: BalanceOf(program.token.balances, a) == BalanceOf(old(program.token.balances), a)
                  + PaidTo(run, amounts, a) - (if a == GENESIS_ACCOUNT then SumOf(amounts) else 0)
    {
      ghost var before := program.rows;
      var amount := Act(program, run[|amounts|]);
      forall a: Name
        ensures Settled(old(program.rows), program.rows, run, amounts + [amount], a)
      {
        SettledStep(old(program.rows), before, program.rows, run, amounts, amount, a);
      }
      forall a: Name {
        OneMore(run, amounts, amount, a);
      }
      amounts, trace := amounts + [amount], trace + [(program.rows, program.token.balances)];
    }
  }
}
