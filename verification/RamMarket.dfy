/** The constant-product curve of contracts/eosio.system/src/exchange_state.cpp, with exact division. */
module Bancor {

  import opened Arith

  function BancorOutput(inpReserve: int, outReserve: int, inp: int): (out: int)
    requires inpReserve + inp != 0
  {
    var out := Trunc((inp * outReserve) as real / (inpReserve + inp) as real);
    if out < 0 then 0 else out
  }

  /** The original traps when out equals the whole reserve. */
  function BancorInput(outReserve: int, inpReserve: int, out: int): (inp: int)
    requires out != outReserve
  {
    var inp := Trunc((inpReserve * out) as real / (outReserve - out) as real);
    if inp < 0 then 0 else inp
  }

  /** The output is the largest whole number that leaves the product of the reserves no smaller. */
  lemma OutputIsMaximal(i: int, o: int, x: int, y: int)
    requires i >= 0 && o >= 0 && x > 0
    ensures BancorOutput(i, o, x) == y <==> y * (i + x) <= x * o < (y + 1) * (i + x)
  {
    var out := BancorOutput(i, o, x);
    assert x * o >= 0;
    TruncQuotient(x * o, i + x);
    if y * (i + x) <= x * o < (y + 1) * (i + x) {
      CancelLt(y, out + 1, i + x);
      CancelLt(out, y + 1, i + x);
    }
  }

  /** The cost of `out` is the exact one rounded down; more than the whole reserve costs nothing. */
  lemma CostIsRoundedDown(o: int, i: int, out: int)
    requires 0 <= out != o && i >= 0
    ensures var c := BancorInput(o, i, out);
            if out > o then c == 0 else c >= 0 && c * (o - out) <= i * out < (c + 1) * (o - out)
  {
    assert i * out >= 0;
    if out > o {
      TruncNegativeQuotient(i * out, o - out);
    } else {
      TruncQuotient(i * out, o - out);
    }
  }

  /** The two reserves of the market: RAM bytes and tokens. */
  datatype Pool = Pool(base: int, quote: int)

  datatype Trade = Buy(tokens: int) | Sell(bytes: int) | Grow(bytes: int)

  predicate Funded(p: Pool) {
    p.base >= 0 && p.quote >= 0
  }

  predicate Sensible(t: Trade) {
    match t
    case Buy(x) => x > 0
    case Sell(s) => s > 0
    case Grow(n) => n >= 0
  }

  function BytesFor(p: Pool, tokens: int): (bytes: int)
    requires Funded(p) && tokens > 0
    ensures 0 <= bytes <= p.base
  {
    OutputKeepsProduct(p.quote, p.base, tokens);
    BancorOutput(p.quote, p.base, tokens)
  }

  function TokensFor(p: Pool, bytes: int): (tokens: int)
    requires Funded(p) && bytes > 0
    ensures 0 <= tokens <= p.quote
  {
    OutputKeepsProduct(p.base, p.quote, bytes);
    BancorOutput(p.base, p.quote, bytes)
  }

  lemma OutputKeepsProduct(i: int, o: int, x: int)
    requires i >= 0 && o >= 0 && x > 0
    ensures var y := BancorOutput(i, o, x);
            0 <= y <= o && y * (i + x) <= x * o < (y + 1) * (i + x) && (i + x) * (o - y) >= i * o
  {
    var y := BancorOutput(i, o, x);
    OutputIsMaximal(i, o, x, y);
    assert (i + x) * (o - y) == i * o + x * o - y * (i + x);
    assert x * o <= o * (i + x) by {
      assert o * (i + x) == i * o + x * o;
    }
    CancelLe(y, o, i + x);
  }

  /** direct_convert, and the growth of the RAM supply, on the two reserves. */
  function Apply(p: Pool, t: Trade): Pool
    requires Funded(p) && Sensible(t)
  {
    match t
    case Buy(x) => Pool(p.base - BytesFor(p, x), p.quote + x)
    case Sell(s) => Pool(p.base + s, p.quote - TokensFor(p, s))
    case Grow(n) => Pool(p.base + n, p.quote)
  }

  ghost predicate AllSensible(ts: seq<Trade>) {
    forall i :: 0 <= i < |ts| ==> Sensible(ts[i])
  }

  lemma ApplyFunded(p: Pool, t: Trade)
    requires Funded(p) && Sensible(t)
    ensures Funded(Apply(p, t))
    ensures !t.Grow? ==> Apply(p, t).base * Apply(p, t).quote >= p.base * p.quote
  {
    match t
    case Buy(x) => OutputKeepsProduct(p.quote, p.base, x);
    case Sell(s) => OutputKeepsProduct(p.base, p.quote, s);
    case Grow(n) =>
  }

  function Run(p: Pool, ts: seq<Trade>): (q: Pool)
    requires Funded(p) && AllSensible(ts)
    ensures Funded(q)
    decreases |ts|
  {
    if ts == [] then p
    else ApplyFunded(p, ts[0]); Run(Apply(p, ts[0]), ts[1..])
  }

  function Grown(ts: seq<Trade>): (n: int)
    requires AllSensible(ts)
    ensures n >= 0
  {
    if ts == [] then 0 else (if ts[0].Grow? then ts[0].bytes else 0) + Grown(ts[1..])
  }

  /**
   * Solvency over every run: whatever is bought, sold or added to the supply, the product of the
   * reserves stays at least the initial tokens times the whole RAM supply, and the base reserve never
   * exceeds that supply while only bytes that were bought are sold back.
   */
  ghost predicate Solvent(p: Pool, q0: int, maxRam: int) {
    && Funded(p)
    && q0 >= 0 && maxRam > 0
    && p.base <= maxRam
    && p.base * p.quote >= q0 * maxRam
  }

  lemma SolventQuote(p: Pool, q0: int, maxRam: int)
    requires Solvent(p, q0, maxRam)
    ensures p.quote >= q0
  {
    MulLe(p.base, maxRam, p.quote);
    CancelLe(q0, p.quote, maxRam);
  }

  lemma ApplySolvent(p: Pool, t: Trade, q0: int, maxRam: int)
    requires Solvent(p, q0, maxRam) && Sensible(t)
    requires t.Sell? ==> p.base + t.bytes <= maxRam
    ensures Solvent(Apply(p, t), q0, if t.Grow? then maxRam + t.bytes else maxRam)
  {
    ApplyFunded(p, t);
    if t.Grow? {
      SolventQuote(p, q0, maxRam);
      var n := t.bytes;
      assert (p.base + n) * p.quote == p.base * p.quote + n * p.quote;
      assert q0 * (maxRam + n) == q0 * maxRam + q0 * n;
      assert n * p.quote >= n * q0;
    }
  }

  /** Bytes in users' hands stay within what was sold to them, all along the run. */
  ghost predicate WithinSupply(p: Pool, ts: seq<Trade>, maxRam: int)
    requires Funded(p) && AllSensible(ts)
    decreases |ts|
  {
    ts == [] ||
    (ApplyFunded(p, ts[0]);
     && (ts[0].Sell? ==> p.base + ts[0].bytes <= maxRam)
     && WithinSupply(Apply(p, ts[0]), ts[1..], if ts[0].Grow? then maxRam + ts[0].bytes else maxRam))
  }

  lemma {:induction false} RunSolvent(p: Pool, ts: seq<Trade>, q0: int, maxRam: int)
    requires Solvent(p, q0, maxRam) && AllSensible(ts) && WithinSupply(p, ts, maxRam)
    ensures Solvent(Run(p, ts), q0, maxRam + Grown(ts))
    ensures Run(p, ts).quote >= q0
    decreases |ts|
  {
    if ts == [] {
      SolventQuote(p, q0, maxRam);
    } else {
      ApplySolvent(p, ts[0], q0, maxRam);
      RunSolvent(Apply(p, ts[0]), ts[1..], q0, if ts[0].Grow? then maxRam + ts[0].bytes else maxRam);
    }
  }

  ghost predicate NoGrowth(ts: seq<Trade>) {
    forall i :: 0 <= i < |ts| ==> !ts[i].Grow?
  }

  lemma {:induction false} RunKeepsProduct(p: Pool, ts: seq<Trade>)
    requires Funded(p) && AllSensible(ts) && NoGrowth(ts)
    ensures Run(p, ts).base * Run(p, ts).quote >= p.base * p.quote
    decreases |ts|
  {
    if ts != [] {
      ApplyFunded(p, ts[0]);
      assert !ts[0].Grow?;
      RunKeepsProduct(Apply(p, ts[0]), ts[1..]);
    }
  }

  /** No sequence of trades that hands back all the bytes it took leaves fewer tokens in the market. */
  lemma NoFreeValue(p: Pool, ts: seq<Trade>)
    requires Funded(p) && AllSensible(ts) && NoGrowth(ts)
    requires p.base > 0 && Run(p, ts).base <= p.base
    ensures Run(p, ts).quote >= p.quote
  {
    var q := Run(p, ts);
    RunKeepsProduct(p, ts);
    NoFewerTokens(p.base, p.quote, q.base, q.quote);
  }

  lemma NoFewerTokens(base: int, quote: int, newBase: int, newQuote: int)
    requires base > 0 && 0 <= newBase <= base && newQuote >= 0
    requires newBase * newQuote >= base * quote
    ensures newQuote >= quote
  {
    MulLe(newBase, base, newQuote);
    CancelLe(quote, newQuote, base);
  }

  /** Buying and selling straight back returns at most what was paid. */
  lemma BuyThenSell(p: Pool, tokens: int)
    requires Funded(p) && tokens > 0 && BytesFor(p, tokens) > 0
    ensures TokensFor(Apply(p, Buy(tokens)), BytesFor(p, tokens)) <= tokens
  {
    var b := BytesFor(p, tokens);
    var mid := Apply(p, Buy(tokens));
    var back := TokensFor(mid, b);
    assert Run(p, [Buy(tokens), Sell(b)]) == Pool(p.base, mid.quote - back) by {
      ApplyFunded(p, Buy(tokens));
      var ts := [Buy(tokens), Sell(b)];
      assert ts[1..] == [Sell(b)];
      assert ts[1..][1..] == [];
      assert Run(mid, [Sell(b)]) == Run(Apply(mid, Sell(b)), []);
    }
    NoFreeValue(p, [Buy(tokens), Sell(b)]);
  }

  lemma SplitBuyProducts(quote: int, base: int, x: int, y: int, b1: int, b2: int, b: int)
    requires quote >= 0 && x > 0 && y > 0
    requires b1 * (quote + x) <= x * base
    requires b2 * (quote + x + y) <= y * (base - b1)
    requires (x + y) * base < (b + 1) * (quote + x + y)
    ensures b1 + b2 <= b
  {
    var all := quote + x + y;
    calc {
      (b1 + b2) * all;
      b1 * (quote + x) + b1 * y + b2 * all;
    <=
      x * base + b1 * y + y * (base - b1);
      (x + y) * base;
    }
    CancelLt(b1 + b2, b + 1, all);
  }

  /** Splitting a purchase never yields more bytes. */
  lemma SplitBuy(p: Pool, x: int, y: int)
    requires Funded(p) && x > 0 && y > 0
    ensures BytesFor(p, x) + BytesFor(Apply(p, Buy(x)), y) <= BytesFor(p, x + y)
  {
    var mid := Apply(p, Buy(x));
    OutputKeepsProduct(p.quote, p.base, x);
    OutputKeepsProduct(mid.quote, mid.base, y);
    OutputKeepsProduct(p.quote, p.base, x + y);
    SplitBuyProducts(p.quote, p.base, x, y, BytesFor(p, x), BytesFor(mid, y), BytesFor(p, x + y));
  }

  /** What is left of a quantity after the half-percent fee, rounded up (buyram). */
  function FeeOn(amount: int): int {
    (amount + 199) / 200
  }

  /** The quantity buyrambytes asks buyram to spend for a cost. */
  function CostPlusFee(cost: int): int {
    Trunc(cost as real / 0.995)
  }

  lemma CostAfterFee(cost: int)
    requires cost >= 0
    ensures var q := CostPlusFee(cost); q >= 0 && cost - 1 <= q - FeeOn(q) <= cost
  {
    var exact := cost as real / 0.995;
    assert exact * 199.0 == cost as real * 200.0;
    var q := CostPlusFee(cost);
    assert q as real <= exact < (q + 1) as real;
    assert 199.0 * q as real <= 200.0 * cost as real < 199.0 * (q + 1) as real;
    assert 199 * q <= 200 * cost < 199 * (q + 1);
  }

  lemma QuoteProducts(base: int, quote: int, bytes: int, cost: int, paid: int, out: int)
    requires quote >= 0 && 0 <= bytes < base && 0 < paid <= cost
    requires cost * (base - bytes) <= quote * bytes
    requires out * (quote + paid) <= paid * base
    ensures out <= bytes
  {
    calc {
      out * (quote + paid);
    <=
      paid * base;
      paid * (base - bytes) + paid * bytes;
    <=  { MulLe(paid, cost, base - bytes); }
      quote * bytes + paid * bytes;
      bytes * (quote + paid);
    }
    CancelLe(out, bytes, quote + paid);
  }

  /** Paying no more than the quoted cost never buys more bytes than were quoted for. */
  lemma QuotedBytesAreAnUpperBound(p: Pool, bytes: int, paid: int)
    requires Funded(p) && 0 <= bytes < p.base
    requires 0 < paid <= BancorInput(p.base, p.quote, bytes)
    ensures BytesFor(p, paid) <= bytes
  {
    OutputKeepsProduct(p.quote, p.base, paid);
    CostIsRoundedDown(p.base, p.quote, bytes);
    QuoteProducts(p.base, p.quote, bytes, BancorInput(p.base, p.quote, bytes), paid, BytesFor(p, paid));
  }

  /** What buyrambytes asks buyram to spend for a number of bytes, and what of it enters the market. */
  function QuantityFor(p: Pool, requested: int): int
    requires requested != p.base
  {
    CostPlusFee(BancorInput(p.base, p.quote, requested))
  }

  function SpentOn(p: Pool, requested: int): int
    requires requested != p.base
  {
    QuantityFor(p, requested) - FeeOn(QuantityFor(p, requested))
  }

  /** When a purchase delivers no more than was asked for, although the supply grows before it. */
  predicate DeliversWithin(p: Pool, growth: int, requested: int, paid: int) {
    paid * (p.base + growth) < (requested + 1) * (p.quote + paid)
  }

  lemma DeliveredWithin(p: Pool, growth: int, requested: int, paid: int)
    requires Funded(p) && growth >= 0 && paid > 0
    ensures BytesFor(Apply(p, Grow(growth)), paid) <= requested <==> DeliversWithin(p, growth, requested, paid)
  {
    var base, all, out := p.base + growth, p.quote + paid, BytesFor(Apply(p, Grow(growth)), paid);
    OutputKeepsProduct(p.quote, base, paid);
    if out <= requested {
      MulLe(out + 1, requested + 1, all);
    } else {
      MulLe(requested + 1, out, all);
    }
  }

  /** A purchase that costs anything asks for some bytes, and for fewer than the market holds. */
  lemma CostPositive(base: int, quote: int, requested: nat)
    requires base >= 0 && quote >= 0 && requested != base
    requires BancorInput(base, quote, requested) > 0
    ensures 0 < requested < base
  {
    CostIsRoundedDown(base, quote, requested);
  }

  /**
   * What a purchase of a number of bytes comes to: what enters the market is the quoted cost or one less, and what it
   * delivers is no more than was asked for exactly if the growth due before it is small enough, as it is when none is due.
   */
  ghost predicate Delivered(p: Pool, growth: int, requested: int, bytes: int) {
    && Funded(p) && growth >= 0 && 0 < requested < p.base && SpentOn(p, requested) > 0
    && BancorInput(p.base, p.quote, requested) - 1 <= SpentOn(p, requested) <= BancorInput(p.base, p.quote, requested)
    && bytes == BytesFor(Apply(p, Grow(growth)), SpentOn(p, requested)) > 0
    && (bytes <= requested <==> DeliversWithin(p, growth, requested, SpentOn(p, requested)))
    && (growth == 0 ==> bytes <= requested)
  }

  lemma DeliveredAsPriced(p: Pool, growth: int, requested: nat, bytes: int)
    requires Funded(p) && growth >= 0 && requested != p.base && SpentOn(p, requested) > 0
    requires bytes == BytesFor(Apply(p, Grow(growth)), SpentOn(p, requested)) > 0
    ensures Delivered(p, growth, requested, bytes)
  {
    var cost := BancorInput(p.base, p.quote, requested);
    CostAfterFee(cost);
    CostPositive(p.base, p.quote, requested);
    DeliveredWithin(p, growth, requested, SpentOn(p, requested));
    if growth == 0 {
      assert Apply(p, Grow(0)) == p;
      QuotedBytesAreAnUpperBound(p, requested, SpentOn(p, requested));
    }
  }
}

/** buyram, sellram, setram and the RAM supply (delegate_bandwidth.cpp, eosio.system.cpp). */
module RamMarketContract {
  import opened Names
  import opened Arith
  import opened Bancor
  import opened TokenLedger
  import IntSums

  type RamRows = map<Name, int>

  function RamOf(rows: RamRows, a: Name): int {
    if a in rows then rows[a] else 0
  }

  function AddRam(rows: RamRows, a: Name, bytes: int): RamRows {
    rows[a := RamOf(rows, a) + bytes]
  }

  ghost function RamHeld(rows: RamRows): int {
    IntSums.Total((a: Name) => RamOf(rows, a))
  }

  lemma AddRamChangesHeld(rows: RamRows, a: Name, bytes: int)
    ensures RamHeld(AddRam(rows, a, bytes)) == RamHeld(rows) + bytes
  {
    var after := AddRam(rows, a, bytes);
    IntSums.TotalPoint((x: Name) => RamOf(rows, x), (x: Name) => RamOf(after, x), a);
  }

  /** The original's inline transfers accept this payment. */
  predicate CanPay(b: Balances, payer: Name, quantity: int) {
    && quantity > 1
    && payer != RAM_ACCOUNT && payer != RAMFEE_ACCOUNT
    && BalanceOf(b, payer) >= quantity
  }

  function Paid(b: Balances, payer: Name, quantity: int): (after: Balances)
    ensures payer != RAM_ACCOUNT ==>
              BalanceOf(after, RAM_ACCOUNT) == BalanceOf(b, RAM_ACCOUNT) + quantity - FeeOn(quantity)
  {
    Moved(Moved(b, payer, RAM_ACCOUNT, quantity - FeeOn(quantity)), payer, RAMFEE_ACCOUNT, FeeOn(quantity))
  }

  function Proceeds(b: Balances, account: Name, amount: int): (after: Balances)
    ensures account != RAM_ACCOUNT ==> BalanceOf(after, RAM_ACCOUNT) == BalanceOf(b, RAM_ACCOUNT) - amount
  {
    Moved(Moved(b, RAM_ACCOUNT, account, amount), account, RAMFEE_ACCOUNT, FeeOn(amount))
  }

  /** What a buyer pays goes to eosio.ram, but for a fee of half a percent, rounded up, to eosio.ramfee. */
  predicate PaidInFull(b: Balances, payer: Name, quantity: int, c: Balances) {
    && BalanceOf(c, payer) == BalanceOf(b, payer) - quantity
    && BalanceOf(c, RAM_ACCOUNT) == BalanceOf(b, RAM_ACCOUNT) + quantity - (quantity + 199) / 200
    && BalanceOf(c, RAMFEE_ACCOUNT) == BalanceOf(b, RAMFEE_ACCOUNT) + (quantity + 199) / 200
  }

  lemma PaysInFull(b: Balances, payer: Name, quantity: int)
    requires payer != RAM_ACCOUNT && payer != RAMFEE_ACCOUNT && quantity > 0
    ensures PaidInFull(b, payer, quantity, Paid(b, payer, quantity))
  {
  }

  /** And what a seller gets comes out of eosio.ram, but for the same fee. */
  predicate SoldInFull(b: Balances, account: Name, amount: int, c: Balances) {
    && BalanceOf(c, account) == BalanceOf(b, account) + amount - (amount + 199) / 200
    && BalanceOf(c, RAM_ACCOUNT) == BalanceOf(b, RAM_ACCOUNT) - amount
    && BalanceOf(c, RAMFEE_ACCOUNT) == BalanceOf(b, RAMFEE_ACCOUNT) + (amount + 199) / 200
  }

  lemma SellsInFull(b: Balances, account: Name, amount: int)
    requires account != RAM_ACCOUNT && account != RAMFEE_ACCOUNT && amount > 0
    ensures SoldInFull(b, account, amount, Proceeds(b, account, amount))
  {
  }

  class RamMarket {
    const token: Token
    /** The exchange row: what the market holds of each. */
    var pool: Pool
    var maxRamSize: int
    var totalRamBytesReserved: int
    var totalRamStake: int
    var newRamPerBlock: nat
    var lastRamIncrease: nat
    var userRam: RamRows
    ghost const initialQuote: int

    /** The market can buy back every byte it ever sold. */
    ghost predicate MarketValid()
      reads this
    {
      && Solvent(pool, initialQuote, maxRamSize)
      && pool.base + totalRamBytesReserved == maxRamSize
      && pool.quote == initialQuote + totalRamStake
      && (forall a :: a in userRam ==> userRam[a] >= 0)
      && RamHeld(userRam) == totalRamBytesReserved
    }

    /** And eosio.ram holds the tokens that takes. */
    ghost predicate Valid()
      reads this, token
    {
      MarketValid() && token.Valid() && BalanceOf(token.balances, RAM_ACCOUNT) >= totalRamStake
    }

    /** Nothing the market or the ledger records has changed. */
    twostate predicate RolledBack()
      reads this, token
    {
      && unchanged(`pool, `maxRamSize, `totalRamBytesReserved, `totalRamStake)
      && unchanged(`newRamPerBlock, `lastRamIncrease, `userRam)
      && unchanged(token`supply, token`balances)
    }

    /** The init action; nothing is reserved before it, since every purchase needs the market row. */
    constructor (token: Token, maxRamSize: int)
      requires token.Valid() && token.supply > 0 && maxRamSize > 0
      ensures Valid() && this.token == token
      ensures pool == Pool(maxRamSize, token.supply / 1000)
      ensures initialQuote == token.supply / 1000 && this.maxRamSize == maxRamSize && userRam == map[]
      ensures newRamPerBlock == 0 && lastRamIncrease == 0
    {
      this.token := token;
      this.pool, this.initialQuote := Pool(maxRamSize, token.supply / 1000), token.supply / 1000;
      this.maxRamSize, this.totalRamBytesReserved, this.totalRamStake := maxRamSize, 0, 0;
      this.newRamPerBlock, this.lastRamIncrease := 0, 0;
      this.userRam := map[];
      IntSums.TotalZero((a: Name) => RamOf(map[], a));
      BalanceAtMostSupply(token.balances, token.supply, RAM_ACCOUNT);
    }

    /** The bytes due since the last increase; the original multiplies 32-bit unsigned numbers. */
    function PendingGrowth(slot: nat): (n: int)
      reads this
      ensures n >= 0
    {
      if slot <= lastRamIncrease then 0
      else ((slot - lastRamIncrease) * newRamPerBlock) % 0x1_0000_0000
    }

    method UpdateRamSupply(slot: nat)
      requires MarketValid()
      modifies `pool, `maxRamSize, `lastRamIncrease
      ensures MarketValid()
      ensures pool == Apply(old(pool), Grow(old(PendingGrowth(slot))))
      ensures maxRamSize == old(maxRamSize) + old(PendingGrowth(slot))
      ensures slot <= old(lastRamIncrease) ==> maxRamSize == old(maxRamSize) && pool == old(pool)
      ensures slot > old(lastRamIncrease) ==>
                var due := ((slot - old(lastRamIncrease)) * newRamPerBlock) % 4294967296;
                maxRamSize == old(maxRamSize) + due && pool == Pool(old(pool).base + due, old(pool).quote)
      ensures lastRamIncrease == if slot <= old(lastRamIncrease) then old(lastRamIncrease) else slot
    {
      if slot <= lastRamIncrease {
        return;
      }
      var newRam := ((slot - lastRamIncrease) * newRamPerBlock) % 0x1_0000_0000;
      ApplySolvent(pool, Grow(newRam), initialQuote, maxRamSize);
      maxRamSize := maxRamSize + newRam;
      pool := Apply(pool, Grow(newRam));
      lastRamIncrease := slot;
    }

    method SetRamRate(slot: nat, bytesPerBlock: nat)
      requires Valid()
      modifies `pool, `maxRamSize, `lastRamIncrease, `newRamPerBlock
      ensures Valid()
      ensures pool == Apply(old(pool), Grow(old(PendingGrowth(slot))))
      ensures maxRamSize == old(maxRamSize) + old(PendingGrowth(slot)) && newRamPerBlock == bytesPerBlock
      ensures lastRamIncrease == if slot <= old(lastRamIncrease) then old(lastRamIncrease) else slot
    {
      UpdateRamSupply(slot);
      newRamPerBlock := bytesPerBlock;
    }

    /** The last check, that the new size covers what is reserved, follows from the others. */
    method SetRam(size: int) returns (ok: bool)
      requires Valid()
      modifies `pool, `maxRamSize
      ensures Valid()
      ensures ok <==> old(maxRamSize) < size < 0x4_0000_0000_0000
      ensures ok ==> maxRamSize == size && pool == Apply(old(pool), Grow(size - old(maxRamSize)))
      ensures !ok ==> unchanged(`pool, `maxRamSize)
    {
      if !(maxRamSize < size) || !(size < 0x4_0000_0000_0000) {
        return false;
      }
      assert size > totalRamBytesReserved;
      var delta := size - maxRamSize;
      ApplySolvent(pool, Grow(delta), initialQuote, maxRamSize);
      pool := Apply(pool, Grow(delta));
      maxRamSize := size;
      return true;
    }

    /** The market's side of a purchase, after the tokens were taken. */
    method ReserveBytes(receiver: Name, spent: int) returns (ok: bool, bytes: int)
      requires MarketValid() && spent > 0
      modifies `pool, `totalRamBytesReserved, `totalRamStake, `userRam
      ensures MarketValid()
      ensures bytes == BytesFor(old(pool), spent) && (ok <==> bytes > 0)
      ensures ok ==> && pool == Apply(old(pool), Buy(spent))
                     && totalRamStake == old(totalRamStake) + spent
                     && totalRamBytesReserved == old(totalRamBytesReserved) + bytes
                     && userRam == AddRam(old(userRam), receiver, bytes)
      ensures !ok ==> unchanged(`pool, `totalRamBytesReserved, `totalRamStake, `userRam)
    {
      bytes := BytesFor(pool, spent);
      ok := bytes > 0;
      if ok {
        ApplySolvent(pool, Buy(spent), initialQuote, maxRamSize);
        AddRamChangesHeld(userRam, receiver, bytes);
        pool := Pool(pool.base - bytes, pool.quote + spent);
        totalRamBytesReserved := totalRamBytesReserved + bytes;
        totalRamStake := totalRamStake + spent;
        userRam := AddRam(userRam, receiver, bytes);
      }
    }

    /** The market's side of a sale; the stake never goes negative. */
    method ReturnBytes(account: Name, bytes: int) returns (ok: bool, tokensOut: int)
      requires MarketValid() && bytes > 0 && RamOf(userRam, account) >= bytes
      modifies `pool, `totalRamBytesReserved, `totalRamStake, `userRam
      ensures MarketValid()
      ensures tokensOut == TokensFor(old(pool), bytes) && (ok <==> tokensOut > 1)
      ensures ok ==> && pool == Apply(old(pool), Sell(bytes))
                     && totalRamStake == old(totalRamStake) - tokensOut >= 0
                     && totalRamBytesReserved == old(totalRamBytesReserved) - bytes
                     && userRam == AddRam(old(userRam), account, -bytes)
      ensures !ok ==> unchanged(`pool, `totalRamBytesReserved, `totalRamStake, `userRam)
    {
      tokensOut := TokensFor(pool, bytes);
      ok := tokensOut > 1;
      if ok {
        SellWithinSupply(userRam, totalRamBytesReserved, account, bytes);
        ApplySolvent(pool, Sell(bytes), initialQuote, maxRamSize);
        SolventQuote(Pool(pool.base + bytes, pool.quote - tokensOut), initialQuote, maxRamSize);
        AddRamChangesHeld(userRam, account, -bytes);
        pool := Pool(pool.base + bytes, pool.quote - tokensOut);
        totalRamBytesReserved := totalRamBytesReserved - bytes;
        totalRamStake := totalRamStake - tokensOut;
        assert totalRamStake >= 0;
        userRam := AddRam(userRam, account, -bytes);
      }
    }

    /** The payer's tokens go to eosio.ram and the fee to eosio.ramfee, or nothing moves. */
    method TakePayment(payer: Name, quantity: int) returns (ok: bool)
      requires token.Valid() && quantity > 0
      modifies token
      ensures token.Valid() && token.supply == old(token.supply)
      ensures ok <==> CanPay(old(token.balances), payer, quantity)
      ensures ok ==> token.balances == Paid(old(token.balances), payer, quantity)
      ensures ok ==> PaidInFull(old(token.balances), payer, quantity, token.balances)
      ensures !ok ==> token.balances == old(token.balances)
    {
      var balances := token.balances;
      var fee := FeeOn(quantity);
      if payer != RAM_ACCOUNT && payer != RAMFEE_ACCOUNT {
        PaysInFull(balances, payer, quantity);
      }
      ok := token.Transfer(payer, RAM_ACCOUNT, quantity - fee);
      if ok {
        ok := token.Transfer(payer, RAMFEE_ACCOUNT, fee);
        if !ok {
          token.balances := balances;
        }
      }
    }

    /** eosio.ram pays the seller, who pays the fee out of that, or nothing moves. */
    method PaySeller(account: Name, amount: int) returns (ok: bool)
      requires token.Valid() && 1 < amount <= BalanceOf(token.balances, RAM_ACCOUNT)
      modifies token
      ensures token.Valid() && token.supply == old(token.supply)
      ensures ok <==> account != RAM_ACCOUNT && account != RAMFEE_ACCOUNT
      ensures ok ==> token.balances == Proceeds(old(token.balances), account, amount)
      ensures ok ==> SoldInFull(old(token.balances), account, amount, token.balances)
      ensures !ok ==> token.balances == old(token.balances)
    {
      var balances := token.balances;
      if account != RAM_ACCOUNT && account != RAMFEE_ACCOUNT {
        SellsInFull(balances, account, amount);
      }
      ok := token.Transfer(RAM_ACCOUNT, account, amount);
      if ok {
        ok := token.Transfer(account, RAMFEE_ACCOUNT, FeeOn(amount));
        if !ok {
          token.balances := balances;
        }
      }
    }

    /**
     * Buying RAM for a quantity of tokens: the fee goes to eosio.ramfee, the rest into the market.
     * When it aborts, everything it touched is rolled back.
     */
    method BuyRam(payer: Name, receiver: Name, quantity: int, slot: nat) returns (ok: bool, bytes: int)
      requires Valid()
      modifies this, token
      ensures Valid()
      ensures var spent := quantity - FeeOn(quantity);
              var grown := Apply(old(pool), Grow(old(PendingGrowth(slot))));
              && (ok <==> CanPay(old(token.balances), payer, quantity) && BytesFor(grown, spent) > 0)
              && (ok ==> && bytes == BytesFor(grown, spent)
                         && pool == Apply(grown, Buy(spent))
                         && totalRamStake == old(totalRamStake) + spent
                         && token.balances == Paid(old(token.balances), payer, quantity))
      ensures ok ==> PaidInFull(old(token.balances), payer, quantity, token.balances)
      ensures ok ==> && totalRamBytesReserved == old(totalRamBytesReserved) + bytes
                     && userRam == AddRam(old(userRam), receiver, bytes)
                     && maxRamSize == old(maxRamSize) + old(PendingGrowth(slot))
                     && newRamPerBlock == old(newRamPerBlock) && token.supply == old(token.supply)
                     && lastRamIncrease == if slot <= old(lastRamIncrease) then old(lastRamIncrease) else slot
      ensures token.Elsewhere({payer, RAM_ACCOUNT, RAMFEE_ACCOUNT}) && token.supply == old(token.supply)
      ensures !ok ==> RolledBack()
    {
      var was := (pool, maxRamSize, lastRamIncrease, token.balances);
      UpdateRamSupply(slot);
      ok, bytes := Purchase(payer, receiver, quantity);
      if !ok {
        pool, maxRamSize, lastRamIncrease := was.0, was.1, was.2;
        token.balances := was.3;
      }
    }

    /** The payment, and then the bytes. */
    method Purchase(payer: Name, receiver: Name, quantity: int) returns (ok: bool, bytes: int)
      requires Valid()
      modifies `pool, `totalRamBytesReserved, `totalRamStake, `userRam, token
      ensures ok <==> CanPay(old(token.balances), payer, quantity) && BytesFor(old(pool), quantity - FeeOn(quantity)) > 0
      ensures ok ==> && bytes == BytesFor(old(pool), quantity - FeeOn(quantity))
                     && pool == Apply(old(pool), Buy(quantity - FeeOn(quantity)))
                     && totalRamStake == old(totalRamStake) + quantity - FeeOn(quantity)
                     && totalRamBytesReserved == old(totalRamBytesReserved) + bytes
                     && userRam == AddRam(old(userRam), receiver, bytes)
                     && token.balances == Paid(old(token.balances), payer, quantity)
      ensures ok ==> Valid() && PaidInFull(old(token.balances), payer, quantity, token.balances)
      ensures token.supply == old(token.supply)
      ensures !ok ==> unchanged(`pool, `totalRamBytesReserved, `totalRamStake, `userRam)
    {
      bytes := 0;
      ok := quantity > 0;
      if ok {
        ok := TakePayment(payer, quantity);
        if ok {
          ok, bytes := ReserveBytes(receiver, quantity - FeeOn(quantity));
        }
      }
    }

    /**
     * Asking for a number of bytes: priced on the reserves as they stand, before the supply grows.
     * Asking for exactly the base reserve divides by zero and traps.
     */
    method BuyRamBytes(payer: Name, receiver: Name, requested: nat, slot: nat) returns (ok: bool, bytes: int)
      requires Valid()
      modifies this, token
      ensures Valid()
      ensures requested == old(pool).base ==> !ok
      ensures requested != old(pool).base ==>
                (ok <==> && CanPay(old(token.balances), payer, QuantityFor(old(pool), requested))
                         && BytesFor(Apply(old(pool), Grow(old(PendingGrowth(slot)))), SpentOn(old(pool), requested)) > 0)
      ensures ok ==> && Delivered(old(pool), old(PendingGrowth(slot)), requested, bytes)
                     && pool == Apply(Apply(old(pool), Grow(old(PendingGrowth(slot)))), Buy(SpentOn(old(pool), requested)))
                     && userRam == AddRam(old(userRam), receiver, bytes)
                     && token.balances == Paid(old(token.balances), payer, QuantityFor(old(pool), requested))
      ensures token.Elsewhere({payer, RAM_ACCOUNT, RAMFEE_ACCOUNT}) && token.supply == old(token.supply)
      ensures !ok ==> RolledBack()
    {
      if requested == pool.base {
        return false, 0;
      }
      ghost var was := pool;
      var cost := BancorInput(pool.base, pool.quote, requested);
      ok, bytes := BuyRam(payer, receiver, CostPlusFee(cost), slot);
      if ok {
        DeliveredAsPriced(was, old(PendingGrowth(slot)), requested, bytes);
      }
    }

    /**
     * Selling bytes back.  The check that the stake does not go negative cannot fail, and the payment
     * out of eosio.ram cannot be overdrawn: neither appears among the conditions for success.
     */
    method SellRam(account: Name, bytes: int, slot: nat) returns (ok: bool, tokensOut: int)
      requires Valid()
      modifies this, token
      ensures Valid()
      ensures var grown := Apply(old(pool), Grow(old(PendingGrowth(slot))));
              && (ok <==> && bytes > 0 && RamOf(old(userRam), account) >= bytes
                          && TokensFor(grown, bytes) > 1
                          && account != RAM_ACCOUNT && account != RAMFEE_ACCOUNT)
              && (ok ==> && tokensOut == TokensFor(grown, bytes)
                         && pool == Apply(grown, Sell(bytes))
                         && token.balances == Proceeds(old(token.balances), account, tokensOut))
      ensures ok ==> SoldInFull(old(token.balances), account, tokensOut, token.balances)
      ensures ok ==> && totalRamStake == old(totalRamStake) - tokensOut >= 0
                     && totalRamBytesReserved == old(totalRamBytesReserved) - bytes
                     && userRam == AddRam(old(userRam), account, -bytes)
                     && maxRamSize == old(maxRamSize) + old(PendingGrowth(slot))
                     && newRamPerBlock == old(newRamPerBlock) && token.supply == old(token.supply)
                     && lastRamIncrease == if slot <= old(lastRamIncrease) then old(lastRamIncrease) else slot
      ensures token.Elsewhere({account, RAM_ACCOUNT, RAMFEE_ACCOUNT}) && token.supply == old(token.supply)
      ensures !ok ==> RolledBack()
    {
      var was := (pool, maxRamSize, lastRamIncrease, totalRamBytesReserved, totalRamStake, userRam);
      var balances := token.balances;
      UpdateRamSupply(slot);
      ok, tokensOut := Sale(account, bytes);
      if !ok {
        pool, maxRamSize, lastRamIncrease := was.0, was.1, was.2;
        totalRamBytesReserved, totalRamStake, userRam := was.3, was.4, was.5;
        token.balances := balances;
      }
    }

    /** The bytes, and then the payment. */
    method Sale(account: Name, bytes: int) returns (ok: bool, tokensOut: int)
      requires Valid()
      modifies `pool, `totalRamBytesReserved, `totalRamStake, `userRam, token
      ensures ok <==> && bytes > 0 && RamOf(old(userRam), account) >= bytes && TokensFor(old(pool), bytes) > 1
                      && account != RAM_ACCOUNT && account != RAMFEE_ACCOUNT
      ensures ok ==> && tokensOut == TokensFor(old(pool), bytes)
                     && pool == Apply(old(pool), Sell(bytes))
                     && totalRamStake == old(totalRamStake) - tokensOut >= 0
                     && totalRamBytesReserved == old(totalRamBytesReserved) - bytes
                     && userRam == AddRam(old(userRam), account, -bytes)
                     && token.balances == Proceeds(old(token.balances), account, tokensOut)
      ensures ok ==> Valid() && SoldInFull(old(token.balances), account, tokensOut, token.balances)
      ensures token.supply == old(token.supply)
    {
      tokensOut := 0;
      ok := bytes > 0 && account in userRam && userRam[account] >= bytes;
      if ok {
        ok, tokensOut := ReturnBytes(account, bytes);
        if ok {
          ok := PaySeller(account, tokensOut);
        }
      }
    }
  }

  lemma SellWithinSupply(rows: RamRows, reserved: int, account: Name, bytes: int)
    requires forall a :: a in rows ==> rows[a] >= 0
    requires RamHeld(rows) == reserved && RamOf(rows, account) >= bytes
    ensures bytes <= reserved
  {
    IntSums.TotalAtLeast((a: Name) => RamOf(rows, a), account);
  }

  /** All bytes in circulation could be sold at once, and the stake would pay for them. */
  lemma EveryByteCanBeSold(p: Pool, q0: int, maxRam: int)
    requires Solvent(p, q0, maxRam) && p.base < maxRam
    ensures TokensFor(p, maxRam - p.base) <= p.quote - q0
  {
    ApplySolvent(p, Sell(maxRam - p.base), q0, maxRam);
    SolventQuote(Apply(p, Sell(maxRam - p.base)), q0, maxRam);
  }

  /**
   * When supply is due, buyrambytes can deliver more than it was asked for: of a thousand bytes and tokens, five
   * hundred bytes are priced at a thousand tokens, 1005 with the fee, of which 999 are spent; after nine thousand
   * more bytes they buy 4997.
   */
  lemma GrowthCanOverdeliver()
    ensures var p := Pool(1000, 1000);
            var quantity := CostPlusFee(BancorInput(p.base, p.quote, 500));
            && quantity == 1005 && quantity - FeeOn(quantity) == 999
            && BytesFor(Apply(p, Grow(9000)), 999) == 4997
            && !DeliversWithin(p, 9000, 500, 999)
  {
    CostIsRoundedDown(1000, 1000, 500);
    OutputIsMaximal(1000, 10000, 999, 4997);
  }
}
