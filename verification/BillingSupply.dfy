/** Billing: the split of a shortfall between paid income and arrears, and the supply. */
module BillingSupply {
  import opened LedgerTypes
  import opened Transactions
  import opened TokenSupply
  import BillingLoops

  // ---------------------------------------------------------------- incomes

  function IncomeFrom(costs: seq<UserCost>, gas: u64, u: Address, m: Miner): u64 {
    Mul(IncomeOf(costs, u, m.address), gas)
  }

  /** All miners' incomes from one user. */
  function IncomeSum(costs: seq<UserCost>, gas: u64, u: Address, ms: seq<Miner>): nat {
    if ms == [] then 0
    else IncomeSum(costs, gas, u, ms[..|ms| - 1]) + IncomeFrom(costs, gas, u, ms[|ms| - 1])
  }

  /** The part of them that a short advance payment covers. */
  function ShareSum(costs: seq<UserCost>, gas: u64, u: Address, advance: u64, cost: u64, ms: seq<Miner>): nat
    requires advance < cost
  {
    if ms == [] then 0
    else ShareSum(costs, gas, u, advance, cost, ms[..|ms| - 1]) +
         Share(IncomeFrom(costs, gas, u, ms[|ms| - 1]), advance, cost)
  }

  lemma {:induction false} SharesBelow(costs: seq<UserCost>, gas: u64, u: Address, advance: u64, cost: u64,
      ms: seq<Miner>)
    requires advance < cost
    ensures ShareSum(costs, gas, u, advance, cost, ms) <= IncomeSum(costs, gas, u, ms)
  {
    if ms != [] { SharesBelow(costs, gas, u, advance, cost, ms[..|ms| - 1]); }
  }

  lemma {:induction false} ShareSumScaled(costs: seq<UserCost>, gas: u64, u: Address, advance: u64, cost: u64,
      ms: seq<Miner>)
    requires advance < cost
    ensures ShareSum(costs, gas, u, advance, cost, ms) * cost <= IncomeSum(costs, gas, u, ms) * advance
  {
    if ms != [] {
      var init, last := ms[..|ms| - 1], ms[|ms| - 1];
      ShareSumScaled(costs, gas, u, advance, cost, init);
      var s, x := ShareSum(costs, gas, u, advance, cost, init), Share(IncomeFrom(costs, gas, u, last), advance, cost);
      var i, y := IncomeSum(costs, gas, u, init), IncomeFrom(costs, gas, u, last);
      Distribute(s, x, cost);
      Distribute(i, y, advance);
    }
  }

  lemma Distribute(x: nat, y: nat, k: nat)
    ensures (x + y) * k == x * k + y * k
  {}

  /** The floored shares of a balanced bill never exceed the advance payment. */
  lemma {:induction false} SharesFit(costs: seq<UserCost>, gas: u64, u: Address, advance: u64, cost: u64,
      ms: seq<Miner>)
    requires advance < cost && IncomeSum(costs, gas, u, ms) <= cost
    ensures ShareSum(costs, gas, u, advance, cost, ms) <= advance
  {
    ShareSumScaled(costs, gas, u, advance, cost, ms);
    Unscale(ShareSum(costs, gas, u, advance, cost, ms), IncomeSum(costs, gas, u, ms), advance, cost);
  }

  /** Each miner loses less than one by rounding. */
  lemma {:induction false} SharesLow(costs: seq<UserCost>, gas: u64, u: Address, advance: u64, cost: u64,
      ms: seq<Miner>)
    requires advance < cost
    ensures IncomeSum(costs, gas, u, ms) * advance <= (ShareSum(costs, gas, u, advance, cost, ms) + |ms|) * cost
    ensures ms != [] ==>
      IncomeSum(costs, gas, u, ms) * advance < (ShareSum(costs, gas, u, advance, cost, ms) + |ms|) * cost
  {
    if ms != [] {
      var init, last := ms[..|ms| - 1], ms[|ms| - 1];
      SharesLow(costs, gas, u, advance, cost, init);
      var s, x := ShareSum(costs, gas, u, advance, cost, init), Share(IncomeFrom(costs, gas, u, last), advance, cost);
      var i, y := IncomeSum(costs, gas, u, init), IncomeFrom(costs, gas, u, last);
      Distribute(s + |init|, x + 1, cost);
      Distribute(i, y, advance);
      assert s + |init| + (x + 1) == s + x + |ms|;
    }
  }

  /** If the incomes add up to the cost, the miners together get the advance payment, less at most what each loses by
      rounding. */
  lemma {:induction false} EvenShares(costs: seq<UserCost>, gas: u64, u: Address, advance: u64, cost: u64,
      ms: seq<Miner>)
    requires advance < cost && IncomeSum(costs, gas, u, ms) == cost
    ensures ShareSum(costs, gas, u, advance, cost, ms) <= advance < ShareSum(costs, gas, u, advance, cost, ms) + |ms|
  {
    SharesFit(costs, gas, u, advance, cost, ms);
    SharesLow(costs, gas, u, advance, cost, ms);
    Cancel(advance, ShareSum(costs, gas, u, advance, cost, ms) + |ms|, cost);
  }

  lemma Cancel(x: nat, y: nat, k: nat)
    requires k * x < y * k
    ensures x < y
  {
    if x >= y {
      MulMono(k, y, x);
      assert false;
    }
  }

  lemma Unscale(s: nat, i: nat, advance: nat, cost: nat)
    requires s * cost <= i * advance && i <= cost && advance < cost
    ensures s <= advance
  {
    MulMono(advance, i, cost);
    if s > advance {
      MulMono(cost, advance + 1, s);
      assert false;
    }
  }

  // ---------------------------------------------------------------- arrears

  /** What a miner has recorded as owed by user a. */
  function Owed(arrears: seq<UserArrears>, a: Address): nat {
    if arrears == [] then 0
    else
      var last := arrears[|arrears| - 1];
      Owed(arrears[..|arrears| - 1], a) + if last.user == a then last.amount else 0
  }

  /** At most one entry per user. */
  ghost predicate Unique(arrears: seq<UserArrears>) {
    forall i, j :: 0 <= i < j < |arrears| ==> arrears[i].user != arrears[j].user
  }

  lemma {:induction false} OwedNone(arrears: seq<UserArrears>, a: Address)
    requires forall i :: 0 <= i < |arrears| ==> arrears[i].user != a
    ensures Owed(arrears, a) == 0 && ArrearsEntries(arrears, a) == 0
  {
    if arrears != [] { OwedNone(arrears[..|arrears| - 1], a); }
  }

  lemma {:induction false} RaiseUsers(arrears: seq<UserArrears>, a: Address, diff: u64)
    ensures var r := RaiseArrears(arrears, a, diff);
      |r| == |arrears| && forall i :: 0 <= i < |r| ==> r[i].user == arrears[i].user
  {
    if arrears != [] { RaiseUsers(arrears[..|arrears| - 1], a, diff); }
  }

  lemma {:induction false} RaiseOwed(arrears: seq<UserArrears>, a: Address, diff: u64, k: nat)
    requires Unique(arrears) && k < |arrears| && arrears[k].user == a && arrears[k].amount + diff < LIMIT
    ensures Owed(RaiseArrears(arrears, a, diff), a) == Owed(arrears, a) + diff
    ensures ArrearsEntries(arrears, a) == 1
  {
    var init, last := arrears[..|arrears| - 1], arrears[|arrears| - 1];
    if k == |arrears| - 1 {
      BillingLoops.RaiseNone(init, a, diff);
      OwedNone(init, a);
    } else {
      assert Unique(init) && init[k] == arrears[k];
      RaiseOwed(init, a, diff, k);
    }
    var r := RaiseArrears(arrears, a, diff);
    assert r[..|r| - 1] == RaiseArrears(init, a, diff);
  }

  /** Recording an unpaid amount raises what user a owes by exactly that amount, and keeps entries
      unique. */
  lemma {:induction false} AddArrearsOwed(arrears: seq<UserArrears>, a: Address, diff: u64)
    requires Unique(arrears) && Owed(arrears, a) + diff < LIMIT
    ensures Owed(AddArrears(arrears, a, diff), a) == Owed(arrears, a) + diff
    ensures Unique(AddArrears(arrears, a, diff)) && ArrearsEntries(arrears, a) <= 1
  {
    if k :| 0 <= k < |arrears| && arrears[k].user == a {
      OwedAt(arrears, a, k);
      RaiseOwed(arrears, a, diff, k);
      RaiseUsers(arrears, a, diff);
    } else {
      OwedNone(arrears, a);
      var r := arrears + [UserArrears(a, diff)];
      assert r[..|r| - 1] == arrears;
    }
  }

  lemma {:induction false} OwedAt(arrears: seq<UserArrears>, a: Address, k: nat)
    requires k < |arrears| && arrears[k].user == a
    ensures arrears[k].amount <= Owed(arrears, a)
  {
    if k < |arrears| - 1 { OwedAt(arrears[..|arrears| - 1], a, k); }
  }

  // ---------------------------------------------------------------- the split

  /** A miner who is paid part of an income and records the rest. */
  function Credited(m: Miner, a: Address, income: u64, paid: u64): Miner
    requires paid <= income
  {
    m.(pending := Add(m.pending, paid), arrears := AddArrears(m.arrears, a, income - paid))
  }

  /** What the same adds to the arrears of the user. */
  function Charged(m: Miner, a: Address, diff: u64): u64 {
    if ArrearsEntries(m.arrears, a) == 0 then diff else TimesWrap(diff, ArrearsEntries(m.arrears, a))
  }

  lemma PayShareIs(costs: seq<UserCost>, gas: u64, u: DbUser, cost: u64, m: Miner)
    requires u.advance < cost
    ensures var income := IncomeFrom(costs, gas, u.address, m); var paid := Share(income, u.advance, cost);
      && PayShare(costs, gas, u, u.advance, cost, m) == Credited(m, u.address, income, paid)
      && ShareArrears(costs, gas, u, u.advance, cost, m) == Charged(m, u.address, income - paid)
  {}

  lemma {:induction false} CreditedOwed(m: Miner, a: Address, income: u64, paid: u64)
    requires paid <= income && Unique(m.arrears) && Owed(m.arrears, a) + income < LIMIT
    ensures var r := Credited(m, a, income, paid);
      Owed(r.arrears, a) + paid == Owed(m.arrears, a) + income && Unique(r.arrears) &&
        Charged(m, a, income - paid) + paid == income
  {
    AddArrearsOwed(m.arrears, a, income - paid);
    TimesOnce(income - paid);
  }

  /** Each income splits into what is paid and what is recorded as arrears at the miner; the user is
      charged the recorded part. */
  lemma ShortfallSplit(costs: seq<UserCost>, gas: u64, u: DbUser, cost: u64, m: Miner)
    requires u.advance < cost && Unique(m.arrears) &&
      Owed(m.arrears, u.address) + IncomeFrom(costs, gas, u.address, m) < LIMIT
    ensures var r := PayShare(costs, gas, u, u.advance, cost, m); var income := IncomeFrom(costs, gas, u.address, m);
      var paid := Share(income, u.advance, cost);
      && r.pending == Add(m.pending, paid) && Owed(r.arrears, u.address) + paid == Owed(m.arrears, u.address) + income
      && ShareArrears(costs, gas, u, u.advance, cost, m) + paid == income && Unique(r.arrears)
  {
    PayShareIs(costs, gas, u, cost, m);
    var income := IncomeFrom(costs, gas, u.address, m);
    CreditedOwed(m, u.address, income, Share(income, u.advance, cost));
  }

  lemma {:induction false} TimesOnce(diff: u64)
    ensures TimesWrap(diff, 1) == diff && TimesWrap(diff, 0) == 0
  {
    assert TimesWrap(diff, 1) == Add(TimesWrap(diff, 0), diff);
  }

  function OwedAll(ms: seq<Miner>, a: Address): nat {
    if ms == [] then 0 else OwedAll(ms[..|ms| - 1], a) + Owed(ms[|ms| - 1].arrears, a)
  }

  ghost predicate UniqueAll(ms: seq<Miner>) {
    forall k :: 0 <= k < |ms| ==> Unique(ms[k].arrears)
  }

  lemma {:induction false} PaidInit(costs: seq<UserCost>, gas: u64, u: DbUser, cost: u64, ms: seq<Miner>)
    requires u.advance < cost && ms != []
    ensures var k := |ms| - 1; var rs := PayShareAll(costs, gas, u, u.advance, cost, ms);
      && |rs| == k + 1 && rs[..k] == PayShareAll(costs, gas, u, u.advance, cost, ms[..k])
      && rs[k] == PayShare(costs, gas, u, u.advance, cost, ms[k])
  {}

  /** The miners are paid the shares. */
  lemma {:induction false} SharesPaid(costs: seq<UserCost>, gas: u64, u: DbUser, cost: u64, ms: seq<Miner>)
    requires u.advance < cost && MinersHold(ms) + ShareSum(costs, gas, u.address, u.advance, cost, ms) < LIMIT
    ensures MinersHold(PayShareAll(costs, gas, u, u.advance, cost, ms)) ==
            MinersHold(ms) + ShareSum(costs, gas, u.address, u.advance, cost, ms)
  {
    if ms != [] {
      PaidInit(costs, gas, u, cost, ms);
      SharesPaid(costs, gas, u, cost, ms[..|ms| - 1]);
    }
  }

  /** The incomes from user u fit 64 bits on top of what the miners hold and of what is owed. */
  predicate UnpaidFits(costs: seq<UserCost>, gas: u64, u: DbUser, ms: seq<Miner>, start: u64) {
    && MinersHold(ms) + IncomeSum(costs, gas, u.address, ms) < LIMIT
    && OwedAll(ms, u.address) + start + IncomeSum(costs, gas, u.address, ms) < LIMIT
  }

  lemma {:induction false} OneRecorded(costs: seq<UserCost>, gas: u64, u: DbUser, cost: u64, ms: seq<Miner>)
    requires u.advance < cost && ms != [] && Unique(ms[|ms| - 1].arrears)
    requires OwedAll(ms, u.address) + IncomeSum(costs, gas, u.address, ms) < LIMIT
    ensures var k := |ms| - 1; var rs := PayShareAll(costs, gas, u, u.advance, cost, ms);
      && |rs| == |ms| && rs[..k] == PayShareAll(costs, gas, u, u.advance, cost, ms[..k]) && Unique(rs[k].arrears)
      && Owed(rs[k].arrears, u.address) + Share(IncomeFrom(costs, gas, u.address, ms[k]), u.advance, cost) ==
         Owed(ms[k].arrears, u.address) + IncomeFrom(costs, gas, u.address, ms[k])
  {
    PaidInit(costs, gas, u, cost, ms);
    ShortfallSplit(costs, gas, u, cost, ms[|ms| - 1]);
  }

  /** What the miners record together and what they are paid make up the whole income. */
  lemma {:induction false} UnpaidRecorded(costs: seq<UserCost>, gas: u64, u: DbUser, cost: u64, ms: seq<Miner>)
    requires u.advance < cost && UniqueAll(ms) && UnpaidFits(costs, gas, u, ms, 0)
    ensures var rs := PayShareAll(costs, gas, u, u.advance, cost, ms);
      && OwedAll(rs, u.address) + ShareSum(costs, gas, u.address, u.advance, cost, ms) ==
         OwedAll(ms, u.address) + IncomeSum(costs, gas, u.address, ms)
      && UniqueAll(rs)
  {
    if ms != [] {
      UnpaidRecorded(costs, gas, u, cost, ms[..|ms| - 1]);
      OneRecorded(costs, gas, u, cost, ms);
    }
  }

  lemma AddFits(x: u64, y: u64)
    requires x + y < LIMIT
    ensures Add(x, y) == x + y
  {}

  /** The user's arrears rise by the same unpaid part. */
  lemma {:induction false} UnpaidOwed(costs: seq<UserCost>, gas: u64, u: DbUser, cost: u64, ms: seq<Miner>, start: u64)
    requires u.advance < cost && UniqueAll(ms) && UnpaidFits(costs, gas, u, ms, start)
    ensures ArrearsAll(costs, gas, u, u.advance, cost, ms, start) +
      ShareSum(costs, gas, u.address, u.advance, cost, ms) ==
            start + IncomeSum(costs, gas, u.address, ms)
  {
    if ms != [] {
      var init, last := ms[..|ms| - 1], ms[|ms| - 1];
      UnpaidOwed(costs, gas, u, cost, init, start);
      ShortfallSplit(costs, gas, u, cost, last);
      AddFits(ArrearsAll(costs, gas, u, u.advance, cost, init, start),
        ShareArrears(costs, gas, u, u.advance, cost, last));
    }
  }

  /** What the miners together are paid and what they record make up the whole income, the user's arrears rise by
      exactly what they record. A balanced bill pays them at most the advance payment, and an even one all of it but
      what rounding takes, less than one per miner. */
  ghost predicate Split(costs: seq<UserCost>, gas: u64, u: DbUser, cost: u64, ms: seq<Miner>)
    requires u.advance < cost
  {
    var rs := PayShareAll(costs, gas, u, u.advance, cost, ms);
    var rise := ArrearsAll(costs, gas, u, u.advance, cost, ms, u.arrears) - u.arrears;
    var paid := MinersHold(rs) - MinersHold(ms);
    && 0 <= paid && (IncomeSum(costs, gas, u.address, ms) <= cost ==> paid <= u.advance)
    && (IncomeSum(costs, gas, u.address, ms) == cost ==> u.advance < paid + |ms|)
    && rise == OwedAll(rs, u.address) - OwedAll(ms, u.address)
    && paid + rise == IncomeSum(costs, gas, u.address, ms)
  }

  /** When the advance payment falls short of a bill, the incomes split so. */
  lemma {:induction false} ShortfallTotal(costs: seq<UserCost>, gas: u64, u: DbUser, cost: u64, ms: seq<Miner>)
    requires u.advance < cost && UniqueAll(ms) && UnpaidFits(costs, gas, u, ms, u.arrears)
    ensures Split(costs, gas, u, cost, ms)
  {
    if IncomeSum(costs, gas, u.address, ms) <= cost { SharesFit(costs, gas, u.address, u.advance, cost, ms); }
    if IncomeSum(costs, gas, u.address, ms) == cost { EvenShares(costs, gas, u.address, u.advance, cost, ms); }
    UnpaidOwed(costs, gas, u, cost, ms, u.arrears);
    UnpaidRecorded(costs, gas, u, cost, ms);
    SharesBelow(costs, gas, u.address, u.advance, cost, ms);
    SharesPaid(costs, gas, u, cost, ms);
  }

  // ---------------------------------------------------------------- the supply under billing

  lemma {:induction false} FullPaid(costs: seq<UserCost>, gas: u64, u: DbUser, ms: seq<Miner>)
    requires MinersHold(ms) + IncomeSum(costs, gas, u.address, ms) < LIMIT
    ensures MinersHold(PayFullAll(costs, gas, u, ms)) == MinersHold(ms) + IncomeSum(costs, gas, u.address, ms)
  {
    if ms != [] {
      var k := |ms| - 1;
      var rs := PayFullAll(costs, gas, u, ms);
      assert rs[..k] == PayFullAll(costs, gas, u, ms[..k]);
      FullPaid(costs, gas, u, ms[..k]);
    }
  }

  ghost predicate SameAddresses(ms: seq<Miner>, ns: seq<Miner>) {
    |ms| == |ns| && forall k :: 0 <= k < |ms| ==> ms[k].address == ns[k].address
  }

  lemma {:induction false} IncomeSame(costs: seq<UserCost>, gas: u64, u: Address, ms: seq<Miner>, ns: seq<Miner>)
    requires SameAddresses(ms, ns)
    ensures IncomeSum(costs, gas, u, ms) == IncomeSum(costs, gas, u, ns)
  {
    if ms != [] { IncomeSame(costs, gas, u, ms[..|ms| - 1], ns[..|ns| - 1]); }
  }

  /** No user is charged less than the miners are to receive. */
  ghost predicate Balanced(costs: seq<UserCost>, gas: u64, users: seq<DbUser>, ms: seq<Miner>) {
    forall i :: 0 <= i < |users| ==>
      IncomeSum(costs, gas, users[i].address, ms) <= Mul(CostOf(costs, users[i].address), gas)
  }

  lemma {:induction false} ShareSame(costs: seq<UserCost>, gas: u64, u: Address, advance: u64, cost: u64,
                                     ms: seq<Miner>, ns: seq<Miner>)
    requires SameAddresses(ms, ns) && advance < cost
    ensures ShareSum(costs, gas, u, advance, cost, ms) == ShareSum(costs, gas, u, advance, cost, ns)
  {
    if ms != [] { ShareSame(costs, gas, u, advance, cost, ms[..|ms| - 1], ns[..|ns| - 1]); }
  }

  /** What a bill takes from the advance payment of a user. */
  function Charge(costs: seq<UserCost>, gas: u64, u: DbUser): u64 {
    var cost := Mul(CostOf(costs, u.address), gas);
    if u.advance >= cost then cost else u.advance
  }

  /** What the miners get for it: their incomes, or their shares if the advance payment falls short. */
  function Payout(costs: seq<UserCost>, gas: u64, u: DbUser, ms: seq<Miner>): nat {
    var cost := Mul(CostOf(costs, u.address), gas);
    if u.advance >= cost then IncomeSum(costs, gas, u.address, ms)
    else ShareSum(costs, gas, u.address, u.advance, cost, ms)
  }

  function UsersPayout(costs: seq<UserCost>, gas: u64, users: seq<DbUser>, ms: seq<Miner>): nat {
    if users == [] then 0
    else UsersPayout(costs, gas, users[..|users| - 1], ms) + Payout(costs, gas, users[|users| - 1], ms)
  }

  /** What a user pays and no miner gets; negative if the miners get more than the user pays. */
  function UserLoss(costs: seq<UserCost>, gas: u64, u: DbUser, ms: seq<Miner>): int {
    Charge(costs, gas, u) - Payout(costs, gas, u, ms)
  }

  function UsersLoss(costs: seq<UserCost>, gas: u64, users: seq<DbUser>, ms: seq<Miner>): int {
    if users == [] then 0
    else UsersLoss(costs, gas, users[..|users| - 1], ms) + UserLoss(costs, gas, users[|users| - 1], ms)
  }

  lemma {:induction false} PayoutSame(costs: seq<UserCost>, gas: u64, u: DbUser, ms: seq<Miner>, ns: seq<Miner>)
    requires SameAddresses(ms, ns)
    ensures Payout(costs, gas, u, ms) == Payout(costs, gas, u, ns)
  {
    IncomeSame(costs, gas, u.address, ms, ns);
    if u.advance < Mul(CostOf(costs, u.address), gas) {
      ShareSame(costs, gas, u.address, u.advance, Mul(CostOf(costs, u.address), gas), ms, ns);
    }
  }

  lemma {:induction false} LossSame(costs: seq<UserCost>, gas: u64, users: seq<DbUser>, ms: seq<Miner>, ns: seq<Miner>)
    requires SameAddresses(ms, ns)
    ensures UsersLoss(costs, gas, users, ms) == UsersLoss(costs, gas, users, ns)
    ensures UsersPayout(costs, gas, users, ms) == UsersPayout(costs, gas, users, ns)
  {
    if users != [] {
      LossSame(costs, gas, users[..|users| - 1], ms, ns);
      PayoutSame(costs, gas, users[|users| - 1], ms, ns);
    }
  }

  /** The miners get the payout, and the user and they together lose the loss. */
  lemma {:induction false} BillUserHolds(costs: seq<UserCost>, gas: u64, u: DbUser, ms: seq<Miner>)
    requires MinersHold(ms) + Payout(costs, gas, u, ms) < LIMIT
    ensures var b := BillUser(costs, gas, u, ms);
      && MinersHold(b.miners) == MinersHold(ms) + Payout(costs, gas, u, ms) && SameAddresses(b.miners, ms)
      && UserHolds(b.user) + Charge(costs, gas, u) == UserHolds(u)
  {
    var cost := Mul(CostOf(costs, u.address), gas);
    if u.advance >= cost { FullPaid(costs, gas, u, ms); } else { SharesPaid(costs, gas, u, cost, ms); }
  }

  lemma {:induction false} BillUsersHold(costs: seq<UserCost>, gas: u64, users: seq<DbUser>, ms: seq<Miner>)
    requires MinersHold(ms) + UsersPayout(costs, gas, users, ms) < LIMIT
    ensures var b := BillUsers(costs, gas, users, ms);
      && MinersHold(b.miners) == MinersHold(ms) + UsersPayout(costs, gas, users, ms) && SameAddresses(b.miners, ms)
      && UsersHold(b.users) + MinersHold(b.miners) + UsersLoss(costs, gas, users, ms) ==
        UsersHold(users) + MinersHold(ms)
  {
    if users != [] {
      var k := |users| - 1;
      BillUsersHold(costs, gas, users[..k], ms);
      var before := BillUsers(costs, gas, users[..k], ms);
      PayoutSame(costs, gas, users[k], before.miners, ms);
      BillUserHolds(costs, gas, users[k], before.miners);
      var b := BillUsers(costs, gas, users, ms);
      assert b.users[..k] == before.users;
    }
  }

  /** A balanced bill pays no more than it charges. */
  lemma {:induction false} BalancedLoss(costs: seq<UserCost>, gas: u64, users: seq<DbUser>, ms: seq<Miner>)
    requires Balanced(costs, gas, users, ms)
    ensures UsersLoss(costs, gas, users, ms) >= 0 && UsersPayout(costs, gas, users, ms) <= UsersHold(users)
  {
    if users != [] {
      var u := users[|users| - 1];
      BalancedLoss(costs, gas, users[..|users| - 1], ms);
      var cost := Mul(CostOf(costs, u.address), gas);
      if u.advance < cost { SharesFit(costs, gas, u.address, u.advance, cost, ms); }
    }
  }

  /** Every user is charged what the miners are to receive. */
  ghost predicate Even(costs: seq<UserCost>, gas: u64, users: seq<DbUser>, ms: seq<Miner>) {
    forall i :: 0 <= i < |users| ==>
      IncomeSum(costs, gas, users[i].address, ms) == Mul(CostOf(costs, users[i].address), gas)
  }

  /** How many users cannot pay the bill. */
  function ShortUsers(costs: seq<UserCost>, gas: u64, users: seq<DbUser>): nat {
    if users == [] then 0
    else
      var u := users[|users| - 1];
      ShortUsers(costs, gas, users[..|users| - 1]) + if u.advance < Mul(CostOf(costs, u.address), gas) then 1 else 0
  }

  lemma {:induction false} EvenUserLoss(costs: seq<UserCost>, gas: u64, u: DbUser, ms: seq<Miner>)
    requires IncomeSum(costs, gas, u.address, ms) == Mul(CostOf(costs, u.address), gas)
    ensures if u.advance < Mul(CostOf(costs, u.address), gas) then 0 <= UserLoss(costs, gas, u, ms) < |ms|
            else UserLoss(costs, gas, u, ms) == 0
  {
    var cost := Mul(CostOf(costs, u.address), gas);
    if u.advance < cost { EvenShares(costs, gas, u.address, u.advance, cost, ms); }
  }

  /** An even bill loses by rounding only: less than one per miner for each user who cannot pay, nothing for the
      others. */
  lemma {:induction false} EvenLoss(costs: seq<UserCost>, gas: u64, users: seq<DbUser>, ms: seq<Miner>)
    requires Even(costs, gas, users, ms)
    ensures 0 <= UsersLoss(costs, gas, users, ms)
    ensures UsersLoss(costs, gas, users, ms) + ShortUsers(costs, gas, users) <= ShortUsers(costs, gas, users) * |ms|
  {
    if users != [] {
      var init, u := users[..|users| - 1], users[|users| - 1];
      EvenLoss(costs, gas, init, ms);
      EvenUserLoss(costs, gas, u, ms);
      Distribute(ShortUsers(costs, gas, init), 1, |ms|);
    }
  }

  lemma {:induction false} ReceiveHolds(ms: seq<Miner>, rs: seq<Miner>)
    requires MinersHold(ms) < LIMIT && |rs| == |ms|
    requires forall i :: 0 <= i < |rs| ==> rs[i] == ms[i].(received := Add(ms[i].received, ms[i].pending), pending := 0)
    ensures MinersHold(rs) == MinersHold(ms) && SameAddresses(rs, ms)
  {
    if ms != [] { ReceiveHolds(ms[..|ms| - 1], rs[..|rs| - 1]); }
  }

  /** What a bill takes out of the supply of a profile. */
  function BillLoss(p: Profile, costs: seq<UserCost>): int {
    UsersLoss(costs, p.gasPrice, p.users, p.miners)
  }

  /** The miners' holdings fit 64 bits after the bill. */
  predicate BillFits(p: Profile, costs: seq<UserCost>) {
    MinersHold(p.miners) + UsersPayout(costs, p.gasPrice, p.users, p.miners) < LIMIT
  }

  lemma {:induction false} BilledProfile(p: Profile, costs: seq<UserCost>)
    requires BillFits(p, costs)
    ensures var b := BillUsers(costs, p.gasPrice, p.users, Receive(p.miners));
      UsersHold(b.users) + MinersHold(b.miners) + BillLoss(p, costs) == ProfileHolds(p)
  {
    var rs := Receive(p.miners);
    ReceiveHolds(p.miners, rs);
    LossSame(costs, p.gasPrice, p.users, rs, p.miners);
    BillUsersHold(costs, p.gasPrice, p.users, rs);
  }

  lemma {:induction false} BilledSupply(l: Ledger, d: Address, costs: seq<UserCost>, to: nat)
    requires d in l.databases && BillFits(l.databases[d], costs)
    ensures var p := l.databases[d]; var b := BillUsers(costs, p.gasPrice, p.users, Receive(p.miners));
      Supply(l.(databases := l.databases[d := p.(lastUpdated := to, users := b.users, miners := b.miners)])) +
        BillLoss(p, costs) == Supply(l)
  {
    var p := l.databases[d];
    BilledProfile(p, costs);
    var b := BillUsers(costs, p.gasPrice, p.users, Receive(p.miners));
    ProfilePut(l, d, p.(lastUpdated := to, users := b.users, miners := b.miners));
  }

  /** Whatever costs and incomes a miner sends: an accepted bill takes exactly its loss out of the supply, so the
      supply grows exactly if the miners are paid more than the users are charged. */
  lemma BillingChange(l: Ledger, key: nat, t: Body)
    requires t.UpdateBilling? && (t.billed in l.databases ==> BillFits(l.databases[t.billed], t.costs))
    ensures var r := ApplyBilling(l, key, t);
      && !r.err.BalanceOverflow? && (!r.err.NoErr? ==> r.ledger == l)
      && (r.err.NoErr? ==>
            && t.billed in l.databases
            && var p := l.databases[t.billed];
               && Supply(r.ledger) + (if p.gasPrice > 0 then BillLoss(p, t.costs) else 0) == Supply(l)
               && (Supply(r.ledger) > Supply(l) <==> p.gasPrice > 0 && BillLoss(p, t.costs) < 0))
  {
    if t.billed in l.databases { BilledSupply(l, t.billed, t.costs, t.to); }
  }

  lemma {:induction false} BalancedFits(l: Ledger, d: Address, costs: seq<UserCost>)
    requires d in l.databases && Supply(l) < LIMIT
    requires Balanced(costs, l.databases[d].gasPrice, l.databases[d].users, l.databases[d].miners)
    ensures BillFits(l.databases[d], costs) && BillLoss(l.databases[d], costs) >= 0
  {
    HoldingPart(l, d);
    BalancedLoss(costs, l.databases[d].gasPrice, l.databases[d].users, l.databases[d].miners);
  }

  /** Balanced billing never adds to the supply. */
  lemma BillingNeverGrows(l: Ledger, key: nat, t: Body)
    requires t.UpdateBilling? && Supply(l) < LIMIT
    requires t.billed in l.databases ==>
      Balanced(t.costs, l.databases[t.billed].gasPrice, l.databases[t.billed].users, l.databases[t.billed].miners)
    ensures var r := ApplyBilling(l, key, t);
      && !r.err.BalanceOverflow? && (!r.err.NoErr? ==> r.ledger == l)
      && (r.err.NoErr? ==>
            && t.billed in l.databases
            && var p := l.databases[t.billed];
               && BillLoss(p, t.costs) >= 0
               && Supply(r.ledger) + (if p.gasPrice > 0 then BillLoss(p, t.costs) else 0) == Supply(l))
  {
    if t.billed in l.databases { BalancedFits(l, t.billed, t.costs); }
    BillingChange(l, key, t);
  }
}
