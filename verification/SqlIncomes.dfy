/** Which miner earns what: the incomes of a bill, from the requests in the blocks to the main chain. */
module SqlIncomes {
  import opened Common
  import opened LedgerTypes
  import opened Transactions
  import opened BillingLoops
  import opened BillingSupply
  import opened SqlBilling

  // ---------------------------------------------------------------- requests

  /** A request that is charged to its user and earned by a miner: the one that answered it, or the producer of the
      block if it failed. */
  datatype Event = Event(user: Address, miner: Address, rows: u64, failed: bool)

  function QueryEvents(qs: seq<Query>): seq<Event> {
    if qs == [] then []
    else
      var q := qs[|qs| - 1];
      QueryEvents(qs[..|qs| - 1]) + [Event(q.user, q.miner, q.rows, false)]
  }

  function FailedEvents(producer: Address, fs: seq<Failed>): seq<Event> {
    if fs == [] then []
    else
      var f := fs[|fs| - 1];
      FailedEvents(producer, fs[..|fs| - 1]) + [Event(f.user, producer, f.queries, true)]
  }

  /** The requests of the blocks in the order of the walk. */
  function Events(ns: seq<SqlNode>): seq<Event> {
    if ns == [] then []
    else QueryEvents(ns[0].block.queries) + FailedEvents(ns[0].block.producer, ns[0].block.failed) + Events(ns[1..])
  }

  function AddEvent(b: Bill, e: Event): Bill {
    if e.failed then AddFailed(b, e.miner, Failed(e.user, e.rows)) else AddQuery(b, Query(e.user, e.miner, e.rows))
  }

  function AddEvents(b: Bill, es: seq<Event>): Bill {
    if es == [] then b else AddEvent(AddEvents(b, es[..|es| - 1]), es[|es| - 1])
  }

  lemma {:induction false} AddConcat(b: Bill, es: seq<Event>, fs: seq<Event>)
    ensures AddEvents(b, es + fs) == AddEvents(AddEvents(b, es), fs)
  {
    if fs == [] {
      assert es + fs == es;
    } else {
      assert (es + fs)[..|es + fs| - 1] == es + fs[..|fs| - 1];
      AddConcat(b, es, fs[..|fs| - 1]);
    }
  }

  lemma {:induction false} QueriesAre(b: Bill, qs: seq<Query>)
    ensures AddQueries(b, qs) == AddEvents(b, QueryEvents(qs))
  {
    if qs != [] {
      QueriesAre(b, qs[..|qs| - 1]);
      var es := QueryEvents(qs);
      assert es[..|es| - 1] == QueryEvents(qs[..|qs| - 1]);
    }
  }

  lemma {:induction false} FailedAre(b: Bill, p: Address, fs: seq<Failed>)
    ensures AddAllFailed(b, p, fs) == AddEvents(b, FailedEvents(p, fs))
  {
    if fs != [] {
      FailedAre(b, p, fs[..|fs| - 1]);
      var es := FailedEvents(p, fs);
      assert es[..|es| - 1] == FailedEvents(p, fs[..|fs| - 1]);
    }
  }

  lemma {:induction false} BlocksAre(b: Bill, ns: seq<SqlNode>)
    ensures AddBlocks(b, ns) == AddEvents(b, Events(ns))
    decreases |ns|
  {
    if ns != [] {
      var k := ns[0].block;
      var es, fs := QueryEvents(k.queries), FailedEvents(k.producer, k.failed);
      QueriesAre(b, k.queries);
      FailedAre(AddQueries(b, k.queries), k.producer, k.failed);
      BlocksAre(AddBlock(b, k), ns[1..]);
      AddConcat(b, es, fs);
      AddConcat(b, es + fs, Events(ns[1..]));
    }
  }

  // ---------------------------------------------------------------- what a miner earns

  /** What miner m earns from user u by the requests from position start on. */
  function Earned(es: seq<Event>, start: nat, u: Address, m: Address): nat {
    if |es| <= start then 0
    else
      var e := es[|es| - 1];
      Earned(es[..|es| - 1], start, u, m) + if e.user == u && e.miner == m then e.rows else 0
  }

  /** A request of u earned by m is among those from position start on. */
  predicate Serves(es: seq<Event>, start: nat, u: Address, m: Address) {
    exists j :: start <= j < |es| && es[j].user == u && es[j].miner == m
  }

  /** The last position at which the incomes from u were started afresh: by a failed request of u in a block whose
      producer had earned nothing from u since the time before. */
  function Fresh(es: seq<Event>, u: Address): (start: nat)
    ensures start <= |es|
  {
    if es == [] then 0
    else
      var init, e := es[..|es| - 1], es[|es| - 1];
      if e.failed && e.user == u && !Serves(init, Fresh(init, u), u, e.miner) then |es| - 1 else Fresh(init, u)
  }

  lemma {:induction false} ServesNext(es: seq<Event>, start: nat, u: Address, m: Address)
    requires es != [] && start < |es|
    ensures var init, e := es[..|es| - 1], es[|es| - 1];
      Serves(es, start, u, m) <==> Serves(init, start, u, m) || (e.user == u && e.miner == m)
  {
    var init := es[..|es| - 1];
    if Serves(init, start, u, m) {
      var j :| start <= j < |init| && init[j].user == u && init[j].miner == m;
      assert es[j] == init[j];
    }
    if Serves(es, start, u, m) && !(es[|es| - 1].user == u && es[|es| - 1].miner == m) {
      var j :| start <= j < |es| && es[j].user == u && es[j].miner == m;
      assert init[j] == es[j];
    }
  }

  lemma {:induction false} ServesLast(es: seq<Event>, u: Address, m: Address)
    requires es != []
    ensures Serves(es, |es| - 1, u, m) <==> es[|es| - 1].user == u && es[|es| - 1].miner == m
  {
    assert es[|es| - 1] == es[|es| - 1];
  }

  lemma {:induction false} EarnedLast(es: seq<Event>, u: Address, m: Address)
    requires es != []
    ensures var e := es[|es| - 1]; Earned(es, |es| - 1, u, m) == if e.user == u && e.miner == m then e.rows else 0
  {
    assert |es[..|es| - 1]| == |es| - 1;
  }

  /** The bill records of user u what the miners earned since the last fresh start. */
  ghost predicate Records(b: Bill, es: seq<Event>, u: Address, m: Address) {
    && (m in Inner(b.miners, u) <==> Serves(es, Fresh(es, u), u, m))
    && Get(Inner(b.miners, u), m) == Earned(es, Fresh(es, u), u, m) % LIMIT
  }

  lemma {:induction false} OtherEvent(b: Bill, es: seq<Event>, u: Address, m: Address)
    requires es != [] && es[|es| - 1].user != u && Records(b, es[..|es| - 1], u, m)
    ensures Records(AddEvent(b, es[|es| - 1]), es, u, m)
  {
    ServesNext(es, Fresh(es, u), u, m);
  }

  lemma {:induction false} NextEvent(b: Bill, es: seq<Event>, u: Address, m: Address)
    requires es != [] && es[|es| - 1].user == u
    requires var init, e := es[..|es| - 1], es[|es| - 1]; Records(b, init, u, m) && Records(b, init, u, e.miner)
    ensures Records(AddEvent(b, es[|es| - 1]), es, u, m)
  {
    var init, e := es[..|es| - 1], es[|es| - 1];
    if e.failed && !Serves(init, Fresh(init, u), u, e.miner) {
      ServesLast(es, u, m);
      EarnedLast(es, u, m);
    } else {
      ServesNext(es, Fresh(init, u), u, m);
      ModAdd(Earned(init, Fresh(init, u), u, m), e.rows);
    }
  }

  lemma {:induction false} EventsRecorded(es: seq<Event>, u: Address, m: Address)
    ensures Records(AddEvents(EMPTY, es), es, u, m)
  {
    if es != [] {
      var init, e := es[..|es| - 1], es[|es| - 1];
      EventsRecorded(init, u, m);
      if e.user == u {
        EventsRecorded(init, u, e.miner);
        NextEvent(AddEvents(EMPTY, init), es, u, m);
      } else {
        OtherEvent(AddEvents(EMPTY, init), es, u, m);
      }
    }
  }

  // ---------------------------------------------------------------- rows of the range

  function QueryRowsBy(qs: seq<Query>, u: Address, m: Address): nat {
    if qs == [] then 0
    else
      var q := qs[|qs| - 1];
      QueryRowsBy(qs[..|qs| - 1], u, m) + if q.user == u && q.miner == m then q.rows else 0
  }

  /** The rows of u's queries that m answered, and the queries of u's failed requests if m produced the block. */
  function BlockRowsBy(k: SqlBlock, u: Address, m: Address): nat {
    QueryRowsBy(k.queries, u, m) + if k.producer == m then FailedRows(k.failed, u) else 0
  }

  /** The same over the blocks of the chain of n with heights in (low, h]. */
  function RangeRowsBy(n: Option<SqlNode>, low: nat, h: nat, u: Address, m: Address): nat {
    if n.None? then 0
    else
      RangeRowsBy(n.value.parent, low, h, u, m) +
      if low < n.value.height <= h then BlockRowsBy(n.value.block, u, m) else 0
  }

  lemma {:induction false} EarnedConcat(es: seq<Event>, fs: seq<Event>, u: Address, m: Address)
    ensures Earned(es + fs, 0, u, m) == Earned(es, 0, u, m) + Earned(fs, 0, u, m)
  {
    if fs == [] {
      assert es + fs == es;
    } else {
      assert (es + fs)[..|es + fs| - 1] == es + fs[..|fs| - 1];
      EarnedConcat(es, fs[..|fs| - 1], u, m);
    }
  }

  lemma {:induction false} QueriesBy(qs: seq<Query>, u: Address, m: Address)
    ensures Earned(QueryEvents(qs), 0, u, m) == QueryRowsBy(qs, u, m)
  {
    if qs != [] {
      QueriesBy(qs[..|qs| - 1], u, m);
      var es := QueryEvents(qs);
      assert es[..|es| - 1] == QueryEvents(qs[..|qs| - 1]);
    }
  }

  lemma {:induction false} FailedBy(p: Address, fs: seq<Failed>, u: Address, m: Address)
    ensures Earned(FailedEvents(p, fs), 0, u, m) == if p == m then FailedRows(fs, u) else 0
  {
    if fs != [] {
      FailedBy(p, fs[..|fs| - 1], u, m);
      var es := FailedEvents(p, fs);
      assert es[..|es| - 1] == FailedEvents(p, fs[..|fs| - 1]);
    }
  }

  lemma {:induction false} WalkedBy(n: Option<SqlNode>, low: nat, h: nat, u: Address, m: Address)
    requires n.Some? ==> Ascending(n.value) && n.value.height <= h
    ensures Earned(Events(Walked(n, low)), 0, u, m) == RangeRowsBy(n, low, h, u, m)
    decreases n
  {
    if n.Some? && n.value.height > low {
      var ns, k := Walked(n, low), n.value.block;
      assert ns[1..] == Walked(n.value.parent, low);
      WalkedBy(n.value.parent, low, h, u, m);
      QueriesBy(k.queries, u, m);
      FailedBy(k.producer, k.failed, u, m);
      EarnedConcat(QueryEvents(k.queries), FailedEvents(k.producer, k.failed), u, m);
      EarnedConcat(QueryEvents(k.queries) + FailedEvents(k.producer, k.failed), Events(ns[1..]), u, m);
    } else if n.Some? {
      BelowBy(n, low, h, u, m);
    }
  }

  lemma {:induction false} BelowBy(n: Option<SqlNode>, low: nat, h: nat, u: Address, m: Address)
    requires n.Some? ==> Ascending(n.value) && n.value.height <= low
    ensures RangeRowsBy(n, low, h, u, m) == 0
    decreases n
  {
    if n.Some? { BelowBy(n.value.parent, low, h, u, m); }
  }

  lemma {:induction false} SkipBy(n: Option<SqlNode>, low: nat, h: nat, u: Address, m: Address)
    requires n.Some? ==> Ascending(n.value)
    ensures RangeRowsBy(Skip(n, h), low, h, u, m) == RangeRowsBy(n, low, h, u, m)
    ensures Skip(n, h).Some? ==> Ascending(Skip(n, h).value) && Skip(n, h).value.height <= h
    decreases n
  {
    if n.Some? && n.value.height > h { SkipBy(n.value.parent, low, h, u, m); }
  }

  /** Nothing of u is dropped: before the last fresh start there was no request of u. */
  predicate NothingDropped(es: seq<Event>, u: Address) {
    forall j :: 0 <= j < Fresh(es, u) ==> es[j].user != u
  }

  lemma {:induction false} EarnedSince(es: seq<Event>, start: nat, u: Address, m: Address)
    requires start <= |es| && forall j :: 0 <= j < start ==> es[j].user != u
    ensures Earned(es, start, u, m) == Earned(es, 0, u, m)
  {
    if es != [] {
      var init := es[..|es| - 1];
      if start < |es| {
        EarnedSince(init, start, u, m);
      } else {
        EarnedSince(init, |init|, u, m);
        assert Earned(init, |init|, u, m) == 0;
      }
    }
  }

  /** From user u, miner m earns in the bill what it is due since the last fresh start, modulo 64 bits. If nothing is
      dropped this is the rows of u's queries that m answered and the queries of u's failed requests in blocks that m
      produced, over exactly the blocks in the range. */
  lemma {:induction false} EarnedBy(n: SqlNode, h: nat, low: nat, u: Address, m: Address)
    requires Ascending(n)
    ensures var ns := Walked(Skip(Some(n), h), low); var es := Events(ns); var b := AddBlocks(EMPTY, ns);
      && Get(Inner(b.miners, u), m) == Earned(es, Fresh(es, u), u, m) % LIMIT
      && (NothingDropped(es, u) ==> Get(Inner(b.miners, u), m) == RangeRowsBy(Some(n), low, h, u, m) % LIMIT)
  {
    var ns := Walked(Skip(Some(n), h), low);
    var es := Events(ns);
    BlocksAre(EMPTY, ns);
    EventsRecorded(es, u, m);
    SkipBy(Some(n), low, h, u, m);
    WalkedBy(Skip(Some(n), h), low, h, u, m);
    if NothingDropped(es, u) { EarnedSince(es, Fresh(es, u), u, m); }
  }

  // ---------------------------------------------------------------- on the main chain

  lemma {:induction false} EarnersPay(es: seq<Event>)
    ensures AddEvents(EMPTY, es).users.Keys == AddEvents(EMPTY, es).miners.Keys
  {
    if es != [] { EarnersPay(es[..|es| - 1]); }
  }

  /** The list that is sent reports these incomes. */
  lemma {:induction false} ReportedBy(n: SqlNode, h: nat, low: nat, costs: seq<UserCost>, u: Address, m: Address)
    requires Ascending(n) && Reports(costs, AddBlocks(EMPTY, Walked(Skip(Some(n), h), low)))
    ensures var es := Events(Walked(Skip(Some(n), h), low));
      && IncomeOf(costs, u, m) == Earned(es, Fresh(es, u), u, m) % LIMIT
      && (NothingDropped(es, u) ==> IncomeOf(costs, u, m) == RangeRowsBy(Some(n), low, h, u, m) % LIMIT)
  {
    var ns := Walked(Skip(Some(n), h), low);
    EarnedBy(n, h, low, u, m);
    BlocksAre(EMPTY, ns);
    EarnersPay(Events(ns));
  }

  /** What a bill pays a miner for one user: its income, or its share if the advance payment falls short. */
  function PaidFor(costs: seq<UserCost>, gas: u64, u: DbUser, m: Address): u64 {
    var cost, income := Mul(CostOf(costs, u.address), gas), Mul(IncomeOf(costs, u.address, m), gas);
    if u.advance >= cost then income else Share(income, u.advance, cost)
  }

  function PaidForAll(costs: seq<UserCost>, gas: u64, users: seq<DbUser>, m: Address): nat {
    if users == [] then 0
    else PaidForAll(costs, gas, users[..|users| - 1], m) + PaidFor(costs, gas, users[|users| - 1], m)
  }

  lemma BillUserPays(costs: seq<UserCost>, gas: u64, u: DbUser, ms: seq<Miner>, k: nat)
    requires k < |ms|
    ensures var b := BillUser(costs, gas, u, ms);
      && |b.miners| == |ms| && b.miners[k].address == ms[k].address && b.miners[k].received == ms[k].received
      && b.miners[k].pending == Add(ms[k].pending, PaidFor(costs, gas, u, ms[k].address))
  {}

  /** The miner at position k was ms[k], and has pending x more. */
  ghost predicate Gained(ms: seq<Miner>, after: seq<Miner>, k: nat, x: nat)
    requires k < |ms|
  {
    && |after| == |ms| && after[k].address == ms[k].address && after[k].received == ms[k].received
    && after[k].pending == (ms[k].pending + x) % LIMIT
  }

  lemma {:induction false} GainedNext(costs: seq<UserCost>, gas: u64, u: DbUser, ms: seq<Miner>, after: seq<Miner>,
                                      k: nat, x: nat)
    requires k < |ms| && Gained(ms, after, k, x)
    ensures Gained(ms, BillUser(costs, gas, u, after).miners, k, x + PaidFor(costs, gas, u, ms[k].address))
  {
    BillUserPays(costs, gas, u, after, k);
    ModAdd(ms[k].pending + x, PaidFor(costs, gas, u, ms[k].address));
  }

  /** Each miner of a database gets for the users of a bill, one after the other, what the bill reports of it. */
  lemma {:induction false} BillUsersPay(costs: seq<UserCost>, gas: u64, users: seq<DbUser>, ms: seq<Miner>, k: nat)
    requires k < |ms|
    ensures Gained(ms, BillUsers(costs, gas, users, ms).miners, k, PaidForAll(costs, gas, users, ms[k].address))
  {
    if users != [] {
      var init, u := users[..|users| - 1], users[|users| - 1];
      BillUsersPay(costs, gas, init, ms, k);
      GainedNext(costs, gas, u, ms, BillUsers(costs, gas, init, ms).miners, k,
                 PaidForAll(costs, gas, init, ms[k].address));
    }
  }

  /** After an accepted bill, what was pending is received and each miner has pending what the bill reports of it. */
  lemma {:induction false} BillPays(l: Ledger, key: nat, t: Body, k: nat)
    requires t.UpdateBilling? && t.billed in l.databases && k < |l.databases[t.billed].miners|
    requires ApplyBilling(l, key, t).err.NoErr? && l.databases[t.billed].gasPrice > 0
    ensures var p, q := l.databases[t.billed], ApplyBilling(l, key, t).ledger.databases[t.billed];
      && |q.miners| == |p.miners| && q.miners[k].address == p.miners[k].address
      && q.miners[k].received == Add(p.miners[k].received, p.miners[k].pending)
      && q.miners[k].pending == PaidForAll(t.costs, p.gasPrice, p.users, p.miners[k].address) % LIMIT
  {
    var p := l.databases[t.billed];
    BillUsersPay(t.costs, p.gasPrice, p.users, Receive(p.miners), k);
  }
}
