/** Candidates for a new database are sorted by node id only, so equal ids leave the chosen miners open.
    When the choice is determined, and what two different choices lead to. */
module LedgerTies {
  import opened Common
  import opened LedgerTypes
  import opened Transactions
  import opened LedgerFacts

  // ---------------------------------------------------------------- the first n candidates

  ghost function Below(ps: map<Address, Provider>, s: set<Address>, id: nat): set<Address>
    requires s <= ps.Keys
  {
    set z | z in s && ps[z].nodeID < id
  }

  /** No two candidates share a node id unless at least n others come before them. */
  ghost predicate NoTie(ps: map<Address, Provider>, s: set<Address>, n: nat)
    requires s <= ps.Keys
  {
    forall x, y :: x in s && y in s && x != y && ps[x].nodeID == ps[y].nodeID ==> n <= |Below(ps, s, ps[x].nodeID)|
  }

  /** Every listing by ascending node ids is the order of some rank. */
  lemma {:induction false} AnyListing(ps: map<Address, Provider>, s: set<Address>, r: seq<Address>) returns (rank: Rank)
    requires s <= ps.Keys && |r| == |s| && (forall a :: a in r <==> a in s)
    requires forall i, j :: 0 <= i < j < |r| ==> r[i] != r[j] && ps[r[i]].nodeID <= ps[r[j]].nodeID
    ensures Sorted(rank, ps, s) == r
  {
    rank := a => Position(r, a);
    ListedFrom(rank, ps, s, r, 0);
    assert r[0..] == r;
    assert (set a | a in r) == s;
  }

  function Position(r: seq<Address>, a: Address): nat {
    if r == [] || r[|r| - 1] == a then |r| else Position(r[..|r| - 1], a)
  }

  lemma {:induction false} PositionAt(r: seq<Address>, i: nat)
    requires i < |r| && forall i, j :: 0 <= i < j < |r| ==> r[i] != r[j]
    ensures Position(r, r[i]) == i + 1
  {
    if i < |r| - 1 { PositionAt(r[..|r| - 1], i); }
  }

  lemma {:induction false} ListedFrom(rank: Rank, ps: map<Address, Provider>, s: set<Address>, r: seq<Address>, k: nat)
    requires s <= ps.Keys && k <= |r| && (forall a :: a in r[k..] <==> a in s) && (forall a :: a in r ==> a in ps)
    requires forall i, j :: 0 <= i < j < |r| ==> r[i] != r[j] && ps[r[i]].nodeID <= ps[r[j]].nodeID
    requires forall a :: rank(a) == Position(r, a)
    ensures Sorted(rank, ps, s) == r[k..]
    decreases |r| - k
  {
    if k == |r| {
      assert s == {};
    } else {
      ListedFirst(rank, ps, s, r, k);
      SortedFirst(rank, ps, s, r[k]);
      ListedRest(s, r, k);
      ListedFrom(rank, ps, s - {r[k]}, r, k + 1);
    }
  }

  lemma {:induction false} ListedFirst(rank: Rank, ps: map<Address, Provider>, s: set<Address>, r: seq<Address>, k: nat)
    requires s <= ps.Keys && k < |r| && (forall a :: a in r[k..] <==> a in s) && (forall a :: a in r ==> a in ps)
    requires forall i, j :: 0 <= i < j < |r| ==> r[i] != r[j] && ps[r[i]].nodeID <= ps[r[j]].nodeID
    requires forall a :: rank(a) == Position(r, a)
    ensures IsFirst(rank, ps, s, r[k])
  {
    assert r[k] in r[k..];
    forall x | x in s && x != r[k] ensures Earlier(rank, ps, r[k], x) {
      var j :| k <= j < |r| && r[j] == x;
      PositionAt(r, k);
      PositionAt(r, j);
    }
  }

  lemma ListedRest(s: set<Address>, r: seq<Address>, k: nat)
    requires k < |r| && (forall a :: a in r[k..] <==> a in s) && forall i, j :: 0 <= i < j < |r| ==> r[i] != r[j]
    ensures r[k..] == [r[k]] + r[k + 1..]
    ensures forall a :: a in r[k + 1..] <==> a in s - {r[k]}
  {
    assert r[k..] == [r[k]] + r[k + 1..];
  }

  /** Without ties the first candidate is strictly first, and the rest has no ties either. */
  lemma {:induction false} NoTieFirst(rank: Rank, ps: map<Address, Provider>, s: set<Address>, n: nat, m: Address)
    requires s <= ps.Keys && n > 0 && NoTie(ps, s, n) && IsFirst(rank, ps, s, m)
    ensures forall x :: x in s && x != m ==> ps[m].nodeID < ps[x].nodeID
    ensures NoTie(ps, s - {m}, n - 1)
  {
    assert Below(ps, s, ps[m].nodeID) == {};
    forall x, y | x in s - {m} && y in s - {m} && x != y && ps[x].nodeID == ps[y].nodeID
      ensures n - 1 <= |Below(ps, s - {m}, ps[x].nodeID)|
    {
      assert Below(ps, s - {m}, ps[x].nodeID) == Below(ps, s, ps[x].nodeID) - {m};
    }
  }

  lemma SamePrefix(a: seq<Address>, b: seq<Address>, x: seq<Address>, y: seq<Address>, m: Address, n: nat)
    requires a == [m] + x && b == [m] + y && 0 < n <= |a| && n <= |b|
    ensures a[..n] == b[..n] <==> x[..n - 1] == y[..n - 1]
  {
    assert a[..n] == [m] + x[..n - 1] && b[..n] == [m] + y[..n - 1];
    assert a[..n][1..] == x[..n - 1] && b[..n][1..] == y[..n - 1];
  }

  lemma {:induction false} StrictFirst(p: Rank, ps: map<Address, Provider>, s: set<Address>, m: Address)
    requires s <= ps.Keys && m in s && forall x :: x in s && x != m ==> ps[m].nodeID < ps[x].nodeID
    ensures |Sorted(p, ps, s)| == |s| && |Sorted(p, ps, s - {m})| == |s| - 1
    ensures Sorted(p, ps, s) == [m] + Sorted(p, ps, s - {m})
  {
    assert IsFirst(p, ps, s, m);
    SortedFirst(p, ps, s, m);
    SortedMembers(p, ps, s);
    SortedMembers(p, ps, s - {m});
  }

  lemma {:induction false} StrictPrefix(p: Rank, q: Rank, ps: map<Address, Provider>, s: set<Address>, m: Address,
      n: nat)
    requires s <= ps.Keys && m in s && 0 < n <= |s| && forall x :: x in s && x != m ==> ps[m].nodeID < ps[x].nodeID
    ensures |Sorted(p, ps, s)| == |Sorted(q, ps, s)| == |s|
    ensures |Sorted(p, ps, s - {m})| == |Sorted(q, ps, s - {m})| == |s| - 1
    ensures Sorted(p, ps, s)[..n] == Sorted(q, ps, s)[..n] <==>
            Sorted(p, ps, s - {m})[..n - 1] == Sorted(q, ps, s - {m})[..n - 1]
  {
    StrictFirst(p, ps, s, m);
    StrictFirst(q, ps, s, m);
    SamePrefix(Sorted(p, ps, s), Sorted(q, ps, s), Sorted(p, ps, s - {m}), Sorted(q, ps, s - {m}), m, n);
  }

  lemma {:induction false} SortedSame(p: Rank, q: Rank, ps: map<Address, Provider>, s: set<Address>, n: nat)
    requires s <= ps.Keys && n <= |s| && NoTie(ps, s, n)
    ensures |Sorted(p, ps, s)| == |Sorted(q, ps, s)| == |s|
    ensures Sorted(p, ps, s)[..n] == Sorted(q, ps, s)[..n]
    decreases n
  {
    if n == 0 {
      SortedMembers(p, ps, s);
      SortedMembers(q, ps, s);
    } else {
      var m := FirstOf(p, ps, s);
      NoTieFirst(p, ps, s, n, m);
      StrictPrefix(p, q, ps, s, m, n);
      SortedSame(p, q, ps, s - {m}, n - 1);
    }
  }

  lemma FirstOf(p: Rank, ps: map<Address, Provider>, s: set<Address>) returns (m: Address)
    requires s != {} && s <= ps.Keys
    ensures IsFirst(p, ps, s, m)
  {
    FirstExists(p, ps, s);
    m :| IsFirst(p, ps, s, m);
  }

  /** The rank that puts m before its equals. */
  function Favour(m: Address): Rank {
    a => if a == m then 0 else 1
  }

  lemma {:induction false} Favoured(ps: map<Address, Provider>, s: set<Address>, m: Address)
    requires s <= ps.Keys && m in s && forall x :: x in s ==> ps[m].nodeID <= ps[x].nodeID
    ensures |Sorted(Favour(m), ps, s)| == |s| && Sorted(Favour(m), ps, s)[0] == m
  {
    assert IsFirst(Favour(m), ps, s, m);
    SortedFirst(Favour(m), ps, s, m);
    SortedMembers(Favour(m), ps, s);
  }

  lemma {:induction false} TwoFirst(ps: map<Address, Provider>, s: set<Address>, n: nat, m: Address, z: Address)
    requires s <= ps.Keys && 0 < n <= |s| && m in s && z in s && m != z && ps[m].nodeID == ps[z].nodeID
    requires forall x :: x in s ==> ps[m].nodeID <= ps[x].nodeID
    ensures |Sorted(Favour(m), ps, s)| == |Sorted(Favour(z), ps, s)| == |s|
    ensures Sorted(Favour(m), ps, s)[..n] != Sorted(Favour(z), ps, s)[..n]
  {
    Favoured(ps, s, m);
    Favoured(ps, s, z);
    assert Sorted(Favour(m), ps, s)[..n][0] == m && Sorted(Favour(z), ps, s)[..n][0] == z;
  }

  lemma TieLeft(ps: map<Address, Provider>, s: set<Address>, n: nat, m: Address)
    requires s <= ps.Keys && m in s && n > 0 && !NoTie(ps, s, n)
    requires forall x :: x in s && x != m ==> ps[m].nodeID < ps[x].nodeID
    ensures !NoTie(ps, s - {m}, n - 1)
  {
    var x, y :| x in s && y in s && x != y && ps[x].nodeID == ps[y].nodeID && |Below(ps, s, ps[x].nodeID)| < n;
    assert Below(ps, s - {m}, ps[x].nodeID) == Below(ps, s, ps[x].nodeID) - {m};
    assert m in Below(ps, s, ps[x].nodeID);
    assert x in s - {m} && y in s - {m};
  }

  lemma LeastId(ps: map<Address, Provider>, s: set<Address>) returns (m: Address)
    requires s != {} && s <= ps.Keys
    ensures m in s && forall x :: x in s ==> ps[m].nodeID <= ps[x].nodeID
  {
    m := FirstOf(_ => 0, ps, s);
  }

  lemma TieNeeds(ps: map<Address, Provider>, s: set<Address>, n: nat)
    requires s <= ps.Keys && !NoTie(ps, s, n)
    ensures n > 0 && s != {}
  {}

  lemma {:induction false} TiedDiffers(ps: map<Address, Provider>, s: set<Address>, n: nat) returns (p: Rank, q: Rank)
    requires s <= ps.Keys && n <= |s| && !NoTie(ps, s, n)
    ensures |Sorted(p, ps, s)| == |Sorted(q, ps, s)| == |s|
    ensures Sorted(p, ps, s)[..n] != Sorted(q, ps, s)[..n]
    decreases n
  {
    TieNeeds(ps, s, n);
    var m := LeastId(ps, s);
    if forall x :: x in s && x != m ==> ps[m].nodeID < ps[x].nodeID {
      TieLeft(ps, s, n, m);
      p, q := TiedDiffers(ps, s - {m}, n - 1);
      StrictPrefix(p, q, ps, s, m, n);
    } else {
      var z :| z in s && z != m && ps[z].nodeID == ps[m].nodeID;
      p, q := Favour(m), Favour(z);
      TwoFirst(ps, s, n, m, z);
    }
  }

  // ---------------------------------------------------------------- the miners of a request

  /** The miners of a request do not depend on how ties fall. */
  ghost predicate Untied(l: Ledger, t: Body, a: Address)
    requires t.CreateDatabase?
  {
    var picked := PickTargets(l, t, a, t.nodes, 0, Picked([], NoErr));
    var n := t.nodes - |picked.miners|;
    n <= 0 || |t.targets| >= t.nodes || |Candidates(l, t, a)| < n || NoTie(l.providers, Candidates(l, t, a), n)
  }

  lemma {:induction false} MinersDiffer(l: Ledger, r: seq<Address>, s: seq<Address>)
    requires (forall i :: 0 <= i < |r| ==> r[i] in l.providers) && (forall i :: 0 <= i < |s| ==> s[i] in l.providers)
    requires MinersOf(l, r) == MinersOf(l, s)
    ensures r == s
  {
    forall i | 0 <= i < |r| ensures r[i] == s[i] {
      assert MinersOf(l, r)[i].address == r[i] && MinersOf(l, s)[i].address == s[i];
    }
  }

  lemma FilterSame(p: Rank, q: Rank, l: Ledger, t: Body, a: Address, n: nat)
    requires t.CreateDatabase? && (|Candidates(l, t, a)| < n || NoTie(l.providers, Candidates(l, t, a), n))
    ensures FilterMiners(p, l, t, a, n) == FilterMiners(q, l, t, a, n)
  {
    var s := Candidates(l, t, a);
    if n <= |s| {
      SortedMembers(p, l.providers, s);
      SortedSame(p, q, l.providers, s, n);
    }
  }

  lemma FilterDiffers(l: Ledger, t: Body, a: Address, n: nat) returns (p: Rank, q: Rank)
    requires t.CreateDatabase? && n <= |Candidates(l, t, a)| && !NoTie(l.providers, Candidates(l, t, a), n)
    ensures FilterMiners(p, l, t, a, n).Some? && FilterMiners(q, l, t, a, n).Some?
    ensures FilterMiners(p, l, t, a, n) != FilterMiners(q, l, t, a, n)
  {
    var s := Candidates(l, t, a);
    p, q := TiedDiffers(l.providers, s, n);
    SortedMembers(p, l.providers, s);
    SortedMembers(q, l.providers, s);
    var x, y := Sorted(p, l.providers, s)[..n], Sorted(q, l.providers, s)[..n];
    if MinersOf(l, x) == MinersOf(l, y) { MinersDiffer(l, x, y); }
  }

  lemma MatchSame(p: Rank, q: Rank, l: Ledger, t: Body, a: Address)
    requires t.CreateDatabase? && Untied(l, t, a)
    ensures MatchMiners(p, l, t, a) == MatchMiners(q, l, t, a)
  {
    var n := t.nodes - |PickTargets(l, t, a, t.nodes, 0, Picked([], NoErr)).miners|;
    if n > 0 && |t.targets| < t.nodes {
      FilterSame(p, q, l, t, a, n);
      SameFilter(p, q, l, t, a, n);
    }
  }

  lemma {:induction false} SameFilter(p: Rank, q: Rank, l: Ledger, t: Body, a: Address, n: nat)
    requires t.CreateDatabase? && n == t.nodes - |PickTargets(l, t, a, t.nodes, 0, Picked([], NoErr)).miners|
    requires FilterMiners(p, l, t, a, n) == FilterMiners(q, l, t, a, n)
    ensures MatchMiners(p, l, t, a) == MatchMiners(q, l, t, a)
  {}

  lemma MatchDiffers(l: Ledger, t: Body, a: Address) returns (p: Rank, q: Rank)
    requires t.CreateDatabase? && !Untied(l, t, a)
    ensures MatchMiners(p, l, t, a).Miners? && MatchMiners(q, l, t, a).Miners?
    ensures MatchMiners(p, l, t, a) != MatchMiners(q, l, t, a)
  {
    var picked := PickTargets(l, t, a, t.nodes, 0, Picked([], NoErr));
    var n := t.nodes - |picked.miners|;
    p, q := FilterDiffers(l, t, a, n);
    var x, y := FilterMiners(p, l, t, a, n).value, FilterMiners(q, l, t, a, n).value;
    assert (picked.miners + x)[|picked.miners|..] == x && (picked.miners + y)[|picked.miners|..] == y;
  }

  /** The miners of a request are determined exactly if no two of the candidates needed, nor the last
      needed and the next one, share a node id. */
  lemma MatchDetermined(l: Ledger, t: Body, a: Address)
    requires t.CreateDatabase?
    ensures (forall p: Rank, q: Rank :: MatchMiners(p, l, t, a) == MatchMiners(q, l, t, a)) <==> Untied(l, t, a)
  {
    if Untied(l, t, a) {
      forall p: Rank, q: Rank ensures MatchMiners(p, l, t, a) == MatchMiners(q, l, t, a) { MatchSame(p, q, l, t, a); }
    } else {
      var p, q := MatchDiffers(l, t, a);
    }
  }

  // ---------------------------------------------------------------- transactions

  function Retied(cfg: Config, ties: Ties): Config {
    cfg.(ties := ties)
  }

  ghost predicate UntiedTx(l: Ledger, tx: Tx) {
    tx.body.CreateDatabase? ==> Untied(l, tx.body, User(tx.key))
  }

  lemma CreateSame(cfg: Config, ties: Ties, l: Ledger, key: nat, nonce: nat, t: Body)
    requires t.CreateDatabase?
    requires MatchMiners(RankOf(cfg, l, key, nonce, t), l, t, User(key)) ==
             MatchMiners(RankOf(Retied(cfg, ties), l, key, nonce, t), l, t, User(key))
    ensures MatchProvidersWithUser(Retied(cfg, ties), l, key, nonce, t) == MatchProvidersWithUser(cfg, l, key, nonce, t)
  {}

  lemma OtherSame(cfg: Config, ties: Ties, l: Ledger, tx: Tx, height: nat)
    requires !tx.body.CreateDatabase?
    ensures ApplyBody(Retied(cfg, ties), l, tx, height) == ApplyBody(cfg, l, tx, height)
  {}

  /** A transaction that is not tied has one outcome, however ties fall. */
  lemma ApplySame(cfg: Config, ties: Ties, l: Ledger, tx: Tx, height: nat)
    requires UntiedTx(l, tx)
    ensures Apply(Retied(cfg, ties), l, tx, height) == Apply(cfg, l, tx, height)
  {
    if tx.body.CreateDatabase? {
      MatchSame(RankOf(cfg, l, tx.key, tx.nonce, tx.body), RankOf(Retied(cfg, ties), l, tx.key, tx.nonce, tx.body),
                l, tx.body, User(tx.key));
      CreateSame(cfg, ties, l, tx.key, tx.nonce, tx.body);
    } else {
      OtherSame(cfg, ties, l, tx, height);
    }
  }

  /** Which miners are found does not decide whether a creation is accepted, and they are in the
      profile. */
  lemma CreateKeepsMiners(cfg: Config, ties: Ties, l: Ledger, key: nat, nonce: nat, t: Body)
    requires t.CreateDatabase? && MatchMiners(RankOf(cfg, l, key, nonce, t), l, t, User(key)).Miners?
    requires MatchMiners(RankOf(Retied(cfg, ties), l, key, nonce, t), l, t, User(key)).Miners?
    ensures var r := MatchProvidersWithUser(cfg, l, key, nonce, t);
            var s := MatchProvidersWithUser(Retied(cfg, ties), l, key, nonce, t); var db := Database(User(key), nonce);
      && r.err == s.err && (!r.err.NoErr? ==> r == s)
      && (r.err.NoErr? ==>
            && db in r.ledger.databases && db in s.ledger.databases
            && r.ledger.databases[db].miners == MatchMiners(RankOf(cfg, l, key, nonce, t), l, t, User(key)).miners
            && s.ledger.databases[db].miners ==
                 MatchMiners(RankOf(Retied(cfg, ties), l, key, nonce, t), l, t, User(key)).miners)
  {}

  lemma TiedMatches(rank: Rank, l: Ledger, t: Body, a: Address)
    requires t.CreateDatabase? && !Untied(l, t, a)
    ensures MatchMiners(rank, l, t, a).Miners?
  {}

  lemma RejectedSame(cfg: Config, ties: Ties, l: Ledger, tx: Tx, height: nat)
    requires !UntiedTx(l, tx)
    ensures Apply(Retied(cfg, ties), l, tx, height).err == Apply(cfg, l, tx, height).err
    ensures !Apply(cfg, l, tx, height).err.NoErr? ==>
      Apply(Retied(cfg, ties), l, tx, height) == Apply(cfg, l, tx, height)
  {
    TiedMatches(RankOf(cfg, l, tx.key, tx.nonce, tx.body), l, tx.body, User(tx.key));
    TiedMatches(RankOf(Retied(cfg, ties), l, tx.key, tx.nonce, tx.body), l, tx.body, User(tx.key));
    CreateKeepsMiners(cfg, ties, l, tx.key, tx.nonce, tx.body);
  }

  /** All ties fall like rank. */
  function Always(rank: Rank): Ties {
    (_: nat, _: nat, _: Body, _: map<Address, Provider>) => rank
  }

  lemma AcceptedMiners(cfg: Config, rank: Rank, l: Ledger, tx: Tx, height: nat)
    requires !UntiedTx(l, tx) && Apply(cfg, l, tx, height).err.NoErr?
    ensures var r := Apply(Retied(cfg, Always(rank)), l, tx, height); var db := Database(User(tx.key), tx.nonce);
      && r.err.NoErr? && MatchMiners(rank, l, tx.body, User(tx.key)).Miners? && db in r.ledger.databases
      && r.ledger.databases[db].miners == MatchMiners(rank, l, tx.body, User(tx.key)).miners
  {
    assert RankOf(Retied(cfg, Always(rank)), l, tx.key, tx.nonce, tx.body) == rank;
    TiedMatches(RankOf(cfg, l, tx.key, tx.nonce, tx.body), l, tx.body, User(tx.key));
    TiedMatches(rank, l, tx.body, User(tx.key));
    CreateKeepsMiners(cfg, Always(rank), l, tx.key, tx.nonce, tx.body);
  }

  lemma ApplyDiffers(cfg: Config, l: Ledger, tx: Tx, height: nat) returns (p: Ties, q: Ties)
    requires !UntiedTx(l, tx) && Apply(cfg, l, tx, height).err.NoErr?
    ensures Apply(Retied(cfg, p), l, tx, height).err.NoErr? && Apply(Retied(cfg, q), l, tx, height).err.NoErr?
    ensures Apply(Retied(cfg, p), l, tx, height) != Apply(Retied(cfg, q), l, tx, height)
  {
    var x, y := MatchDiffers(l, tx.body, User(tx.key));
    p, q := Always(x), Always(y);
    AcceptedMiners(cfg, x, l, tx, height);
    AcceptedMiners(cfg, y, l, tx, height);
  }

  /** A transaction has one outcome exactly if it is not an accepted creation with a tie. */
  lemma ApplyDetermined(cfg: Config, l: Ledger, tx: Tx, height: nat)
    ensures
      (forall p: Ties, q: Ties :: Apply(Retied(cfg, p), l, tx, height) == Apply(Retied(cfg, q), l, tx, height)) <==>
            UntiedTx(l, tx) || !Apply(cfg, l, tx, height).err.NoErr?
  {
    if UntiedTx(l, tx) || !Apply(cfg, l, tx, height).err.NoErr? {
      forall p: Ties ensures Apply(Retied(cfg, p), l, tx, height) == Apply(cfg, l, tx, height) {
        if UntiedTx(l, tx) { ApplySame(cfg, p, l, tx, height); } else { RejectedSame(cfg, p, l, tx, height); }
      }
    } else {
      var p, q := ApplyDiffers(cfg, l, tx, height);
    }
  }
}
