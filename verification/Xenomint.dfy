/** The write log of a database: a writer executes requests and packs them into blocks, replicas
    replay the blocks. Statements are opaque; the database is the sequence of executed statements. */
module Xenomint {
  import opened Common

  /** A statement, and whether it succeeds on a database with the given history. */
  type Statement = nat

  type Engine = (seq<Statement>, Statement) -> bool

  datatype Kind = Read | Write

  /** Isolation levels: reading uncommitted data the state keeps one transaction open and can go back to a savepoint;
      at any other level every statement is committed on its own. */
  datatype Level = ReadUncommitted | Other

  datatype Request = Request(id: nat, kind: Kind, queries: seq<Statement>)

  /** A request with the sequence number before it, its log offset. */
  datatype Tracker = Tracker(req: Request, offset: nat) {
    function End(): nat { offset + |req.queries| }
  }

  datatype Block = Block(queries: seq<Tracker>, failed: seq<Request>)

  // ---------------------------------------------------------------- execution

  /** How many of the statements succeed before the first failure. */
  function Succeeds(run: Engine, log: seq<Statement>, qs: seq<Statement>): (k: nat)
    ensures k <= |qs|
    decreases |qs|
  {
    if qs == [] || !run(log, qs[0]) then 0 else 1 + Succeeds(run, log + [qs[0]], qs[1..])
  }

  /** Every statement of the log succeeded on what was before it. */
  ghost predicate Sound(run: Engine, log: seq<Statement>) {
    forall i {:trigger SoundAt(run, log, i)} :: 0 <= i < |log| ==> SoundAt(run, log, i)
  }

  predicate SoundAt(run: Engine, log: seq<Statement>, i: int) {
    0 <= i < |log| && run(log[..i], log[i])
  }

  lemma {:induction false} SoundAgain(run: Engine, full: seq<Statement>, i: nat, qs: seq<Statement>)
    requires Sound(run, full) && i + |qs| <= |full| && full[i..i + |qs|] == qs
    ensures Succeeds(run, full[..i], qs) == |qs|
    decreases |qs|
  {
    if qs != [] {
      assert SoundAt(run, full, i) && full[i] == full[i..i + |qs|][0];
      assert full[..i] + [qs[0]] == full[..i + 1];
      assert full[i + 1..i + |qs|] == full[i..i + |qs|][1..] == qs[1..];
      SoundAgain(run, full, i + 1, qs[1..]);
    }
  }

  /** The statements that succeed do so on their own. */
  lemma {:induction false} SucceedsSome(run: Engine, log: seq<Statement>, qs: seq<Statement>)
    ensures var k := Succeeds(run, log, qs); Succeeds(run, log, qs[..k]) == k
    decreases |qs|
  {
    if qs != [] && run(log, qs[0]) {
      SucceedsSome(run, log + [qs[0]], qs[1..]);
      var k := Succeeds(run, log, qs);
      assert qs[..k][1..] == qs[1..][..k - 1];
    }
  }

  lemma {:induction false} SoundGrows(run: Engine, log: seq<Statement>, qs: seq<Statement>)
    requires Sound(run, log) && Succeeds(run, log, qs) == |qs|
    ensures Sound(run, log + qs)
    decreases |qs|
  {
    if qs == [] {
      assert log + qs == log;
    } else {
      var more := log + [qs[0]];
      forall i | 0 <= i < |more| ensures SoundAt(run, more, i) {
        if i < |log| { assert SoundAt(run, log, i) && more[..i] == log[..i]; } else { assert more[..i] == log; }
      }
      SoundGrows(run, more, qs[1..]);
      assert more + qs[1..] == log + qs;
    }
  }

  // ---------------------------------------------------------------- pool

  /** Every offset is indexed with the position of the last query that has it. */
  ghost predicate Indexed(queries: seq<Tracker>, index: map<nat, nat>) {
    && (forall sp :: sp in index ==> index[sp] < |queries| && queries[index[sp]].offset == sp)
    && (forall p :: 0 <= p < |queries| ==> queries[p].offset in index && p <= index[queries[p].offset])
  }

  /** Offsets do not descend. */
  ghost predicate Ordered(queries: seq<Tracker>) {
    forall p, q :: 0 <= p < q < |queries| ==> queries[p].offset <= queries[q].offset
  }

  ghost predicate Below(queries: seq<Tracker>, n: nat) {
    forall p :: 0 <= p < |queries| ==> queries[p].offset <= n
  }

  predicate Has(queries: seq<Tracker>, sp: nat) {
    exists p :: 0 <= p < |queries| && queries[p].offset == sp
  }

  /** The queries without those at the front whose offset is at most sp. */
  function Beyond(queries: seq<Tracker>, sp: nat): seq<Tracker> {
    if queries == [] || queries[0].offset > sp then queries else Beyond(queries[1..], sp)
  }

  /** What truncating at sp leaves: without a query at sp, everything. */
  function Truncated(queries: seq<Tracker>, sp: nat): seq<Tracker> {
    if Has(queries, sp) then Beyond(queries, sp) else queries
  }

  class Pool {
    var queries: seq<Tracker>
    var index: map<nat, nat>
    var failed: set<Request>

    ghost predicate Valid()
      reads this
    {
      Indexed(queries, index)
    }

    constructor ()
      ensures Valid() && queries == [] && failed == {}
    {
      queries, index, failed := [], map[], {};
    }

    method Enqueue(sp: nat, q: Tracker)
      requires Valid() && q.offset == sp
      modifies this`queries, this`index
      ensures Valid() && queries == old(queries) + [q]
      ensures Below(old(queries), sp) && Ordered(old(queries)) ==> Below(queries, sp) && Ordered(queries)
    {
      queries, index := queries + [q], index[sp := |queries|];
    }

    /** Whether the last query at offset sp is the given request. */
    method Match(sp: nat, req: Request) returns (ok: bool)
      requires Valid()
      ensures ok <==> exists p :: 0 <= p < |queries| && queries[p] == Tracker(req, sp) &&
                        forall q :: p < q < |queries| ==> queries[q].offset != sp
    {
      if sp !in index { return false; }
      ok := queries[index[sp]].req == req;
    }

    method MatchLast(sp: nat) returns (ok: bool)
      requires Valid()
      ensures ok <==> queries != [] && queries[|queries| - 1].offset == sp
    {
      if sp !in index { return false; }
      ok := index[sp] == |queries| - 1;
    }

    /** Drops the queries up to offset sp; an unknown offset changes nothing. */
    method Truncate(sp: nat)
      requires Valid() && Ordered(queries)
      modifies this`queries, this`index
      ensures Valid() && Ordered(queries) && queries == Truncated(old(queries), sp)
    {
      if sp !in index { return; }
      var next, rest := RebuildIndex(queries, index, sp);
      index, queries := next, rest;
    }
  }

  /** What is left after the queries up to offset sp, with its positions. */
  method RebuildIndex(queries: seq<Tracker>, index: map<nat, nat>, sp: nat)
    returns (next: map<nat, nat>, rest: seq<Tracker>)
    requires Indexed(queries, index) && Ordered(queries) && sp in index
    ensures rest == Truncated(queries, sp) && Indexed(rest, next) && Ordered(rest)
  {
    var pos := index[sp];
    rest := queries[pos + 1..];
    next := map[];
    var left := index.Keys;
    while left != {}
      invariant left <= index.Keys
      invariant forall k :: k in next <==> k in index && k !in left && k > sp
      invariant forall k :: k in next ==> index[k] > pos && next[k] == index[k] - (pos + 1)
      decreases left
    {
      var k :| k in left;
      if k > sp {
        LaterPosition(queries, index, sp, k);
        next := next[k := index[k] - (pos + 1)];
      }
      left := left - {k};
    }
    TruncateIndexed(queries, index, next, sp);
    TruncatedAt(queries, index, sp);
  }

  lemma LaterPosition(queries: seq<Tracker>, index: map<nat, nat>, sp: nat, k: nat)
    requires Indexed(queries, index) && Ordered(queries) && sp in index && k in index && k > sp
    ensures index[k] > index[sp]
  {}

  lemma AfterLast(queries: seq<Tracker>, index: map<nat, nat>, sp: nat, p: nat)
    requires Indexed(queries, index) && Ordered(queries) && sp in index && index[sp] < p < |queries|
    ensures queries[p].offset > sp
  {
    assert queries[index[sp]].offset <= queries[p].offset;
  }

  lemma {:induction false} BeyondAt(queries: seq<Tracker>, sp: nat, k: nat)
    requires k <= |queries| && (forall p :: 0 <= p < k ==> queries[p].offset <= sp)
    requires k < |queries| ==> queries[k].offset > sp
    ensures Beyond(queries, sp) == queries[k..]
  {
    if k > 0 { BeyondAt(queries[1..], sp, k - 1); }
  }

  lemma TruncatedAt(queries: seq<Tracker>, index: map<nat, nat>, sp: nat)
    requires Indexed(queries, index) && Ordered(queries) && sp in index
    ensures Truncated(queries, sp) == queries[index[sp] + 1..]
  {
    var k := index[sp];
    assert Has(queries, sp);
    if k + 1 < |queries| { AfterLast(queries, index, sp, k + 1); }
    BeyondAt(queries, sp, k + 1);
  }

  /** next holds the keys after sp, moved down. */
  ghost predicate Moved(index: map<nat, nat>, next: map<nat, nat>, sp: nat) {
    && sp in index && (forall k :: k in next <==> k in index && k > sp)
    && (forall k :: k in next ==> index[k] > index[sp] && next[k] == index[k] - (index[sp] + 1))
  }

  lemma MovedBack(queries: seq<Tracker>, index: map<nat, nat>, next: map<nat, nat>, sp: nat, p: nat)
    requires Indexed(queries, index) && Ordered(queries) && Moved(index, next, sp) && index[sp] + 1 + p < |queries|
    ensures var q := queries[index[sp] + 1 + p]; q.offset in next && p <= next[q.offset]
  {
    AfterLast(queries, index, sp, index[sp] + 1 + p);
  }

  lemma TruncateIndexed(queries: seq<Tracker>, index: map<nat, nat>, next: map<nat, nat>, sp: nat)
    requires Indexed(queries, index) && Ordered(queries) && Moved(index, next, sp)
    ensures Indexed(queries[index[sp] + 1..], next) && Ordered(queries[index[sp] + 1..])
  {
    var pos := index[sp];
    var rest := queries[pos + 1..];
    forall p | 0 <= p < |rest| ensures rest[p].offset in next && p <= next[rest[p].offset] {
      MovedBack(queries, index, next, sp, p);
    }
    forall k | k in next ensures next[k] < |rest| && rest[next[k]].offset == k {
      assert rest[next[k]] == queries[index[k]];
    }
    forall p, q | 0 <= p < q < |rest| ensures rest[p].offset <= rest[q].offset {
      assert rest[p] == queries[pos + 1 + p] && rest[q] == queries[pos + 1 + q];
    }
  }

  // ---------------------------------------------------------------- requests in the log

  /** The requests tile the log from its start, none of them empty. */
  ghost predicate Tile(all: seq<Tracker>, full: seq<Statement>) {
    if all == [] then full == []
    else
      var last := all[|all| - 1];
      && last.req.kind.Write? && last.req.queries != [] && last.End() == |full|
      && full[last.offset..] == last.req.queries && Tile(all[..|all| - 1], full[..last.offset])
  }

  /** Where a request ends, or the start. */
  ghost predicate Cut(all: seq<Tracker>, n: nat) {
    n == 0 || exists i :: 0 <= i < |all| && all[i].End() == n
  }

  lemma {:induction false} TileAt(all: seq<Tracker>, full: seq<Statement>, i: nat)
    requires Tile(all, full) && i < |all|
    ensures all[i].End() <= |full| && full[all[i].offset..all[i].End()] == all[i].req.queries
    ensures all[i].req.queries != []
    ensures all[i].req.kind.Write?
  {
    var k := |all| - 1;
    if i < k {
      var init := full[..all[k].offset];
      TileAt(all[..k], init, i);
      assert full[all[i].offset..all[i].End()] == init[all[i].offset..all[i].End()];
    }
  }

  lemma {:induction false} TileOrdered(all: seq<Tracker>, full: seq<Statement>, i: nat, j: nat)
    requires Tile(all, full) && i < j < |all|
    ensures all[i].End() <= all[j].offset
  {
    var k := |all| - 1;
    if j < k {
      TileOrdered(all[..k], full[..all[k].offset], i, j);
    } else {
      TileAt(all[..k], full[..all[k].offset], i);
    }
  }

  /** A request that starts before a cut ends before it. */
  lemma {:induction false} BeforeCut(all: seq<Tracker>, full: seq<Statement>, i: nat, n: nat)
    requires Tile(all, full) && i < |all| && Cut(all, n) && all[i].offset < n
    ensures all[i].End() <= n
  {
    var j :| 0 <= j < |all| && all[j].End() == n;
    TileAt(all, full, i);
    if i < j { TileOrdered(all, full, i, j); } else if j < i { TileOrdered(all, full, j, i); }
  }

  // ---------------------------------------------------------------- state

  datatype Status = Done | MissingParent | ExecFailed

  /** The writes of the block are not empty and in the writer's order; each is one of the writer's
      requests in all, which made the log full, or starts beyond that log. */
  ghost predicate From(b: seq<Tracker>, all: seq<Tracker>, full: seq<Statement>) {
    && (forall i :: 0 <= i < |b| && b[i].req.kind.Write? ==> OneOf(b[i], all, full))
    && (forall i, j :: 0 <= i < j < |b| && b[i].req.kind.Write? && b[j].req.kind.Write? ==>
          b[i].End() <= b[j].offset)
  }

  ghost predicate OneOf(q: Tracker, all: seq<Tracker>, full: seq<Statement>) {
    q.req.queries != [] && (q in all || q.offset > |full|)
  }

  /** The last write among the first n queries is at position last, which is -1 if there is none. */
  ghost predicate LastWrite(b: seq<Tracker>, n: nat, last: int) {
    && n <= |b| && (last == -1 || (0 <= last < n && b[last].req.kind.Write?))
    && forall j :: last < j < n ==> b[j].req.kind.Read?
  }

  /** All writes of the block are in the first n statements of the log. */
  ghost predicate Within(b: seq<Tracker>, n: nat) {
    forall i :: 0 <= i < |b| && b[i].req.kind.Write? ==> b[i].End() <= n
  }

  predicate HasWrite(b: seq<Tracker>) {
    exists i :: 0 <= i < |b| && b[i].req.kind.Write?
  }

  /** A replica's log after the writes of a block. */
  datatype Replica = Replica(log: seq<Statement>, status: Status)

  function ReplayWrite(run: Engine, r: Replica, q: Tracker): Replica {
    if !r.status.Done? || q.req.kind.Read? || q.offset < |r.log| then r
    else if q.offset > |r.log| then r.(status := MissingParent)
    else
      var k := Succeeds(run, r.log, q.req.queries);
      Replica(r.log + q.req.queries[..k], if k == |q.req.queries| then Done else ExecFailed)
  }

  function ReplayAll(run: Engine, log: seq<Statement>, qs: seq<Tracker>): Replica {
    if qs == [] then Replica(log, Done) else ReplayWrite(run, ReplayAll(run, log, qs[..|qs| - 1]), qs[|qs| - 1])
  }

  lemma {:induction false} ReplayNext(run: Engine, log: seq<Statement>, qs: seq<Tracker>, i: nat)
    requires i < |qs|
    ensures ReplayAll(run, log, qs[..i + 1]) == ReplayWrite(run, ReplayAll(run, log, qs[..i]), qs[i])
  {
    assert qs[..i + 1][..i] == qs[..i];
  }

  lemma {:induction false} ReplayStops(run: Engine, log: seq<Statement>, qs: seq<Tracker>, i: nat)
    requires i <= |qs| && !ReplayAll(run, log, qs[..i]).status.Done?
    ensures ReplayAll(run, log, qs) == ReplayAll(run, log, qs[..i])
    decreases |qs|
  {
    if i < |qs| {
      assert qs[..|qs| - 1][..i] == qs[..i];
      ReplayStops(run, log, qs[..|qs| - 1], i);
    } else {
      assert qs[..i] == qs;
    }
  }

  ghost predicate NonEmptyWrites(qs: seq<Tracker>) {
    forall i :: 0 <= i < |qs| && qs[i].req.kind.Write? ==> qs[i].req.queries != []
  }

  /** After i queries of a block, from sequence number start and pooled queries before: cur and pooled
      are what is there now, last is the last write and sp the sequence number before it. */
  ghost predicate Progress(qs: seq<Tracker>, i: nat, last: int, sp: nat, start: nat, cur: nat,
                           before: seq<Tracker>, pooled: seq<Tracker>) {
    && LastWrite(qs, i, last) && start <= cur && (cur == start || (last >= 0 && cur <= qs[last].End()))
    && (last == -1 ==> sp == 0)
    && (last >= 0 && qs[last].offset >= start ==>
          sp == qs[last].offset && pooled != [] && pooled[|pooled| - 1] == qs[last])
    && (cur == start ==> pooled == before && (last >= 0 ==> sp == cur))
  }

  lemma ProgressRead(qs: seq<Tracker>, i: nat, last: int, sp: nat, start: nat, cur: nat,
                     before: seq<Tracker>, pooled: seq<Tracker>)
    requires Progress(qs, i, last, sp, start, cur, before, pooled) && i < |qs| && qs[i].req.kind.Read?
    ensures Progress(qs, i + 1, last, sp, start, cur, before, pooled)
  {}

  lemma ProgressWrite(qs: seq<Tracker>, all: seq<Tracker>, full: seq<Statement>, i: nat, last: int, sp: nat, start: nat,
                      cur: nat, before: seq<Tracker>, pooled: seq<Tracker>)
    requires Progress(qs, i, last, sp, start, cur, before, pooled) && From(qs, all, full)
    requires i < |qs| && qs[i].req.kind.Write? && qs[i].offset <= cur
    ensures var next := qs[i].offset == cur;
      Progress(qs, i + 1, i, cur, start, if next then qs[i].End() else cur, before,
               if next then pooled + [qs[i]] else pooled)
  {
    assert last >= 0 ==> qs[last].End() <= qs[i].offset;
    assert OneOf(qs[i], all, full);
  }

  /** Replaying what is already there changes nothing. */
  lemma {:induction false} ReplayAgain(run: Engine, log: seq<Statement>, qs: seq<Tracker>)
    requires Within(qs, |log|) && NonEmptyWrites(qs)
    ensures ReplayAll(run, log, qs) == Replica(log, Done)
  {
    if qs != [] { ReplayAgain(run, log, qs[..|qs| - 1]); }
  }

  /** The log is what the writer had at the end of some request. */
  ghost predicate Behind(all: seq<Tracker>, full: seq<Statement>, log: seq<Statement>) {
    |log| <= |full| && log == full[..|log|] && Cut(all, |log|)
  }

  /** The next request of the writer executes as it did there. */
  lemma {:induction false} NextWrite(run: Engine, all: seq<Tracker>, full: seq<Statement>, log: seq<Statement>, i: nat)
    requires Tile(all, full) && Sound(run, full) && Behind(all, full, log) && i < |all| && all[i].offset == |log|
    ensures var qs := all[i].req.queries; Succeeds(run, log, qs) == |qs| && Behind(all, full, log + qs)
  {
    var q := all[i];
    TileAt(all, full, i);
    SoundAgain(run, full, |log|, q.req.queries);
    assert full[..q.End()] == full[..|log|] + full[|log|..q.End()];
    assert |log + q.req.queries| == all[i].End();
  }

  lemma {:induction false} ReplayNextWrite(run: Engine, log: seq<Statement>, q: Tracker)
    requires q.req.kind.Write? && q.offset == |log| && Succeeds(run, log, q.req.queries) == |q.req.queries|
    ensures ReplayWrite(run, Replica(log, Done), q) == Replica(log + q.req.queries, Done)
  {
    assert q.req.queries[..|q.req.queries|] == q.req.queries;
  }

  /** One write keeps a replica behind the writer and cannot fail to execute. */
  lemma {:induction false} ReplayWriteFollows(run: Engine, all: seq<Tracker>, full: seq<Statement>,
                                              log: seq<Statement>, q: Tracker)
    requires Tile(all, full) && Sound(run, full) && Behind(all, full, log)
    requires q.req.kind.Write? ==> OneOf(q, all, full)
    ensures var r := ReplayWrite(run, Replica(log, Done), q);
      && Behind(all, full, r.log) && !r.status.ExecFailed? && |log| <= |r.log|
      && (q.req.kind.Write? && q.offset == |log| ==>
            r == Replica(log + q.req.queries, Done) && Succeeds(run, log, q.req.queries) == |q.req.queries|)
      && (r.status.Done? && q.req.kind.Write? ==> q.End() <= |r.log| <= |full|)
  {
    if q.req.kind.Write? && q in all {
      var i :| 0 <= i < |all| && all[i] == q;
      if q.offset == |log| {
        NextWrite(run, all, full, log, i);
        ReplayNextWrite(run, log, q);
      } else if q.offset < |log| {
        BeforeCut(all, full, i, |log|);
      }
    }
  }

  /** Replaying a block keeps a replica behind the writer; when it is done all writes are there. */
  lemma {:induction false} ReplayFollows(run: Engine, all: seq<Tracker>, full: seq<Statement>,
                                         log: seq<Statement>, qs: seq<Tracker>)
    requires Tile(all, full) && Sound(run, full) && Behind(all, full, log) && From(qs, all, full)
    ensures var r := ReplayAll(run, log, qs);
      && Behind(all, full, r.log) && !r.status.ExecFailed? && |log| <= |r.log|
      && (r.status.Done? ==> Within(qs, |r.log|))
  {
    if qs != [] {
      var init := qs[..|qs| - 1];
      assert From(init, all, full);
      ReplayFollows(run, all, full, log, init);
      var r := ReplayAll(run, log, init);
      if r.status.Done? { ReplayWriteFollows(run, all, full, r.log, qs[|qs| - 1]); }
    }
  }

  lemma FromNonEmpty(qs: seq<Tracker>, all: seq<Tracker>, full: seq<Statement>)
    requires From(qs, all, full)
    ensures NonEmptyWrites(qs) && (!HasWrite(qs) ==> Within(qs, 0))
  {
    forall i | 0 <= i < |qs| && qs[i].req.kind.Write? ensures qs[i].req.queries != [] {
      assert OneOf(qs[i], all, full);
    }
  }

  lemma {:induction false} BeyondIs(queries: seq<Tracker>, sp: nat) returns (k: nat)
    ensures k <= |queries| && Beyond(queries, sp) == queries[k..]
  {
    k := 0;
    if queries != [] && queries[0].offset <= sp {
      k := BeyondIs(queries[1..], sp);
      k := k + 1;
    }
  }

  lemma TruncatedBelow(queries: seq<Tracker>, sp: nat, n: nat)
    requires forall p :: 0 <= p < |queries| ==> queries[p].offset <= n
    ensures forall p :: 0 <= p < |Truncated(queries, sp)| ==> Truncated(queries, sp)[p].offset <= n
    ensures (forall p :: 0 <= p < |queries| ==> queries[p].offset < n) ==>
      forall p :: 0 <= p < |Truncated(queries, sp)| ==> Truncated(queries, sp)[p].offset < n
  {
    var k := BeyondIs(queries, sp);
  }

  /** Truncating at the last offset leaves nothing. */
  lemma {:induction false} TruncatedAll(queries: seq<Tracker>, sp: nat)
    requires Ordered(queries)
    requires queries != [] && queries[|queries| - 1].offset == sp
    ensures Truncated(queries, sp) == []
  {
    assert Has(queries, sp);
    BeyondAt(queries, sp, |queries|);
  }

  /** What is pooled once the writes of a block have been replayed and truncated. */
  lemma Concluded(qs: seq<Tracker>, last: int, sp: nat, start: nat, cur: nat,
                  before: seq<Tracker>, pooled: seq<Tracker>)
    requires Progress(qs, |qs|, last, sp, start, cur, before, pooled)
    requires Ordered(pooled)
    requires forall p :: 0 <= p < |pooled| ==> pooled[p].offset < cur
    ensures forall i :: 0 <= i && LastWrite(qs, |qs|, i) && qs[i].offset >= start ==> Truncated(pooled, sp) == []
    ensures cur == start && HasWrite(qs) ==> Truncated(pooled, sp) == before
    ensures !HasWrite(qs) ==> cur == start && Truncated(pooled, sp) == Truncated(before, 0)
  {
    if last >= 0 && qs[last].offset >= start { TruncatedAll(pooled, sp); }
    forall i | 0 <= i && LastWrite(qs, |qs|, i) ensures i == last {}
  }

  /** What replaying a block comes to, and that writes which are there are not executed again. */
  lemma {:induction false} BlockReplays(run: Engine, all: seq<Tracker>, full: seq<Statement>,
      log: seq<Statement>, qs: seq<Tracker>)
    requires Tile(all, full) && Sound(run, full) && Behind(all, full, log) && From(qs, all, full)
    ensures var r := ReplayAll(run, log, qs);
      && |log| <= |r.log| && (r.status.Done? || r.status.MissingParent?) && (r.status.Done? ==> Within(qs, |r.log|))
      && (Within(qs, |log|) || !HasWrite(qs) ==> r == Replica(log, Done))
  {
    FromNonEmpty(qs, all, full);
    ReplayFollows(run, all, full, log, qs);
    if Within(qs, |log|) || !HasWrite(qs) { ReplayAgain(run, log, qs); }
  }

  class State {
    const level: Level
    const run: Engine
    const maxTx: nat
    var log: seq<Statement>
    var current: nat
    var lastCommit: nat
    var pool: Pool

    ghost predicate Valid()
      reads this, pool
    {
      pool.Valid() && Ordered(pool.queries) && Below(pool.queries, current)
    }

    constructor (level: Level, run: Engine, maxTx: nat)
      ensures Valid() && fresh(pool) && log == [] && current == 0 && pool.queries == []
      ensures this.level == level && this.run == run && this.maxTx == maxTx
    {
      this.level, this.run, this.maxTx := level, run, maxTx;
      log, current, lastCommit := [], 0, 0;
      pool := new Pool();
    }

    /** The statements one after the other, counting each that succeeds. */
    method Execute(qs: seq<Statement>) returns (k: nat)
      modifies this`log, this`current
      ensures k == Succeeds(run, old(log), qs)
      ensures log == old(log) + qs[..k] && current == old(current) + k
    {
      k := 0;
      while k < |qs| && run(log, qs[k])
        invariant k <= |qs| && log == old(log) + qs[..k] && current == old(current) + k
        invariant Succeeds(run, old(log), qs) == k + Succeeds(run, log, qs[k..])
      {
        assert qs[k..][0] == qs[k] && qs[k..][1..] == qs[k + 1..];
        log := log + [qs[k]];
        current := current + 1;
        k := k + 1;
      }
      if k < |qs| { assert qs[k..][0] == qs[k]; }
    }

    method Flush()
      modifies this`lastCommit
      ensures lastCommit == current
    {
      lastCommit := current;
    }

    /** A write request. The sequence number keeps the statements that succeeded before a failure; the database
        does not when it reads uncommitted data, and does at any other level. */
    method Write(req: Request, isLeader: bool) returns (offset: Option<nat>)
      requires Valid()
      modifies this`log, this`current, this`lastCommit, pool
      ensures Valid()
      ensures var k := Succeeds(run, old(log), req.queries);
        && (offset.Some? <==> k == |req.queries|) && current == old(current) + k
        && (offset.Some? ==>
              && offset.value == old(current) && log == old(log) + req.queries
              && pool.queries == old(pool.queries) + if isLeader then [Tracker(req, old(current))] else [])
        && (offset.None? ==>
              && log == old(log) + (if level.ReadUncommitted? then [] else req.queries[..k])
              && pool.queries == old(pool.queries) && pool.failed == old(pool.failed) + {req})
    {
      var lastSeq, savepoint := current, log;
      var k := Execute(req.queries);
      if k < |req.queries| {
        pool.failed := pool.failed + {req};
        if level.ReadUncommitted? { log := savepoint; }
        return None;
      }
      if current - lastCommit > maxTx { Flush(); }
      if isLeader { pool.Enqueue(lastSeq, Tracker(req, lastSeq)); }
      return Some(lastSeq);
    }

    /** The replica holds what the writer had executed by the end of one of the requests in all. */
    ghost predicate Follows(all: seq<Tracker>, full: seq<Statement>)
      reads this, pool
    {
      && Tile(all, full) && Sound(run, full) && current == |log| && Behind(all, full, log)
      && (forall p :: 0 <= p < |pool.queries| ==> pool.queries[p].offset < current)
    }

    /** One write of a block: ahead of the replica, already there, or the next one. */
    method ReplayOne(q: Tracker, ghost all: seq<Tracker>, ghost full: seq<Statement>) returns (status: Status)
      requires Valid() && Follows(all, full) && q.req.kind.Write? && OneOf(q, all, full)
      modifies this`log, this`current, pool`queries, pool`index
      ensures Valid() && Follows(all, full) && Replica(log, status) == ReplayWrite(run, Replica(old(log), Done), q)
      ensures current == if q.offset == old(current) then q.End() else old(current)
      ensures pool.queries == if q.offset == old(current) then old(pool.queries) + [q] else old(pool.queries)
    {
      ReplayWriteFollows(run, all, full, log, q);
      var lastsp := current;
      if q.offset > lastsp { return MissingParent; }
      if q.offset < lastsp { return Done; }
      var k := Execute(q.req.queries);
      if k < |q.req.queries| { return ExecFailed; }
      pool.Enqueue(lastsp, q);
      return Done;
    }

    /** Query i of a block whose replay began at sequence number start on the log from, with before
        pooled. */
    method ReplayQuery(qs: seq<Tracker>, i: nat, sp: nat, ghost last: int, ghost start: nat, ghost before: seq<Tracker>,
                       ghost from: seq<Statement>, ghost all: seq<Tracker>, ghost full: seq<Statement>)
      returns (status: Status, sp': nat, ghost last': int)
      requires Valid() && Follows(all, full) && From(qs, all, full) && i < |qs|
      requires Replica(log, Done) == ReplayAll(run, from, qs[..i])
      requires Progress(qs, i, last, sp, start, current, before, pool.queries)
      modifies this`log, this`current, pool`queries, pool`index
      ensures Valid() && Follows(all, full) && Replica(log, status) == ReplayAll(run, from, qs[..i + 1])
      ensures status.Done? ==> Progress(qs, i + 1, last', sp', start, current, before, pool.queries)
    {
      ReplayNext(run, from, qs, i);
      if qs[i].req.kind.Read? {
        ProgressRead(qs, i, last, sp, start, current, before, pool.queries);
        return Done, sp, last;
      }
      if qs[i].offset <= current {
        ProgressWrite(qs, all, full, i, last, sp, start, current, before, pool.queries);
      }
      sp', last' := current, i;
      status := ReplayOne(qs[i], all, full);
    }

    /** The writes of a block in order; lastsp is the sequence number before the last of them, which
        is at position last, and 0 if there is none. */
    method ReplayQueries(qs: seq<Tracker>, ghost all: seq<Tracker>, ghost full: seq<Statement>)
      returns (status: Status, lastsp: nat, ghost last: int)
      requires Valid() && Follows(all, full) && From(qs, all, full)
      modifies this`log, this`current, pool`queries, pool`index
      ensures Valid() && Follows(all, full) && Replica(log, status) == ReplayAll(run, old(log), qs)
      ensures status.Done? ==>
        Progress(qs, |qs|, last, lastsp, old(current), current, old(pool.queries), pool.queries)
    {
      status, lastsp, last := Done, 0, -1;
      for i := 0 to |qs|
        invariant Valid() && Follows(all, full) && Replica(log, Done) == ReplayAll(run, old(log), qs[..i])
        invariant status.Done? && Progress(qs, i, last, lastsp, old(current), current, old(pool.queries), pool.queries)
      {
        status, lastsp, last :=
          ReplayQuery(qs, i, lastsp, last, old(current), old(pool.queries), old(log), all, full);
        if !status.Done? {
          ReplayStops(run, old(log), qs, i + 1);
          return;
        }
      }
      assert qs[..|qs|] == qs;
    }

    method RemoveFailed(failed: seq<Request>)
      modifies pool`failed
      ensures pool.failed == old(pool.failed) - (set r | r in failed)
    {
      for i := 0 to |failed|
        invariant pool.failed == old(pool.failed) - (set r | r in failed[..i])
      {
        assert failed[..i + 1] == failed[..i] + [failed[i]];
        pool.failed := pool.failed - {failed[i]};
      }
      assert failed[..|failed|] == failed;
    }

    /** After the writes of a block: commit, forget its failed requests and what it has packed. */
    method Conclude(lastsp: nat, failed: seq<Request>)
      requires Valid()
      modifies this`lastCommit, pool
      ensures Valid() && lastCommit == current && pool.queries == Truncated(old(pool.queries), lastsp)
      ensures (forall p :: 0 <= p < |old(pool.queries)| ==> old(pool.queries)[p].offset < current) ==>
        forall p :: 0 <= p < |pool.queries| ==> pool.queries[p].offset < current
      ensures pool.failed == old(pool.failed) - (set r | r in failed)
    {
      Flush();
      RemoveFailed(failed);
      TruncatedBelow(pool.queries, lastsp, current);
      pool.Truncate(lastsp);
    }

    /** A replica that replays a block stays a prefix of the writer. When it is done it holds all writes of
        the block. If the last of them was new, nothing stays pooled for packing again; if it held all of
        them before, nothing changes; a block without writes drops what is pooled at offset 0. */
    method ReplayBlock(b: Block, ghost all: seq<Tracker>, ghost full: seq<Statement>) returns (status: Status)
      requires Valid() && Follows(all, full) && From(b.queries, all, full)
      modifies this`log, this`current, this`lastCommit, pool
      ensures Valid() && Follows(all, full) && old(current) <= current && (status.Done? || status.MissingParent?)
      ensures Replica(log, status) == ReplayAll(run, old(log), b.queries)
      ensures status.Done? ==> Within(b.queries, current) && lastCommit == current
      ensures status.Done? ==> forall i ::
        0 <= i && LastWrite(b.queries, |b.queries|, i) && b.queries[i].offset >= old(current) ==> pool.queries == []
      ensures Within(b.queries, old(current)) && HasWrite(b.queries) ==>
        status.Done? && current == old(current) && log == old(log) && pool.queries == old(pool.queries)
      ensures !HasWrite(b.queries) ==>
        status.Done? && current == old(current) && log == old(log) && pool.queries == Truncated(old(pool.queries), 0)
    {
      var lastsp;
      ghost var last;
      BlockReplays(run, all, full, log, b.queries);
      status, lastsp, last := ReplayQueries(b.queries, all, full);
      if !status.Done? { return; }
      Concluded(b.queries, last, lastsp, old(current), current, old(pool.queries), pool.queries);
      Conclude(lastsp, b.failed);
    }

    /** The pooled queries leave for a block. */
    method CommitEx() returns (queries: seq<Tracker>, failed: set<Request>)
      requires Valid()
      modifies this`lastCommit, this`pool
      ensures Valid() && fresh(pool) && pool.queries == [] && pool.failed == {}
      ensures queries == old(pool.queries) && failed == old(pool.failed) && lastCommit == current
    {
      Flush();
      queries, failed := pool.queries, pool.failed;
      pool := new Pool();
    }
  }
}
