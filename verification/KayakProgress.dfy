/** What can still happen in a Kayak cluster: from every reachable state requests complete and followers catch up,
    unless log 0 is lost for good. */
module KayakProgress {
  import opened Common
  import opened KayakLog
  import opened KayakFollower
  import opened KayakLeader
  import opened KayakCluster
  import opened KayakSafety

  // ---------------------------------------------------------------- continuations

  /** The steps lead from c to d. */
  ghost predicate Goes(c: Cluster, steps: seq<Step>, minPrepared: nat, d: Cluster)
    decreases |steps|
  {
    if steps == [] then c == d
    else Enabled(c, steps[0], minPrepared) && Goes(Next(c, steps[0], minPrepared), steps[1..], minPrepared, d)
  }

  lemma {:induction false} GoesOn(c: Cluster, ss: seq<Step>, d: Cluster, ts: seq<Step>, e: Cluster, minPrepared: nat)
    requires Goes(c, ss, minPrepared, d) && Goes(d, ts, minPrepared, e)
    ensures Goes(c, ss + ts, minPrepared, e)
    decreases |ss|
  {
    if ss == [] {
      assert ss + ts == ts;
    } else {
      assert (ss + ts)[1..] == ss[1..] + ts;
      GoesOn(Next(c, ss[0], minPrepared), ss[1..], d, ts, e, minPrepared);
    }
  }

  lemma {:induction false} GoesInv(c: Cluster, ss: seq<Step>, d: Cluster, minPrepared: nat)
    requires Inv(c, minPrepared) && Goes(c, ss, minPrepared, d)
    ensures Inv(d, minPrepared) && d.followers.Keys == c.followers.Keys
    decreases |ss|
  {
    if ss != [] {
      StepKeeps(c, ss[0], minPrepared);
      GoesInv(Next(c, ss[0], minPrepared), ss[1..], d, minPrepared);
    }
  }

  /** A continuation of the last state of a run is a longer run. */
  lemma {:induction false} GoesRun(nodes: set<NodeId>, minPrepared: nat, steps: seq<Step>, run: seq<Cluster>,
                                   more: seq<Step>, d: Cluster) returns (run': seq<Cluster>)
    requires IsRun(nodes, minPrepared, steps, run) && Goes(run[|steps|], more, minPrepared, d)
    ensures IsRun(nodes, minPrepared, steps + more, run') && run <= run' && run'[|run'| - 1] == d
    decreases |more|
  {
    if more == [] {
      run' := run;
      assert steps + more == steps;
    } else {
      var e := Next(run[|steps|], more[0], minPrepared);
      assert steps + more == steps + [more[0]] + more[1..];
      run' := GoesRun(nodes, minPrepared, steps + [more[0]], run + [e], more[1..], d);
    }
  }

  /** d continues c by steps of follower n alone, none of them a crash. */
  ghost predicate Works(c: Cluster, steps: seq<Step>, minPrepared: nat, d: Cluster, n: NodeId) {
    && Goes(c, steps, minPrepared, d) && d.leader == c.leader && n in c.followers && n in d.followers
    && d.followers == c.followers[n := d.followers[n]] && d.followers[n].lost == c.followers[n].lost
  }

  lemma {:induction false} WorksOn(c: Cluster, ss: seq<Step>, d: Cluster, ts: seq<Step>, e: Cluster, minPrepared: nat,
                                   n: NodeId)
    requires Works(c, ss, minPrepared, d, n) && Works(d, ts, minPrepared, e, n)
    ensures Works(c, ss + ts, minPrepared, e, n)
  {
    GoesOn(c, ss, d, ts, e, minPrepared);
  }

  lemma {:induction false} Does(c: Cluster, s: Step, minPrepared: nat, n: NodeId) returns (d: Cluster)
    requires FollowerEnabled(c, s) && s.node == n && !s.FRestart?
    ensures Works(c, [s], minPrepared, d, n) && d.followers[n] == FollowerNext(c, s)
  {
    d := Next(c, s, minPrepared);
    assert [s][1..] == [] && Goes(d, [], minPrepared, d);
  }

  // ---------------------------------------------------------------- a follower catches up

  /** Follower n holds a part of the leader's WAL as it should. */
  ghost predicate Sound(c: Cluster, n: NodeId) {
    n in c.followers && WalInv(c.leader.wal) && FollowerInv(c.followers[n], c.leader.wal)
  }

  /** The follower has called the handler for every commit it has written. */
  lemma {:induction false} Idle(c: Cluster, minPrepared: nat, n: NodeId) returns (ss: seq<Step>, d: Cluster)
    requires Sound(c, n)
    ensures Works(c, ss, minPrepared, d, n) && Sound(d, n)
    ensures d.followers[n].applying.None? && d.followers[n].wal == c.followers[n].wal
  {
    if c.followers[n].applying.None? {
      ss, d := [], c;
    } else {
      ss := [FExecute(n)];
      ExecuteKeeps(c.followers[n], c.leader.wal);
      d := Does(c, FExecute(n), minPrepared, n);
    }
  }

  lemma {:induction false} Writes(c: Cluster, minPrepared: nat, n: NodeId, i: nat) returns (ss: seq<Step>, d: Cluster)
    requires Sound(c, n) && IsPrepare(c.leader.wal, i)
    ensures Works(c, ss, minPrepared, d, n) && Sound(d, n)
    ensures var f, g := c.followers[n], d.followers[n];
      g.wal == f.wal[i := c.leader.wal[i]] && g.applying == f.applying
  {
    var l := c.leader.wal[i];
    ss := [FWritePrepare(n, l)];
    WritePrepareKeeps(c.followers[n], l, c.leader.wal);
    d := Does(c, FWritePrepare(n, l), minPrepared, n);
    assert i in c.followers[n].wal ==> c.followers[n].wal[i] == l;
    assert d.followers[n].wal == c.followers[n].wal[i := l];
  }

  lemma {:induction false} Marks(c: Cluster, minPrepared: nat, n: NodeId, i: nat) returns (ss: seq<Step>, d: Cluster)
    requires Sound(c, n)
    ensures Works(c, ss, minPrepared, d, n) && Sound(d, n)
    ensures var f, g := c.followers[n], d.followers[n]; g.wal == f.wal && i !in g.marking && g.applying == f.applying
  {
    if i in c.followers[n].marking {
      ss := [FMark(n, i)];
      MarkPendingKeeps(c.followers[n], i, c.leader.wal);
      d := Does(c, FMark(n, i), minPrepared, n);
    } else {
      ss, d := [], c;
    }
  }

  /** Prepare log i is delivered. */
  lemma {:induction false} Deliver(c: Cluster, minPrepared: nat, n: NodeId, i: nat) returns (ss: seq<Step>, d: Cluster)
    requires Sound(c, n) && IsPrepare(c.leader.wal, i)
    ensures Works(c, ss, minPrepared, d, n) && Sound(d, n)
    ensures var f, g := c.followers[n], d.followers[n];
      g.wal == f.wal[i := c.leader.wal[i]] && i !in g.marking && g.applying == f.applying
  {
    var s1, d1 := Writes(c, minPrepared, n, i);
    var s2, d2 := Marks(d1, minPrepared, n, i);
    WorksOn(c, s1, d1, s2, d2, minPrepared, n);
    ss, d := s1 + s2, d2;
  }

  /** Commit j of the leader is the next one that is not in w. */
  ghost predicate NextMissing(w: Wal, big: Wal, j: nat) {
    IsCommit(big, j) && j !in w && forall i: nat :: i < j && IsCommit(big, i) ==> i in w
  }

  lemma {:induction false} HeldBefore(w: Wal, big: Wal, j: nat)
    requires Part(w, big) && NextMissing(w, big, j)
    ensures forall i: nat :: IsCommit(w, i) <==> i < j && IsCommit(big, i)
  {
    forall i: nat ensures IsCommit(w, i) <==> i < j && IsCommit(big, i) {
      if IsCommit(w, i) { assert IsCommit(big, i); }
    }
  }

  /** Commit j refers to the last commit of w. */
  lemma {:induction false} Precedes(w: Wal, big: Wal, x: nat, j: nat)
    requires Bounded(w, x) && forall i: nat :: IsCommit(w, i) <==> i < j && IsCommit(big, i)
    ensures LastCommit(big, j) == LastCommit(w, x)
  {
    LastCommitSame(w, big, j);
    var m := if x < j then j else x;
    LastBeyond(w, x, m);
    LastBeyond(w, j, m);
  }

  lemma {:induction false} StillOpen(w: Wal, big: Wal, j: nat)
    requires SubWal(w, big) && WellIndexed(big) && DecidedOnce(big) && j in big && !big[j].Prepare? && j !in w
    ensures IsPrepare(big, big[j].prepare) && !Resolved(w, big[j].prepare)
  {
    var p := big[j].prepare;
    assert Resolves(big, j, p);
    forall i ensures !Resolves(w, i, p) {
      assert Resolves(w, i, p) ==> Resolves(big, i, p);
    }
  }

  lemma ZeroPrepares(big: Wal)
    requires WellIndexed(big) && 0 in big
    ensures IsPrepare(big, 0)
  {
    assert !big[0].Prepare? ==> Resolves(big, 0, big[0].prepare);
  }

  /** With its prepare pending and its previous commit at hand the follower writes and executes commit j. */
  lemma {:induction false} Commits(c: Cluster, minPrepared: nat, n: NodeId, j: nat) returns (ss: seq<Step>, d: Cluster)
    requires Sound(c, n) && IsCommit(c.leader.wal, j) && j !in c.followers[n].wal
    requires var f, l := c.followers[n], c.leader.wal[j];
      f.applying.None? && CanCheck(f, l) && l.previous == f.lastCommit && l.index == j
    ensures Works(c, ss, minPrepared, d, n) && Sound(d, n)
    ensures d.followers[n].wal == c.followers[n].wal[j := c.leader.wal[j]]
  {
    var f, l, big := c.followers[n], c.leader.wal[j], c.leader.wal;
    CheckKeeps(f, l, big);
    var d1 := Does(c, FCheck(n, l), minPrepared, n);
    WriteCommitKeeps(d1.followers[n], l, big);
    var d2 := Does(d1, FWriteCommit(n, l), minPrepared, n);
    WorksOn(c, [FCheck(n, l)], d1, [FWriteCommit(n, l)], d2, minPrepared, n);
    ExecuteKeeps(d2.followers[n], big);
    d := Does(d2, FExecute(n), minPrepared, n);
    WorksOn(c, [FCheck(n, l)] + [FWriteCommit(n, l)], d2, [FExecute(n)], d, minPrepared, n);
    ss := [FCheck(n, l)] + [FWriteCommit(n, l)] + [FExecute(n)];
  }

  /** The follower becomes idle and gets all that commit j refers to. */
  lemma {:induction false} Readies(c: Cluster, minPrepared: nat, n: NodeId, p: nat) returns (ss: seq<Step>, d: Cluster)
    requires Sound(c, n) && IsPrepare(c.leader.wal, 0) && IsPrepare(c.leader.wal, p)
    ensures Works(c, ss, minPrepared, d, n) && Sound(d, n)
    ensures var f, g, big := c.followers[n], d.followers[n], c.leader.wal;
      g.wal == f.wal[0 := big[0]][p := big[p]] && g.applying.None? && p !in g.marking
  {
    var s1, d1 := Idle(c, minPrepared, n);
    var s2, d2 := Deliver(d1, minPrepared, n, 0);
    WorksOn(c, s1, d1, s2, d2, minPrepared, n);
    var s3, d3 := Deliver(d2, minPrepared, n, p);
    WorksOn(c, s1 + s2, d2, s3, d3, minPrepared, n);
    ss, d := s1 + s2 + s3, d3;
  }

  lemma {:induction false} ReadyChecks(f: Follower, big: Wal, j: nat)
    requires FollowerInv(f, big) && WalInv(big) && NextMissing(f.wal, big, j)
    requires 0 in f.wal && big[j].prepare in f.wal && big[j].prepare !in f.marking && f.applying.None?
    ensures CanCheck(f, big[j]) && big[j].previous == f.lastCommit && big[j].index == j
  {
    HeldBefore(f.wal, big, j);
    Precedes(f.wal, big, f.nextIndex, j);
    StillOpen(f.wal, big, j);
    assert IsPrepare(f.wal, big[j].prepare);
  }

  lemma {:induction false} PreparesAdd(w: Wal, big: Wal, p: nat, j: nat)
    requires SubWal(w, big) && IsPrepare(big, 0) && IsPrepare(big, p) && NextMissing(w, big, j)
    ensures var v := w[0 := big[0]][p := big[p]];
      NextMissing(v, big, j) && forall i: nat :: IsCommit(v, i) <==> IsCommit(w, i)
  {}

  /** One more commit of the leader reaches the follower. */
  lemma {:induction false} CatchOne(c: Cluster, minPrepared: nat, n: NodeId, j: nat) returns (ss: seq<Step>, d: Cluster)
    requires Sound(c, n) && 0 in c.leader.wal && NextMissing(c.followers[n].wal, c.leader.wal, j)
    ensures Works(c, ss, minPrepared, d, n) && Sound(d, n)
    ensures forall i: nat :: IsCommit(d.followers[n].wal, i) <==> IsCommit(c.followers[n].wal, i) || i == j
  {
    var w, big := c.followers[n].wal, c.leader.wal;
    ZeroPrepares(big);
    StillOpen(w, big, j);
    var s1, d1 := Readies(c, minPrepared, n, big[j].prepare);
    PreparesAdd(w, big, big[j].prepare, j);
    ReadyChecks(d1.followers[n], big, j);
    var s2, d2 := Commits(d1, minPrepared, n, j);
    WorksOn(c, s1, d1, s2, d2, minPrepared, n);
    ss, d := s1 + s2, d2;
  }

  lemma {:induction false} FindMissing(w: Wal, big: Wal, m: nat) returns (j: nat)
    requires exists i: nat :: i < m && IsCommit(big, i) && i !in w
    ensures j < m && NextMissing(w, big, j)
  {
    if i: nat :| i < m - 1 && IsCommit(big, i) && i !in w {
      j := FindMissing(w, big, m - 1);
    } else {
      j := m - 1;
    }
  }

  ghost function Missing(w: Wal, big: Wal): set<nat> {
    set i | i in big && big[i].Commit? && i !in w
  }

  lemma {:induction false} FewerMissing(w: Wal, v: Wal, big: Wal, j: nat)
    requires SubWal(w, big) && IsCommit(big, j) && j !in w
    requires forall i: nat :: IsCommit(v, i) <==> IsCommit(w, i) || i == j
    ensures Missing(v, big) < Missing(w, big)
  {
    assert IsCommit(v, j) && j in Missing(w, big);
    forall i | i in Missing(v, big) ensures i in Missing(w, big) {
      assert i in w ==> IsCommit(w, i);
    }
  }

  /** All commits of the leader reach the follower by deliveries alone. */
  lemma {:induction false} CatchCommits(c: Cluster, minPrepared: nat, n: NodeId) returns (ss: seq<Step>, d: Cluster)
    requires Sound(c, n) && 0 in c.leader.wal
    ensures Works(c, ss, minPrepared, d, n) && Sound(d, n) && HasCommits(d, n)
    decreases Missing(c.followers[n].wal, c.leader.wal)
  {
    var w, big := c.followers[n].wal, c.leader.wal;
    assert SubWal(w, big);
    if m: nat :| IsCommit(big, m) && m !in w {
      var j := FindMissing(w, big, m + 1);
      var s1, d1 := CatchOne(c, minPrepared, n, j);
      FewerMissing(w, d1.followers[n].wal, big, j);
      var s2, d2 := CatchCommits(d1, minPrepared, n);
      WorksOn(c, s1, d1, s2, d2, minPrepared, n);
      ss, d := s1 + s2, d2;
    } else {
      ss, d := Idle(c, minPrepared, n);
    }
  }

  /** The follower holds all commits of the leader and has handed them to the handler. */
  ghost predicate HasCommits(c: Cluster, n: NodeId) {
    && n in c.followers && c.followers[n].applying.None?
    && forall i: nat :: IsCommit(c.leader.wal, i) ==> i in c.followers[n].wal
  }

  /** A rollback whose prepare is pending is checked and written. */
  lemma {:induction false} Undoes(c: Cluster, minPrepared: nat, n: NodeId, j: nat) returns (ss: seq<Step>, d: Cluster)
    requires Sound(c, n) && j in c.leader.wal && c.leader.wal[j].Rollback? && c.leader.wal[j].index == j
    requires j !in c.followers[n].wal && CanCheck(c.followers[n], c.leader.wal[j])
    ensures Works(c, ss, minPrepared, d, n) && Sound(d, n)
    ensures var f, g := c.followers[n], d.followers[n];
      g.wal == f.wal[j := c.leader.wal[j]] && g.applying == f.applying
  {
    var l, big := c.leader.wal[j], c.leader.wal;
    CheckKeeps(c.followers[n], l, big);
    var d1 := Does(c, FCheck(n, l), minPrepared, n);
    WriteRollbackKeeps(d1.followers[n], l, big);
    d := Does(d1, FWriteRollback(n, l), minPrepared, n);
    WorksOn(c, [FCheck(n, l)], d1, [FWriteRollback(n, l)], d, minPrepared, n);
    ss := [FCheck(n, l)] + [FWriteRollback(n, l)];
  }

  lemma {:induction false} RollbackChecks(f: Follower, big: Wal, j: nat)
    requires FollowerInv(f, big) && WalInv(big) && j in big && big[j].Rollback? && j !in f.wal
    requires big[j].prepare in f.wal && big[j].prepare !in f.marking
    ensures CanCheck(f, big[j]) && big[j].index == j
  {
    StillOpen(f.wal, big, j);
    assert IsPrepare(f.wal, big[j].prepare);
  }

  /** One more log of the leader that is no commit reaches the follower. */
  lemma {:induction false} CatchLog(c: Cluster, minPrepared: nat, n: NodeId, j: nat) returns (ss: seq<Step>, d: Cluster)
    requires Sound(c, n) && j in c.leader.wal && !c.leader.wal[j].Commit? && j !in c.followers[n].wal
    ensures Works(c, ss, minPrepared, d, n) && Sound(d, n) && d.followers[n].applying == c.followers[n].applying
    ensures c.followers[n].wal.Keys + {j} <= d.followers[n].wal.Keys
  {
    var w, big := c.followers[n].wal, c.leader.wal;
    if big[j].Prepare? {
      ss, d := Deliver(c, minPrepared, n, j);
    } else {
      StillOpen(w, big, j);
      var s1, d1 := Deliver(c, minPrepared, n, big[j].prepare);
      RollbackChecks(d1.followers[n], big, j);
      var s2, d2 := Undoes(d1, minPrepared, n, j);
      WorksOn(c, s1, d1, s2, d2, minPrepared, n);
      ss, d := s1 + s2, d2;
    }
  }

  /** All logs of the leader reach the follower. */
  lemma {:induction false} CatchLogs(c: Cluster, minPrepared: nat, n: NodeId) returns (ss: seq<Step>, d: Cluster)
    requires Sound(c, n) && HasCommits(c, n)
    ensures Works(c, ss, minPrepared, d, n) && Sound(d, n)
    ensures d.followers[n].applying.None? && d.followers[n].wal == c.leader.wal
    decreases c.leader.wal.Keys - c.followers[n].wal.Keys
  {
    var w, big := c.followers[n].wal, c.leader.wal;
    assert SubWal(w, big);
    if j :| j in big && j !in w {
      var s1, d1 := CatchLog(c, minPrepared, n, j);
      assert j in big.Keys - w.Keys && j !in big.Keys - d1.followers[n].wal.Keys;
      var s2, d2 := CatchLogs(d1, minPrepared, n);
      WorksOn(c, s1, d1, s2, d2, minPrepared, n);
      ss, d := s1 + s2, d2;
    } else {
      ss, d := [], c;
    }
  }

  /** Nothing is left to mark or to finish. */
  lemma {:induction false} Tidies(c: Cluster, minPrepared: nat, n: NodeId) returns (ss: seq<Step>, d: Cluster)
    requires Sound(c, n) && c.followers[n].applying.None?
    ensures Works(c, ss, minPrepared, d, n) && Sound(d, n) && d.followers[n].wal == c.followers[n].wal
    ensures var g := d.followers[n]; g.applying.None? && g.marking == {} && g.finishing == {}
    decreases c.followers[n].marking, c.followers[n].finishing
  {
    var f := c.followers[n];
    var s1, d1 := [], c;
    if i :| i in f.marking {
      s1 := [FMark(n, i)];
      MarkPendingKeeps(f, i, c.leader.wal);
      d1 := Does(c, FMark(n, i), minPrepared, n);
    } else if p :| p in f.finishing {
      s1 := [FFinish(n, p)];
      FinishKeeps(f, p, c.leader.wal);
      d1 := Does(c, FFinish(n, p), minPrepared, n);
    } else {
      return [], c;
    }
    var s2, d2 := Tidies(d1, minPrepared, n);
    WorksOn(c, s1, d1, s2, d2, minPrepared, n);
    ss, d := s1 + s2, d2;
  }

  /** Follower n holds the leader's WAL, has handed all its commits to the handler, and has pending just what nobody
      has decided. */
  ghost predicate UpToDate(c: Cluster, n: NodeId) {
    && n in c.followers && c.followers[n].applying.None? && c.followers[n].wal == c.leader.wal
    && forall p :: p in c.followers[n].pending <==> IsPrepare(c.leader.wal, p) && !Resolved(c.leader.wal, p)
  }

  lemma {:induction false} TidyUpToDate(c: Cluster, n: NodeId)
    requires Sound(c, n) && c.followers[n].wal == c.leader.wal
    requires var f := c.followers[n]; f.applying.None? && f.marking == {} && f.finishing == {}
    ensures UpToDate(c, n)
  {}

  /** A follower in whatever state gets everything the leader has by deliveries alone. */
  lemma {:induction false} CatchUp(c: Cluster, minPrepared: nat, n: NodeId) returns (ss: seq<Step>, d: Cluster)
    requires Sound(c, n) && 0 in c.leader.wal
    ensures Works(c, ss, minPrepared, d, n) && UpToDate(d, n)
  {
    var s1, d1 := CatchCommits(c, minPrepared, n);
    var s2, d2 := CatchLogs(d1, minPrepared, n);
    WorksOn(c, s1, d1, s2, d2, minPrepared, n);
    var s3, d3 := Tidies(d2, minPrepared, n);
    WorksOn(c, s1 + s2, d2, s3, d3, minPrepared, n);
    TidyUpToDate(d3, n);
    ss, d := s1 + s2 + s3, d3;
  }

  /** The followers in ns have worked, the others and the leader have not. */
  ghost predicate WorkDone(c: Cluster, d: Cluster, ns: set<NodeId>) {
    && d.leader == c.leader && d.followers.Keys == c.followers.Keys
    && (forall n :: n in c.followers && n !in ns ==> d.followers[n] == c.followers[n])
    && (forall n :: n in c.followers ==> d.followers[n].lost == c.followers[n].lost)
  }

  lemma {:induction false} OneAndRest(c: Cluster, d: Cluster, e: Cluster, n: NodeId, ns: set<NodeId>)
    requires WorkDone(c, d, {n}) && WorkDone(d, e, ns - {n}) && n in ns && UpToDate(d, n)
    ensures WorkDone(c, e, ns) && UpToDate(e, n)
  {
    SameUpToDate(d, e, n);
  }

  lemma {:induction false} SameUpToDate(c: Cluster, d: Cluster, n: NodeId)
    requires UpToDate(c, n) && d.leader == c.leader && n in d.followers && d.followers[n] == c.followers[n]
    ensures UpToDate(d, n)
  {}

  lemma {:induction false} OthersSound(c: Cluster, ss: seq<Step>, minPrepared: nat, d: Cluster, n: NodeId, m: NodeId)
    requires Works(c, ss, minPrepared, d, n) && Sound(c, m) && m != n
    ensures Sound(d, m)
  {
    assert d.followers[m] == c.followers[m];
  }

  lemma {:induction false} CatchFirst(c: Cluster, minPrepared: nat, ns: set<NodeId>, n: NodeId)
    returns (ss: seq<Step>, d: Cluster)
    requires 0 in c.leader.wal && n in ns && forall m :: m in ns ==> Sound(c, m)
    ensures Goes(c, ss, minPrepared, d) && WorkDone(c, d, {n}) && UpToDate(d, n)
    ensures forall m :: m in ns - {n} ==> Sound(d, m)
  {
    assert Sound(c, n);
    ss, d := CatchUp(c, minPrepared, n);
    forall m | m in ns - {n} ensures Sound(d, m) { OthersSound(c, ss, minPrepared, d, n, m); }
  }

  lemma {:induction false} AllCatchUp(c: Cluster, minPrepared: nat, ns: set<NodeId>) returns (ss: seq<Step>, d: Cluster)
    requires 0 in c.leader.wal && forall n :: n in ns ==> Sound(c, n)
    ensures Goes(c, ss, minPrepared, d) && WorkDone(c, d, ns) && forall n :: n in ns ==> UpToDate(d, n)
    decreases ns
  {
    if ns == {} {
      ss, d := [], c;
    } else {
      var n :| n in ns;
      var s1, d1 := CatchFirst(c, minPrepared, ns, n);
      var s2, d2 := AllCatchUp(d1, minPrepared, ns - {n});
      GoesOn(c, s1, d1, s2, d2, minPrepared);
      OneAndRest(c, d1, d2, n, ns);
      ss, d := s1 + s2, d2;
    }
  }

  // ---------------------------------------------------------------- a request completes

  lemma {:induction false} Leads(c: Cluster, s: Step, minPrepared: nat) returns (d: Cluster)
    requires LeaderStep(s) && LeaderEnabled(c, s, minPrepared)
    ensures Goes(c, [s], minPrepared, d) && d == c.(leader := LeaderNext(c, s, minPrepared))
  {
    d := Next(c, s, minPrepared);
    assert [s][1..] == [] && Goes(d, [], minPrepared, d);
  }

  /** The WAL of the leader misses log 0 for good: it is not empty, and log 0 is neither in it nor on its way. */
  predicate LostZero(l: Leader) {
    l.wal != map[] && 0 !in l.wal && 0 !in l.unwritten
  }

  /** Log 0 is in the WAL or comes next. */
  predicate ZeroReady(l: Leader) {
    0 in l.wal || l.nextIndex == 0
  }

  lemma {:induction false} EmptyRestarts(l: Leader)
    requires l.wal == map[]
    ensures Replay(l.wal, l.nextIndex) == Recovered({}, 0, 0)
  {
    ReplayEmpty(l.wal, l.nextIndex);
  }

  lemma {:induction false} ReplayEmpty(w: Wal, n: nat)
    requires w == map[]
    ensures Replay(w, n) == Recovered({}, 0, 0)
  {
    if n > 0 { ReplayEmpty(w, n - 1); }
  }

  /** Unless log 0 is lost it is written, or the leader starts over with it. */
  lemma {:induction false} Zero(c: Cluster, minPrepared: nat) returns (ss: seq<Step>, d: Cluster)
    requires LeaderInv(c.leader) && !LostZero(c.leader)
    ensures Goes(c, ss, minPrepared, d) && d == c.(leader := d.leader) && ZeroReady(d.leader)
    ensures c.leader.executed == d.leader.executed
  {
    if 0 in c.leader.wal {
      ss, d := [], c;
    } else if 0 in c.leader.unwritten {
      ss := [LWrite(0)];
      d := Leads(c, LWrite(0), minPrepared);
    } else {
      EmptyRestarts(c.leader);
      ss := [LRestart];
      d := Leads(c, LRestart, minPrepared);
    }
  }

  /** The commit in progress is written and executed. */
  lemma {:induction false} Drain(c: Cluster, minPrepared: nat) returns (ss: seq<Step>, d: Cluster)
    requires LeaderInv(c.leader)
    ensures Goes(c, ss, minPrepared, d) && d == c.(leader := d.leader) && d.leader.committing.None?
    ensures c.leader.executed <= d.leader.executed && (ZeroReady(c.leader) ==> ZeroReady(d.leader))
  {
    var l := c.leader;
    if l.committing.None? {
      ss, d := [], c;
    } else {
      var x := l.committing.value;
      var s1, d1 := [], c;
      if x in l.unwritten {
        s1 := [LWrite(x)];
        d1 := Leads(c, LWrite(x), minPrepared);
      }
      d := Leads(d1, LExecute, minPrepared);
      GoesOn(c, s1, d1, [LExecute], d, minPrepared);
      ss := s1 + [LExecute];
    }
  }

  /** Prepare i has been confirmed by exactly the followers outside ns, which do not hold it. */
  ghost predicate Gathering(c: Cluster, i: nat, ns: set<NodeId>) {
    && IsPrepare(c.leader.wal, i) && c.leader.wal[i].index == i
    && i in c.leader.phases && c.leader.phases[i].Preparing? && ns <= c.followers.Keys
    && c.leader.phases[i].replies.Keys == c.followers.Keys - ns
    && (forall n :: n in c.leader.phases[i].replies ==> c.leader.phases[i].replies[n])
    && (forall n :: n in ns ==> i !in c.followers[n].wal)
  }

  /** What collecting replies leaves alone. */
  ghost predicate SameBooks(l: Leader, m: Leader) {
    && m.wal == l.wal && m.nextIndex == l.nextIndex && m.committing == l.committing && m.unwritten == l.unwritten
    && m.executed == l.executed
  }

  /** Follower n gets the prepare and confirms it. */
  lemma {:induction false} Confirms(c: Cluster, minPrepared: nat, i: nat, ns: set<NodeId>, n: NodeId)
    returns (ss: seq<Step>, d: Cluster)
    requires Gathering(c, i, ns) && n in ns
    ensures Goes(c, ss, minPrepared, d) && Gathering(d, i, ns - {n})
    ensures d.followers.Keys == c.followers.Keys && SameBooks(c.leader, d.leader)
  {
    var l := c.leader.wal[i];
    var d1 := Does(c, FWritePrepare(n, l), minPrepared, n);
    var d2 := Acks(d1, minPrepared, n, i);
    GoesOn(c, [FWritePrepare(n, l)], d1, [FMark(n, i)], d2, minPrepared);
    d := Leads(d2, LReply(i, n, true), minPrepared);
    GoesOn(c, [FWritePrepare(n, l)] + [FMark(n, i)], d2, [LReply(i, n, true)], d, minPrepared);
    ss := [FWritePrepare(n, l)] + [FMark(n, i)] + [LReply(i, n, true)];
  }

  lemma {:induction false} Acks(c: Cluster, minPrepared: nat, n: NodeId, i: nat) returns (d: Cluster)
    requires n in c.followers && i in c.followers[n].marking
    ensures Works(c, [FMark(n, i)], minPrepared, d, n) && d.followers[n].wal == c.followers[n].wal && (n, i) in d.acks
  {
    var s := FMark(n, i);
    d := Next(c, s, minPrepared);
    assert [s][1..] == [] && Goes(d, [], minPrepared, d);
  }

  lemma {:induction false} Gather(c: Cluster, minPrepared: nat, i: nat, ns: set<NodeId>)
    returns (ss: seq<Step>, d: Cluster)
    requires Gathering(c, i, ns)
    ensures Goes(c, ss, minPrepared, d) && Gathering(d, i, {})
    ensures d.followers.Keys == c.followers.Keys && SameBooks(c.leader, d.leader)
    decreases ns
  {
    if ns == {} {
      ss, d := [], c;
    } else {
      var n :| n in ns;
      var s1, d1 := Confirms(c, minPrepared, i, ns, n);
      var s2, d2 := Gather(d1, minPrepared, i, ns - {n});
      GoesOn(c, s1, d1, s2, d2, minPrepared);
      ss, d := s1 + s2, d2;
    }
  }

  /** A new request is logged and sent. */
  lemma {:induction false} Sends(c: Cluster, minPrepared: nat, data: string) returns (ss: seq<Step>, d: Cluster)
    requires Nodes(c) && c.leader.committing.None? && ZeroReady(c.leader)
    ensures Goes(c, ss, minPrepared, d) && d == c.(leader := d.leader) && d.leader.executed == c.leader.executed
    ensures var i := c.leader.nextIndex;
      && Gathering(d, i, d.followers.Keys) && d.leader.wal[i].data == data && d.leader.committing.None?
      && 0 in d.leader.wal
  {
    var i := c.leader.nextIndex;
    var d1 := Leads(c, LAllocPrepare(data), minPrepared);
    d := Leads(d1, LWrite(i), minPrepared);
    GoesOn(c, [LAllocPrepare(data)], d1, [LWrite(i)], d, minPrepared);
    ss := [LAllocPrepare(data)] + [LWrite(i)];
    forall n | n in c.followers ensures i !in c.followers[n].wal {
      assert FollowerInv(c.followers[n], c.leader.wal) && i !in c.leader.wal;
    }
  }

  /** A prepare that every follower has confirmed is queued and its commit started. */
  lemma {:induction false} Starts(c: Cluster, minPrepared: nat, i: nat) returns (ss: seq<Step>, d: Cluster)
    requires Gathering(c, i, {}) && c.leader.committing.None? && minPrepared <= |c.followers|
    ensures Goes(c, ss, minPrepared, d) && d == c.(leader := d.leader)
    ensures var x, l, m := c.leader.nextIndex, c.leader, d.leader;
      && m.wal == l.wal && m.executed == l.executed && m.committing == Some(x)
      && m.unwritten == l.unwritten[x := Commit(x, i, l.lastCommit)]
  {
    assert |c.leader.phases[i].replies.Keys| == |c.followers.Keys|;
    var d1 := Leads(c, LQueue(i), minPrepared);
    d := Leads(d1, LBegin(i), minPrepared);
    GoesOn(c, [LQueue(i)], d1, [LBegin(i)], d, minPrepared);
    ss := [LQueue(i)] + [LBegin(i)];
  }

  /** A commit that is started is written and executed. */
  lemma {:induction false} Ends(c: Cluster, minPrepared: nat, x: nat) returns (ss: seq<Step>, d: Cluster)
    requires c.leader.committing == Some(x) && IsCommit(c.leader.unwritten, x)
    ensures Goes(c, ss, minPrepared, d) && d == c.(leader := d.leader)
    ensures d.leader.wal == c.leader.wal[x := c.leader.unwritten[x]]
    ensures d.leader.executed == c.leader.executed + [x]
  {
    var d1 := Leads(c, LWrite(x), minPrepared);
    d := Leads(d1, LExecute, minPrepared);
    GoesOn(c, [LWrite(x)], d1, [LExecute], d, minPrepared);
    ss := [LWrite(x)] + [LExecute];
  }

  lemma {:induction false} Concludes(c: Cluster, minPrepared: nat, i: nat) returns (ss: seq<Step>, d: Cluster)
    requires Gathering(c, i, {}) && c.leader.committing.None? && minPrepared <= |c.followers|
    requires c.leader.nextIndex !in c.leader.wal
    ensures Goes(c, ss, minPrepared, d) && d == c.(leader := d.leader)
    ensures var x := c.leader.nextIndex;
      && d.leader.executed == c.leader.executed + [x] && SubWal(c.leader.wal, d.leader.wal)
      && IsCommit(d.leader.wal, x) && d.leader.wal[x].prepare == i
  {
    var s1, d1 := Starts(c, minPrepared, i);
    var s2, d2 := Ends(d1, minPrepared, c.leader.nextIndex);
    GoesOn(c, s1, d1, s2, d2, minPrepared);
    ss, d := s1 + s2, d2;
  }

  /** A request that was waiting to be sent is executed by the leader. */
  lemma {:induction false} Serves(c: Cluster, minPrepared: nat, data: string)
    returns (ss: seq<Step>, d: Cluster, e: Cluster, ts: seq<Step>, x: nat)
    requires Inv(c, minPrepared) && c.leader.committing.None? && ZeroReady(c.leader)
    requires minPrepared <= |c.followers|
    ensures Goes(c, ss, minPrepared, e) && Goes(e, ts, minPrepared, d) && d == e.(leader := d.leader)
    ensures d.leader.executed == c.leader.executed + [x] && Request(d.leader.wal, x) == Some(data)
    ensures x !in e.leader.wal && 0 in d.leader.wal
  {
    var i := c.leader.nextIndex;
    var s1, d1 := Sends(c, minPrepared, data);
    var s2, d2 := Gather(d1, minPrepared, i, d1.followers.Keys);
    GoesOn(c, s1, d1, s2, d2, minPrepared);
    ss, e := s1 + s2, d2;
    GoesInv(c, ss, e, minPrepared);
    x := e.leader.nextIndex;
    ts, d := Concludes(e, minPrepared, i);
  }

  // ---------------------------------------------------------------- from every reachable state

  lemma {:induction false} UpToDateCommits(l: Leader, f: Follower, x: nat)
    requires LeaderInv(l) && FollowerInv(f, l.wal) && f.applying.None? && f.wal == l.wal
    ensures FollowerCommits(f) == LeaderCommits(l)
    ensures IsCommit(l.wal, x) && x !in f.lost ==> x in f.executed
  {
    LeaderWalGood(l);
    var m := if f.nextIndex < l.nextIndex then l.nextIndex else f.nextIndex;
    CommitsSame(f.wal, l.wal, m);
    CommitsBeyond(f.wal, f.nextIndex, m);
    CommitsBeyond(l.wal, l.nextIndex, m);
    ExceptMembers(f.wal, f.nextIndex, f.lost + Current(f.applying));
  }

  /** What a request has led to: the leader has executed it last, and every follower has executed it and is up to date
      with the leader. */
  ghost predicate Done(d: Cluster, data: string, x: nat) {
    && d.leader.executed != [] && d.leader.executed[|d.leader.executed| - 1] == x
    && Request(d.leader.wal, x) == Some(data)
    && forall n :: n in d.followers ==>
         x in d.followers[n].executed && FollowerCommits(d.followers[n]) == LeaderCommits(d.leader) && UpToDate(d, n)
  }

  /** Commit x came after everything the follower had lost. */
  lemma {:induction false} NotLost(e: Cluster, n: NodeId, x: nat)
    requires Nodes(e) && n in e.followers && x !in e.leader.wal
    ensures x !in e.followers[n].lost
  {
    assert FollowerInv(e.followers[n], e.leader.wal);
    assert x in e.followers[n].lost ==> IsCommit(e.followers[n].wal, x);
  }

  lemma {:induction false} AllSound(c: Cluster)
    requires Nodes(c)
    ensures WalInv(c.leader.wal) && forall n :: n in c.followers ==> Sound(c, n)
  {
    LeaderWalGood(c.leader);
  }

  lemma {:induction false} NodeDone(d: Cluster, n: NodeId, x: nat)
    requires Nodes(d) && UpToDate(d, n) && IsCommit(d.leader.wal, x) && x !in d.followers[n].lost
    ensures x in d.followers[n].executed && FollowerCommits(d.followers[n]) == LeaderCommits(d.leader)
  {
    assert FollowerInv(d.followers[n], d.leader.wal);
    UpToDateCommits(d.leader, d.followers[n], x);
  }

  lemma {:induction false} FinishAll(c: Cluster, e: Cluster, minPrepared: nat, data: string, x: nat)
    returns (ss: seq<Step>, d: Cluster)
    requires Inv(e, minPrepared) && Inv(c, minPrepared) && c == e.(leader := c.leader) && x !in e.leader.wal
    requires 0 in c.leader.wal && Request(c.leader.wal, x) == Some(data)
    requires c.leader.executed != [] && c.leader.executed[|c.leader.executed| - 1] == x
    ensures Goes(c, ss, minPrepared, d) && d.leader == c.leader && Done(d, data, x)
  {
    AllSound(c);
    ss, d := AllCatchUp(c, minPrepared, c.followers.Keys);
    GoesInv(c, ss, d, minPrepared);
    forall n | n in d.followers
      ensures x in d.followers[n].executed && FollowerCommits(d.followers[n]) == LeaderCommits(d.leader)
      ensures UpToDate(d, n)
    {
      NotLost(e, n, x);
      NodeDone(d, n, x);
    }
  }

  /** The leader gets ready for a request: log 0 is written or comes next, and no commit is in progress. */
  lemma {:induction false} Prepares(c: Cluster, minPrepared: nat) returns (ss: seq<Step>, d: Cluster)
    requires Inv(c, minPrepared) && !LostZero(c.leader)
    ensures Goes(c, ss, minPrepared, d) && Inv(d, minPrepared) && d.followers == c.followers
    ensures d.leader.committing.None? && ZeroReady(d.leader) && c.leader.executed <= d.leader.executed
  {
    var s1, d1 := Zero(c, minPrepared);
    GoesInv(c, s1, d1, minPrepared);
    var s2, d2 := Drain(d1, minPrepared);
    GoesInv(d1, s2, d2, minPrepared);
    GoesOn(c, s1, d1, s2, d2, minPrepared);
    ss, d := s1 + s2, d2;
  }

  /** From a state that is ready any request can be executed by all nodes. */
  lemma {:induction false} Handles(c: Cluster, minPrepared: nat, data: string)
    returns (ss: seq<Step>, d: Cluster, x: nat)
    requires Inv(c, minPrepared) && c.leader.committing.None? && ZeroReady(c.leader)
    requires minPrepared <= |c.followers|
    ensures Goes(c, ss, minPrepared, d) && d.leader.executed == c.leader.executed + [x] && Done(d, data, x)
  {
    var s1, d1, e, s2, y := Serves(c, minPrepared, data);
    x := y;
    GoesInv(c, s1, e, minPrepared);
    GoesInv(e, s2, d1, minPrepared);
    GoesOn(c, s1, e, s2, d1, minPrepared);
    var s3, d3 := FinishAll(d1, e, minPrepared, data, x);
    GoesOn(c, s1 + s2, d1, s3, d3, minPrepared);
    ss, d := s1 + s2 + s3, d3;
  }

  /** From a state that has not lost log 0 any request can be executed by all nodes. */
  lemma {:induction false} Completes(c: Cluster, minPrepared: nat, data: string)
    returns (ss: seq<Step>, d: Cluster, x: nat)
    requires Inv(c, minPrepared) && !LostZero(c.leader) && minPrepared <= |c.followers|
    ensures Goes(c, ss, minPrepared, d) && c.leader.executed <= d.leader.executed && Done(d, data, x)
  {
    var s1, d1 := Prepares(c, minPrepared);
    var s2, d2, y := Handles(d1, minPrepared, data);
    GoesOn(c, s1, d1, s2, d2, minPrepared);
    ss, d, x := s1 + s2, d2, y;
  }

  lemma {:induction false} LostKept(c: Cluster, s: Step, minPrepared: nat)
    requires LeaderInv(c.leader) && LostZero(c.leader) && LeaderStep(s) && LeaderEnabled(c, s, minPrepared)
    ensures LostZero(LeaderNext(c, s, minPrepared))
  {
    var i :| i in c.leader.wal;
    assert 0 < c.leader.nextIndex;
    assert i in LeaderNext(c, s, minPrepared).wal;
  }

  lemma {:induction false} NoneWithoutZero(w: Wal, big: Wal)
    requires Part(w, big) && WalInv(big) && 0 !in big
    ensures forall i: nat :: !IsCommit(w, i)
  {
    forall i: nat ensures !IsCommit(w, i) {
      if IsCommit(w, i) { NoCommitAt(w, big, i); }
    }
  }

  lemma {:induction false} NoCommitAt(w: Wal, big: Wal, i: nat)
    requires Part(w, big) && WalInv(big) && 0 !in big && IsCommit(w, i)
    ensures false
  {
    var p := w[i].previous;
    assert p in w && IsCommit(big, i);
    PreviousIsEarlier(big, i);
    if p != 0 {
      assert IsCommit(big, p);
      NoCommitAt(w, big, p);
    }
  }

  ghost predicate NoneCommitted(c: Cluster) {
    forall n :: n in c.followers ==> FollowerCommits(c.followers[n]) == []
  }

  lemma {:induction false} LostAt(c: Cluster, n: NodeId)
    requires Sound(c, n) && 0 !in c.leader.wal
    ensures FollowerCommits(c.followers[n]) == []
  {
    NoneWithoutZero(c.followers[n].wal, c.leader.wal);
    NoCommits(c.followers[n].wal, c.followers[n].nextIndex);
  }

  lemma {:induction false} LostNone(c: Cluster)
    requires Nodes(c) && LostZero(c.leader)
    ensures NoneCommitted(c)
  {
    AllSound(c);
    forall n | n in c.followers ensures FollowerCommits(c.followers[n]) == [] { LostAt(c, n); }
  }

  lemma {:induction false} LostNext(c: Cluster, s: Step, minPrepared: nat)
    requires LeaderInv(c.leader) && LostZero(c.leader) && Enabled(c, s, minPrepared)
    ensures LostZero(Next(c, s, minPrepared).leader)
  {
    if LeaderStep(s) { LostKept(c, s, minPrepared); }
  }

  /** Once log 0 is lost no follower ever commits anything. */
  lemma {:induction false} NeverCommits(c: Cluster, minPrepared: nat, ss: seq<Step>, d: Cluster)
    requires Inv(c, minPrepared) && LostZero(c.leader) && Goes(c, ss, minPrepared, d)
    ensures LostZero(d.leader) && NoneCommitted(d)
    decreases |ss|
  {
    if ss == [] {
      LostNone(c);
    } else {
      LostNext(c, ss[0], minPrepared);
      StepKeeps(c, ss[0], minPrepared);
      NeverCommits(Next(c, ss[0], minPrepared), minPrepared, ss[1..], d);
    }
  }

  lemma {:induction false} CommitsSome(d: Cluster, data: string, x: nat)
    requires Nodes(d) && d.followers.Keys != {} && Done(d, data, x)
    ensures !NoneCommitted(d)
  {
    var n :| n in d.followers;
    LeaderWalGood(d.leader);
    assert x in LeaderCommits(d.leader);
    assert FollowerCommits(d.followers[n]) != [];
  }

  lemma {:induction false} NeverDone(c: Cluster, minPrepared: nat, more: seq<Step>, d: Cluster, data: string, x: nat)
    requires Inv(c, minPrepared) && c.followers.Keys != {} && LostZero(c.leader) && Goes(c, more, minPrepared, d)
    ensures !Done(d, data, x)
  {
    NeverCommits(c, minPrepared, more, d);
    GoesInv(c, more, d, minPrepared);
    if Done(d, data, x) {
      CommitsSome(d, data, x);
      assert false;
    }
  }

  lemma {:induction false} StuckAt(c: Cluster, minPrepared: nat, data: string)
    requires Inv(c, minPrepared) && c.followers.Keys != {} && LostZero(c.leader)
    ensures forall more, d :: Goes(c, more, minPrepared, d) ==> NoneCommitted(d)
    ensures forall more, d, x :: Goes(c, more, minPrepared, d) ==> !Done(d, data, x)
  {
    forall more, d | Goes(c, more, minPrepared, d) ensures NoneCommitted(d) {
      NeverCommits(c, minPrepared, more, d);
    }
    forall more, d, x | Goes(c, more, minPrepared, d) ensures !Done(d, data, x) {
      NeverDone(c, minPrepared, more, d, data, x);
    }
  }

  lemma {:induction false} LiveAt(c: Cluster, minPrepared: nat, data: string)
    requires Inv(c, minPrepared) && c.followers.Keys != {} && !LostZero(c.leader) && minPrepared <= |c.followers|
    ensures exists more, d, x :: Goes(c, more, minPrepared, d) && Done(d, data, x) && !NoneCommitted(d)
  {
    var more, d, x := Completes(c, minPrepared, data);
    GoesInv(c, more, d, minPrepared);
    CommitsSome(d, data, x);
  }

  /** In every run: whatever has been lost, repeated and crashed, any request can still be executed by the leader and
      all followers, if and only if log 0 is not lost. If it is, no follower commits anything in any continuation. */
  lemma {:induction false} ProgressIff(nodes: set<NodeId>, minPrepared: nat, steps: seq<Step>, run: seq<Cluster>,
                                       data: string)
    requires IsRun(nodes, minPrepared, steps, run) && nodes != {} && minPrepared <= |nodes|
    ensures !LostZero(run[|steps|].leader) <==>
      exists more, d, x :: Goes(run[|steps|], more, minPrepared, d) && Done(d, data, x)
    ensures LostZero(run[|steps|].leader) <==>
      forall more, d :: Goes(run[|steps|], more, minPrepared, d) ==> NoneCommitted(d)
  {
    RunInv(nodes, minPrepared, steps, run, |steps|);
    ProgressAt(run[|steps|], minPrepared, data);
  }

  lemma {:induction false} ProgressAt(c: Cluster, minPrepared: nat, data: string)
    requires Inv(c, minPrepared) && c.followers.Keys != {} && minPrepared <= |c.followers|
    ensures !LostZero(c.leader) <==> exists more, d, x :: Goes(c, more, minPrepared, d) && Done(d, data, x)
    ensures LostZero(c.leader) <==> forall more, d :: Goes(c, more, minPrepared, d) ==> NoneCommitted(d)
  {
    if LostZero(c.leader) {
      StuckAt(c, minPrepared, data);
    } else {
      LiveAt(c, minPrepared, data);
    }
  }
}
