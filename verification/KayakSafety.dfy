/** What the Kayak protocol promises, over every state of every run of a cluster. */
module KayakSafety {
  import opened Common
  import opened KayakLog
  import opened KayakFollower
  import opened KayakLeader
  import opened KayakCluster

  // ---------------------------------------------------------------- commit sequences

  lemma {:induction false} CommitsSame(w: Wal, v: Wal, n: nat)
    requires forall i: nat :: i < n ==> (IsCommit(w, i) <==> IsCommit(v, i))
    ensures CommitsBelow(w, n) == CommitsBelow(v, n)
  {
    if n > 0 { CommitsSame(w, v, n - 1); }
  }

  lemma {:induction false} CommitsBeyond(w: Wal, n: nat, m: nat)
    requires n <= m && forall i: nat :: n <= i < m ==> !IsCommit(w, i)
    ensures CommitsBelow(w, m) == CommitsBelow(w, n)
  {
    if n < m { CommitsBeyond(w, n, m - 1); }
  }

  lemma {:induction false} CommitsPrefix(w: Wal, n: nat, m: nat)
    requires n <= m
    ensures CommitsBelow(w, n) <= CommitsBelow(w, m)
  {
    if n < m { CommitsPrefix(w, n, m - 1); }
  }

  /** The commits of a part of a WAL are the first commits of that WAL. */
  lemma {:induction false} PartIsPrefix(w: Wal, n: nat, big: Wal, m: nat)
    requires Part(w, big) && Bounded(w, n) && Bounded(big, m)
    ensures CommitsBelow(w, n) <= CommitsBelow(big, m)
  {
    var c := LastCommit(w, n);
    if IsCommit(w, c) && c < n {
      SameUpTo(w, big, c);
      PrefixUpTo(w, n, big, m, c + 1);
    } else {
      NoCommits(w, n);
    }
  }

  lemma {:induction false} PrefixUpTo(w: Wal, n: nat, big: Wal, m: nat, c: nat)
    requires c <= n && c <= m && forall i: nat :: c <= i < n ==> !IsCommit(w, i)
    requires forall i: nat :: i < c ==> (IsCommit(w, i) <==> IsCommit(big, i))
    ensures CommitsBelow(w, n) <= CommitsBelow(big, m)
  {
    CommitsBeyond(w, c, n);
    CommitsSame(w, big, c);
    CommitsPrefix(big, c, m);
  }

  lemma {:induction false} NoCommits(w: Wal, n: nat)
    requires LastCommit(w, n) == 0 && !(0 < n && IsCommit(w, 0))
    ensures CommitsBelow(w, n) == []
  {
    CommitsBeyond(w, 0, n);
  }

  lemma SameUpTo(w: Wal, big: Wal, c: nat)
    requires Part(w, big) && IsCommit(w, c)
    ensures IsCommit(big, c) && forall i: nat :: i < c + 1 ==> (IsCommit(w, i) <==> IsCommit(big, i))
  {
    assert IsCommit(big, c);
  }

  /** The request a commit stands for. */
  function Request(w: Wal, c: nat): Option<string> {
    if IsCommit(w, c) && IsPrepare(w, w[c].prepare) then Some(w[w[c].prepare].data) else None
  }

  function Requests(w: Wal, commits: seq<nat>): (r: seq<Option<string>>)
    ensures |r| == |commits|
    ensures forall k :: 0 <= k < |r| ==> r[k] == Request(w, commits[k])
  {
    if commits == [] then [] else [Request(w, commits[0])] + Requests(w, commits[1..])
  }

  ghost function FollowerCommits(f: Follower): seq<nat> { CommitsBelow(f.wal, f.nextIndex) }

  ghost function LeaderCommits(l: Leader): seq<nat> { CommitsBelow(l.wal, l.nextIndex) }

  /** Follower prefix safety: whatever is lost, repeated or reordered, the commits in a follower's
      WAL are the first commits of the leader, for the same requests in the same order. */
  lemma PrefixSafety(nodes: set<NodeId>, minPrepared: nat, steps: seq<Step>, run: seq<Cluster>, k: nat, n: NodeId)
    requires IsRun(nodes, minPrepared, steps, run) && k < |run| && n in nodes
    ensures n in run[k].followers
    ensures var f, l := run[k].followers[n], run[k].leader;
      && FollowerCommits(f) <= LeaderCommits(l)
      && Requests(f.wal, FollowerCommits(f)) <= Requests(l.wal, LeaderCommits(l))
      && None !in Requests(l.wal, LeaderCommits(l))
  {
    RunInv(nodes, minPrepared, steps, run, k);
    var f, l := run[k].followers[n], run[k].leader;
    LeaderWalGood(l);
    FollowerPrefix(f, l.wal, l.nextIndex);
    HasRequests(l.wal, LeaderCommits(l));
  }

  lemma {:induction false} FollowerPrefix(f: Follower, big: Wal, m: nat)
    requires Part(f.wal, big) && Bounded(f.wal, f.nextIndex) && Bounded(big, m)
    ensures FollowerCommits(f) <= CommitsBelow(big, m)
    ensures Requests(f.wal, FollowerCommits(f)) <= Requests(big, CommitsBelow(big, m))
  {
    PartIsPrefix(f.wal, f.nextIndex, big, m);
    var c, d := FollowerCommits(f), CommitsBelow(big, m);
    var r, q := Requests(f.wal, c), Requests(big, d);
    forall k | 0 <= k < |r| ensures r[k] == q[k] {
      assert IsCommit(f.wal, c[k]) && Resolves(f.wal, c[k], f.wal[c[k]].prepare);
    }
  }

  lemma {:induction false} HasRequests(w: Wal, commits: seq<nat>)
    requires WellIndexed(w) && forall k :: 0 <= k < |commits| ==> IsCommit(w, commits[k])
    ensures None !in Requests(w, commits)
  {
    forall k | 0 <= k < |commits| ensures Request(w, commits[k]).Some? {
      assert IsCommit(w, commits[k]);
      assert Resolves(w, commits[k], w[commits[k]].prepare);
    }
  }

  // ---------------------------------------------------------------- executed requests

  lemma {:induction false} ExceptMembers(w: Wal, n: nat, skip: set<nat>)
    ensures forall i: nat :: i in CommitsExcept(w, n, skip) <==> i < n && IsCommit(w, i) && i !in skip
  {
    if n > 0 { ExceptMembers(w, n - 1, skip); }
  }

  /** Leaving commits out of the ascending list gives a prefix of it exactly when no commit left
      out precedes one kept. */
  lemma {:induction false} ExceptIsPrefixIff(w: Wal, n: nat, skip: set<nat>)
    ensures CommitsExcept(w, n, skip) <= CommitsBelow(w, n) <==>
      forall x, y :: x in skip && x < n && IsCommit(w, x) && y in CommitsExcept(w, n, skip) ==> y < x
  {
    var e, c := CommitsExcept(w, n, skip), CommitsBelow(w, n);
    ExceptMembers(w, n, skip);
    if e <= c {
      forall i | 0 <= i < |e| ensures c[i] !in skip { assert e[i] in e; }
      forall x, y | x in skip && x < n && IsCommit(w, x) && y in e ensures y < x {
        var j :| 0 <= j < |c| && c[j] == x;
        var i :| 0 <= i < |e| && e[i] == y;
        assert c[i] == y;
      }
    } else if forall x, y :: x in skip && x < n && IsCommit(w, x) && y in e ==> y < x {
      SkippedAtEnd(w, n, skip);
    }
  }

  lemma {:induction false} SkippedAtEnd(w: Wal, n: nat, skip: set<nat>)
    requires forall x, y :: x in skip && x < n && IsCommit(w, x) && y in CommitsExcept(w, n, skip) ==> y < x
    ensures CommitsExcept(w, n, skip) <= CommitsBelow(w, n)
  {
    if n > 0 {
      ExceptMembers(w, n, skip);
      ExceptMembers(w, n - 1, skip);
      SkippedAtEnd(w, n - 1, skip);
      if IsCommit(w, n - 1) && n - 1 !in skip {
        assert n - 1 in CommitsExcept(w, n, skip);
        NothingSkipped(w, n, skip);
      }
    }
  }

  lemma {:induction false} NothingSkipped(w: Wal, n: nat, skip: set<nat>)
    requires forall x :: x in skip && x < n ==> !IsCommit(w, x)
    ensures CommitsExcept(w, n, skip) == CommitsBelow(w, n)
  {
    if n > 0 { NothingSkipped(w, n - 1, skip); }
  }

  /** The commits a follower has executed are its committed ones in order, without the one being
      applied and those a crash cut off between WAL write and handler call; they are a prefix of
      the leader's commits exactly when nothing executed follows a commit lost that way. */
  lemma ExecutedPrefixIff(nodes: set<NodeId>, minPrepared: nat, steps: seq<Step>, run: seq<Cluster>, k: nat, n: NodeId)
    requires IsRun(nodes, minPrepared, steps, run) && k < |run| && n in nodes
    ensures n in run[k].followers
    ensures var f, l := run[k].followers[n], run[k].leader;
      && f.executed == CommitsExcept(f.wal, f.nextIndex, f.lost + Current(f.applying))
      && (f.executed <= LeaderCommits(l) <==> forall x, y :: x in f.lost && y in f.executed ==> y < x)
  {
    RunInv(nodes, minPrepared, steps, run, k);
    PrefixSafety(nodes, minPrepared, steps, run, k, n);
    var f, l := run[k].followers[n], run[k].leader;
    ExecutedIff(f, LeaderCommits(l));
  }

  lemma {:induction false} ExceptShorter(w: Wal, n: nat, skip: set<nat>)
    ensures |CommitsExcept(w, n, skip)| <= |CommitsBelow(w, n)|
  {
    if n > 0 { ExceptShorter(w, n - 1, skip); }
  }

  lemma ExecutedIff(f: Follower, all: seq<nat>)
    requires ChainOk(f) && ExecutedOk(f) && FollowerCommits(f) <= all
    ensures f.executed <= all <==> forall x, y :: x in f.lost && y in f.executed ==> y < x
  {
    ExecutedAmongOwn(f);
    ExceptShorter(f.wal, f.nextIndex, f.lost + Current(f.applying));
    ShortPrefix(f.executed, FollowerCommits(f), all);
  }

  /** The commit being applied is the last one, so only lost ones can be left out in between. */
  lemma ExecutedAmongOwn(f: Follower)
    requires ChainOk(f) && ExecutedOk(f)
    ensures f.executed <= FollowerCommits(f) <==> forall x, y :: x in f.lost && y in f.executed ==> y < x
  {
    var skip := f.lost + Current(f.applying);
    ExceptMembers(f.wal, f.nextIndex, skip);
    ExceptIsPrefixIff(f.wal, f.nextIndex, skip);
    forall x, y | x in Current(f.applying) && y in f.executed ensures y < x {
      assert IsCommit(f.wal, y);
    }
  }

  /** A list no longer than a prefix c of all is a prefix of all exactly when it is one of c. */
  lemma ShortPrefix(e: seq<nat>, c: seq<nat>, all: seq<nat>)
    requires c <= all
    ensures |e| <= |c| ==> (e <= all <==> e <= c)
  {
    if |e| <= |c| && e <= all {
      assert forall i :: 0 <= i < |e| ==> e[i] == c[i];
    }
  }

  // ---------------------------------------------------------------- one decision

  lemma {:induction false} WalOnlyGrows(nodes: set<NodeId>, minPrepared: nat, steps: seq<Step>, run: seq<Cluster>,
      j: nat, k: nat)
    requires IsRun(nodes, minPrepared, steps, run) && j <= k < |run|
    ensures SubWal(run[j].leader.wal, run[k].leader.wal)
  {
    if j < k {
      WalOnlyGrows(nodes, minPrepared, steps, run, j, k - 1);
      WalGrowsByStep(nodes, minPrepared, steps, run, k - 1);
    }
  }

  lemma WalGrowsByStep(nodes: set<NodeId>, minPrepared: nat, steps: seq<Step>, run: seq<Cluster>, k: nat)
    requires IsRun(nodes, minPrepared, steps, run) && k < |steps|
    ensures SubWal(run[k].leader.wal, run[k + 1].leader.wal)
  {
    RunInv(nodes, minPrepared, steps, run, k);
    if LeaderStep(steps[k]) { LeaderNextKeeps(run[k], steps[k], minPrepared); }
  }

  /** w is the WAL of some node of the cluster. */
  ghost predicate SomeWal(c: Cluster, w: Wal) {
    w == c.leader.wal || exists n :: n in c.followers && w == c.followers[n].wal
  }

  lemma SomeWalIsPart(c: Cluster, w: Wal)
    requires Nodes(c) && SomeWal(c, w)
    ensures SubWal(w, c.leader.wal)
  {}

  /** Single decision: at all times and on all nodes of a run, the logs that decide a prepare are
      one and the same log, so no prepare is both committed and rolled back. */
  lemma SingleDecision(nodes: set<NodeId>, minPrepared: nat, steps: seq<Step>, run: seq<Cluster>,
                       j: nat, k: nat, v: Wal, w: Wal, a: nat, b: nat, p: nat)
    requires IsRun(nodes, minPrepared, steps, run) && j <= k < |run|
    requires SomeWal(run[j], v) && SomeWal(run[k], w) && Resolves(v, a, p) && Resolves(w, b, p)
    ensures a == b && v[a] == w[b]
  {
    RunInv(nodes, minPrepared, steps, run, j);
    RunInv(nodes, minPrepared, steps, run, k);
    SomeWalIsPart(run[j], v);
    SomeWalIsPart(run[k], w);
    WalOnlyGrows(nodes, minPrepared, steps, run, j, k);
    SameDecision(run[k].leader, v, w, a, b, p);
  }

  lemma SameDecision(l: Leader, v: Wal, w: Wal, a: nat, b: nat, p: nat)
    requires OneDecision(l) && SubWal(v, l.wal) && SubWal(w, l.wal)
    requires Resolves(v, a, p) && Resolves(w, b, p)
    ensures a == b && v[a] == w[b]
  {
    assert Resolves(l.wal, a, p) && Resolves(l.wal, b, p);
  }

  /** Prepare p is decided at f and off its pending map. */
  ghost predicate Settled(f: Follower, p: nat) {
    IsPrepare(f.wal, p) && Resolved(f.wal, p) && p !in f.pending
  }

  lemma SettledStep(c: Cluster, s: Step, p: nat)
    requires LeaderInv(c.leader) && FollowerEnabled(c, s) && FollowerInv(c.followers[s.node], c.leader.wal)
    requires Settled(c.followers[s.node], p)
    ensures Settled(FollowerNext(c, s), p)
  {
    var f, g := c.followers[s.node], FollowerNext(c, s);
    FollowerNextKeeps(c, s);
    var i :| Resolves(f.wal, i, p);
    assert Resolves(g.wal, i, p);
    if s.FRestart? {
      LeaderWalGood(c.leader);
      RestartWorks(f, c.leader.wal);
      assert p !in Unresolved(f.wal, f.nextIndex);
    }
  }

  lemma SettledNext(c: Cluster, s: Step, minPrepared: nat, n: NodeId, p: nat)
    requires Nodes(c) && Enabled(c, s, minPrepared) && n in c.followers && Settled(c.followers[n], p)
    ensures n in Next(c, s, minPrepared).followers && Settled(Next(c, s, minPrepared).followers[n], p)
  {
    if !LeaderStep(s) && s.node == n { SettledStep(c, s, p); }
  }

  /** Once a prepare is decided at a follower and finished, it is never pending there again, however
      often its logs are delivered and however often the follower restarts. */
  lemma {:induction false} NeverPendingAgain(nodes: set<NodeId>, minPrepared: nat, steps: seq<Step>, run: seq<Cluster>,
                            j: nat, k: nat, n: NodeId, p: nat)
    requires IsRun(nodes, minPrepared, steps, run) && j <= k < |run|
    requires n in run[j].followers && Settled(run[j].followers[n], p)
    ensures n in run[k].followers && Settled(run[k].followers[n], p)
  {
    if j < k {
      NeverPendingAgain(nodes, minPrepared, steps, run, j, k - 1, n, p);
      SettledInRun(nodes, minPrepared, steps, run, k - 1, n, p);
    }
  }

  lemma SettledInRun(nodes: set<NodeId>, minPrepared: nat, steps: seq<Step>, run: seq<Cluster>, k: nat, n: NodeId,
      p: nat)
    requires IsRun(nodes, minPrepared, steps, run) && k < |steps|
    requires n in run[k].followers && Settled(run[k].followers[n], p)
    ensures n in run[k + 1].followers && Settled(run[k + 1].followers[n], p)
  {
    NodesInRun(nodes, minPrepared, steps, run, k);
    SettledNext(run[k], steps[k], minPrepared, n, p);
  }

  lemma NodesInRun(nodes: set<NodeId>, minPrepared: nat, steps: seq<Step>, run: seq<Cluster>, k: nat)
    requires IsRun(nodes, minPrepared, steps, run) && k < |run|
    ensures Nodes(run[k])
  {
    RunInv(nodes, minPrepared, steps, run, k);
  }

  // ---------------------------------------------------------------- recovery and durability

  /** Recovery over runs: a follower can restart in every reachable state; the leader can exactly
      when log 0 is in its WAL or it has committed nothing. Both rebuild the undecided prepares, the
      last commit of the local chain and an index above every stored one. */
  lemma RecoveryInRuns(nodes: set<NodeId>, minPrepared: nat, steps: seq<Step>, run: seq<Cluster>, k: nat, n: NodeId)
    requires IsRun(nodes, minPrepared, steps, run) && k < |run| && n in nodes
    ensures n in run[k].followers
    ensures var f := run[k].followers[n];
      Replay(f.wal, f.nextIndex) == Rebuilt(f.wal, f.nextIndex)
    ensures var l := run[k].leader;
      && (Replay(l.wal, l.nextIndex).Recovered? <==> (0 in l.wal || LeaderCommits(l) == []))
      && (Replay(l.wal, l.nextIndex).Recovered? ==> Replay(l.wal, l.nextIndex) == Rebuilt(l.wal, l.nextIndex))
  {
    RunInv(nodes, minPrepared, steps, run, k);
    LeaderWalGood(run[k].leader);
    RestartWorks(run[k].followers[n], run[k].leader.wal);
    RestartLeaderWorks(run[k].leader);
  }

  /** Quorum durability: behind every commit log of the leader stand the leader and at least
      minPrepared followers that hold its prepare log. */
  lemma QuorumDurability(nodes: set<NodeId>, minPrepared: nat, steps: seq<Step>, run: seq<Cluster>, k: nat, i: nat)
    requires IsRun(nodes, minPrepared, steps, run) && k < |run| && IsCommit(run[k].leader.wal, i)
    ensures IsPrepare(run[k].leader.wal, run[k].leader.wal[i].prepare)
    ensures Holders(run[k], run[k].leader.wal[i].prepare) <= nodes
    ensures |Holders(run[k], run[k].leader.wal[i].prepare)| >= minPrepared
  {
    RunInv(nodes, minPrepared, steps, run, k);
    assert Resolves(run[k].leader.wal, i, run[k].leader.wal[i].prepare);
  }

  // ---------------------------------------------------------------- the two gaps

  /** The index of a log is taken before the log is written: request "b" can commit while the log
      of request "a", number 0, is still unwritten. A leader crashing there waits for it forever. */
  lemma LostLogZero() returns (steps: seq<Step>, run: seq<Cluster>)
    ensures IsRun({7}, 0, steps, run)
    ensures var l := run[|run| - 1].leader;
      LeaderCommits(l) != [] && Replay(l.wal, l.nextIndex) == Blocked
  {
    steps, run := ExtendL([], [Init({7})], LAllocPrepare("a"));
    steps, run := OneCommit(steps, run, "b");
    var l := run[|steps|].leader;
    assert IsCommit(l.wal, 2) && 0 !in l.wal && l.nextIndex == 3;
    RecoveryInRuns({7}, 0, steps, run, |steps|, 7);
    BlockedInRun({7}, 0, steps, run, |steps|);
  }

  lemma BlockedInRun(nodes: set<NodeId>, minPrepared: nat, steps: seq<Step>, run: seq<Cluster>, k: nat)
    requires IsRun(nodes, minPrepared, steps, run) && k < |run|
    ensures var l := run[k].leader; !Replay(l.wal, l.nextIndex).Recovered? ==> Replay(l.wal, l.nextIndex) == Blocked
  {
    RunInv(nodes, minPrepared, steps, run, k);
    LeaderWalGood(run[k].leader);
    RecoversIffClosed(run[k].leader.wal, run[k].leader.nextIndex);
  }

  lemma Extend(nodes: set<NodeId>, minPrepared: nat, steps: seq<Step>, run: seq<Cluster>, s: Step)
    returns (steps': seq<Step>, run': seq<Cluster>)
    requires IsRun(nodes, minPrepared, steps, run) && Enabled(run[|steps|], s, minPrepared)
    ensures IsRun(nodes, minPrepared, steps', run') && |run'| == |run| + 1
    ensures run'[|run|] == Next(run[|steps|], s, minPrepared)
  {
    steps', run' := steps + [s], run + [Next(run[|steps|], s, minPrepared)];
  }

  /** A crash of a follower between writing a commit log and calling the handler: after the restart
      the next commit is executed and the first one never is. */
  lemma LostCommit() returns (steps: seq<Step>, run: seq<Cluster>)
    ensures IsRun({7}, 0, steps, run)
    ensures 7 in run[|run| - 1].followers && run[|run| - 1].followers[7].executed == [3]
    ensures IsCommit(run[|run| - 1].followers[7].wal, 1)
  {
    steps, run := TwoCommits();
    var p0, c1, p2, c3 := Prepare(0, "a"), Commit(1, 0, 0), Prepare(2, "b"), Commit(3, 2, 1);
    steps, run := ExtendF(steps, run, FWritePrepare(7, p0));
    steps, run := ExtendF(steps, run, FMark(7, 0));
    steps, run := ExtendF(steps, run, FCheck(7, c1));
    steps, run := ExtendF(steps, run, FWriteCommit(7, c1));
    var f := run[|steps|].followers[7];
    assert f.wal == map[0 := p0, 1 := c1] && f.nextIndex == 2 && f.applying == Some(1);
    assert Replay(f.wal, 1) == Recovered({0}, 0, 1);
    assert Replay(f.wal, 2) == Recovered({}, 1, 2);
    steps, run := ExtendF(steps, run, FRestart(7));
    steps, run := AfterRestart(steps, run);
  }

  ghost const TwoCommitWal: Wal :=
    map[0 := Prepare(0, "a"), 1 := Commit(1, 0, 0), 2 := Prepare(2, "b"), 3 := Commit(3, 2, 1)]

  lemma AfterRestart(steps: seq<Step>, run: seq<Cluster>) returns (steps': seq<Step>, run': seq<Cluster>)
    requires IsRun({7}, 0, steps, run) && run[|steps|].leader.wal == TwoCommitWal && 7 in run[|steps|].followers
    requires run[|steps|].followers[7]
             == Follower(map[0 := Prepare(0, "a"), 1 := Commit(1, 0, 0)], 2, 1, {}, {}, {}, None, {}, [], {1})
    ensures IsRun({7}, 0, steps', run') && 7 in run'[|run'| - 1].followers
    ensures run'[|run'| - 1].followers[7].executed == [3] && IsCommit(run'[|run'| - 1].followers[7].wal, 1)
  {
    var p2, c3 := Prepare(2, "b"), Commit(3, 2, 1);
    steps', run' := ExtendF(steps, run, FWritePrepare(7, p2));
    steps', run' := ExtendF(steps', run', FMark(7, 2));
    steps', run' := ExtendF(steps', run', FCheck(7, c3));
    steps', run' := ExtendF(steps', run', FWriteCommit(7, c3));
    steps', run' := ExtendF(steps', run', FExecute(7));
  }

  lemma ExtendF(steps: seq<Step>, run: seq<Cluster>, s: Step) returns (steps': seq<Step>, run': seq<Cluster>)
    requires IsRun({7}, 0, steps, run) && FollowerEnabled(run[|steps|], s) && s.node == 7
    ensures IsRun({7}, 0, steps', run') && |run'| == |run| + 1
    ensures run'[|run|].leader == run[|steps|].leader
    ensures 7 in run'[|run|].followers && run'[|run|].followers[7] == FollowerNext(run[|steps|], s)
  {
    steps', run' := Extend({7}, 0, steps, run, s);
  }

  lemma ExtendL(steps: seq<Step>, run: seq<Cluster>, s: Step) returns (steps': seq<Step>, run': seq<Cluster>)
    requires IsRun({7}, 0, steps, run) && LeaderEnabled(run[|steps|], s, 0)
    ensures IsRun({7}, 0, steps', run') && |run'| == |run| + 1
    ensures run'[|run|].leader == LeaderNext(run[|steps|], s, 0)
    ensures run'[|run|].followers == run[|steps|].followers
  {
    steps', run' := Extend({7}, 0, steps, run, s);
  }

  lemma TwoCommits() returns (steps: seq<Step>, run: seq<Cluster>)
    ensures IsRun({7}, 0, steps, run) && run[|steps|].leader.wal == TwoCommitWal
    ensures run[|steps|].followers == map[7 := Fresh()]
  {
    steps, run := [], [Init({7})];
    steps, run := OneCommit(steps, run, "a");
    var l := run[|steps|].leader;
    assert l.wal == map[0 := Prepare(0, "a"), 1 := Commit(1, 0, 0)];
    steps, run := OneCommit(steps, run, "b");
  }

  /** One request from its arrival to the end of its commit, with nobody to wait for. */
  lemma OneCommit(steps: seq<Step>, run: seq<Cluster>, data: string) returns (steps': seq<Step>, run': seq<Cluster>)
    requires IsRun({7}, 0, steps, run)
    requires run[|steps|].leader.committing == None
    ensures IsRun({7}, 0, steps', run') && run'[|steps'|].followers == run[|steps|].followers
    ensures var l, m := run[|steps|].leader, run'[|steps'|].leader; var n := l.nextIndex;
      && m.wal == l.wal[n := Prepare(n, data)][n + 1 := Commit(n + 1, n, l.lastCommit)]
      && m.nextIndex == n + 2 && m.lastCommit == n + 1 && m.committing == None
  {
    var n := run[|steps|].leader.nextIndex;
    steps', run' := ExtendL(steps, run, LAllocPrepare(data));
    steps', run' := ExtendL(steps', run', LWrite(n));
    steps', run' := CommitPrepared(steps', run', n);
  }

  lemma CommitPrepared(steps: seq<Step>, run: seq<Cluster>, i: nat) returns (steps': seq<Step>, run': seq<Cluster>)
    requires IsRun({7}, 0, steps, run) && i in run[|steps|].leader.phases
    requires run[|steps|].leader.committing == None && run[|steps|].leader.phases[i] == Preparing(map[])
    ensures IsRun({7}, 0, steps', run') && run'[|steps'|].followers == run[|steps|].followers
    ensures var l, m := run[|steps|].leader, run'[|steps'|].leader; var n := l.nextIndex;
      && m.wal == l.wal[n := Commit(n, i, l.lastCommit)]
      && m.nextIndex == n + 1 && m.lastCommit == n && m.committing == None
  {
    var n := run[|steps|].leader.nextIndex;
    steps', run' := ExtendL(steps, run, LQueue(i));
    steps', run' := ExtendL(steps', run', LBegin(i));
    steps', run' := ExtendL(steps', run', LWrite(n));
    steps', run' := ExtendL(steps', run', LExecute);
  }
}
