/** Write-ahead logs of the Kayak two-phase replication: the three log kinds, what a well-formed
    WAL looks like, the commit chain it carries, and the recovery scan of a restarting node. */
module KayakLog {
  /** A log entry. A commit carries the index of its prepare log and of the previous commit log;
      0 stands for "no previous commit" (index 0 always belongs to a prepare log). */
  datatype Log =
    | Prepare(index: nat, data: string)
    | Rollback(index: nat, prepare: nat)
    | Commit(index: nat, prepare: nat, previous: nat)

  /** A WAL holds at most one log per index. */
  type Wal = map<nat, Log>

  predicate IsPrepare(w: Wal, i: nat) {
    i in w && w[i].Prepare?
  }

  predicate IsCommit(w: Wal, i: nat) {
    i in w && w[i].Commit?
  }

  /** Log i decides (commits or rolls back) prepare p. */
  predicate Resolves(w: Wal, i: nat, p: nat) {
    i in w && !w[i].Prepare? && w[i].prepare == p
  }

  ghost predicate Resolved(w: Wal, p: nat) {
    exists i :: Resolves(w, i, p)
  }

  ghost predicate SubWal(small: Wal, big: Wal) {
    forall i :: i in small ==> i in big && small[i] == big[i]
  }

  /** Greatest commit index below n, 0 if there is none. */
  function LastCommit(w: Wal, n: nat): (c: nat)
    ensures c == 0 || (c < n && IsCommit(w, c))
    ensures forall i: nat :: c < i < n ==> !IsCommit(w, i)
  {
    if n == 0 then 0
    else if IsCommit(w, n - 1) then n - 1
    else LastCommit(w, n - 1)
  }

  /** Commit indices below n, ascending. */
  function CommitsBelow(w: Wal, n: nat): (s: seq<nat>)
    ensures forall k :: 0 <= k < |s| ==> s[k] < n && IsCommit(w, s[k])
    ensures forall i: nat :: i < n && IsCommit(w, i) ==> i in s
    ensures forall j, k :: 0 <= j < k < |s| ==> s[j] < s[k]
  {
    if n == 0 then []
    else if IsCommit(w, n - 1) then CommitsBelow(w, n - 1) + [n - 1]
    else CommitsBelow(w, n - 1)
  }

  /** Every index of w is below n. */
  ghost predicate Bounded(w: Wal, n: nat) {
    forall i :: i in w ==> i < n
  }

  /** Logs sit under their own index and decisions follow the prepare they decide. */
  ghost predicate WellIndexed(w: Wal) {
    && (forall i :: i in w ==> w[i].index == i)
    && (forall i, p :: Resolves(w, i, p) ==> p < i && IsPrepare(w, p))
  }

  /** No prepare is decided by two logs. */
  ghost predicate DecidedOnce(w: Wal) {
    forall i, j, p :: Resolves(w, i, p) && Resolves(w, j, p) ==> i == j
  }

  /** The commit logs form one chain through their previous-commit index. */
  ghost predicate Chained(w: Wal) {
    forall i {:trigger w[i].previous} :: IsCommit(w, i) ==> w[i].previous == LastCommit(w, i)
  }

  ghost predicate WalInv(w: Wal) {
    WellIndexed(w) && DecidedOnce(w) && Chained(w)
  }

  /** The previous commit that every commit below n refers to can be looked up, the sentinel 0
      included. */
  ghost predicate Closed(w: Wal, n: nat) {
    forall i: nat :: i < n && IsCommit(w, i) ==> w[i].previous in w
  }

  /** Prepares below n that no log below n decides. */
  ghost function Unresolved(w: Wal, n: nat): set<nat> {
    set p | p in w && Undecided(w, n, p)
  }

  ghost predicate Undecided(w: Wal, n: nat, p: nat) {
    p < n && IsPrepare(w, p) && forall i: nat :: i < n ==> !Resolves(w, i, p)
  }

  function NextIndex(w: Wal, n: nat): (x: nat)
    ensures x <= n
    ensures forall i :: i in w && i < n ==> i < x
    ensures x == 0 || x - 1 in w
  {
    if n == 0 then 0 else if n - 1 in w then n else NextIndex(w, n - 1)
  }

  // ---------------------------------------------------------------- recovery scan

  datatype Recovery =
    | Recovered(pending: set<nat>, lastCommit: nat, nextIndex: nat)
    | Blocked     // waits for a log that is not in the WAL
    | Mismatch    // previous commit of a commit log is not the last commit seen
    | Repeated    // prepare already decided by an earlier log

  /** One iteration of the scan on log l, with r the state rebuilt so far. */
  function Scan(w: Wal, r: Recovery, l: Log): Recovery
    requires r.Recovered?
  {
    var next := if r.nextIndex < l.index + 1 then l.index + 1 else r.nextIndex;
    match l
    case Prepare(i, _) => Recovered(r.pending + {i}, r.lastCommit, next)
    case Commit(i, p, prev) =>
      if p !in w || prev !in w then Blocked
      else if prev != r.lastCommit then Mismatch
      else if w[p].index !in r.pending then Repeated
      else Recovered(r.pending - {w[p].index}, i, next)
    case Rollback(i, p) =>
      if p !in w then Blocked
      else if w[p].index !in r.pending then Repeated
      else Recovered(r.pending - {w[p].index}, r.lastCommit, next)
  }

  /** The scan over all indices below n in ascending order; it stops at the first failure. */
  function Replay(w: Wal, n: nat): Recovery {
    if n == 0 then Recovered({}, 0, 0)
    else
      var r := Replay(w, n - 1);
      if r.Recovered? && n - 1 in w then Scan(w, r, w[n - 1]) else r
  }

  /** The prepare decided by log i is undecided below i and decided from i + 1 on. */
  lemma UndecidedBefore(w: Wal, i: nat, p: nat)
    requires WellIndexed(w) && DecidedOnce(w) && Resolves(w, i, p)
    ensures p in Unresolved(w, i)
    ensures Unresolved(w, i + 1) == Unresolved(w, i) - {p}
  {
    forall j: nat | j < i ensures !Resolves(w, j, p) {
    }
    assert p in Unresolved(w, i);
    forall q | q in Unresolved(w, i) - {p} ensures q in Unresolved(w, i + 1) {
      assert !Resolves(w, i, q);
    }
    forall q | q in Unresolved(w, i + 1) ensures q in Unresolved(w, i) - {p} {
      assert Resolves(w, i, p);
    }
  }

  lemma UndecidedFresh(w: Wal, i: nat)
    requires WellIndexed(w) && IsPrepare(w, i)
    ensures Unresolved(w, i + 1) == Unresolved(w, i) + {i}
  {
    forall j: nat | j < i + 1 ensures !Resolves(w, j, i) {}
    assert !Resolves(w, i, i);
    forall q | q in Unresolved(w, i) ensures q in Unresolved(w, i + 1) {
      assert !Resolves(w, i, q);
    }
  }

  /** What a restarting node should hold after reading the logs below n. */
  ghost function Rebuilt(w: Wal, n: nat): Recovery {
    Recovered(Unresolved(w, n), LastCommit(w, n), NextIndex(w, n))
  }

  lemma RebuiltAtGap(w: Wal, i: nat)
    requires i !in w
    ensures Rebuilt(w, i + 1) == Rebuilt(w, i)
  {
    assert forall p: nat :: Undecided(w, i + 1, p) <==> Undecided(w, i, p);
    assert Unresolved(w, i + 1) == Unresolved(w, i);
  }

  lemma ScanPrepare(w: Wal, i: nat)
    requires WellIndexed(w) && IsPrepare(w, i)
    ensures Scan(w, Rebuilt(w, i), w[i]) == Rebuilt(w, i + 1)
  {
    UndecidedFresh(w, i);
  }

  lemma {:induction false} ScanDecision(w: Wal, i: nat)
    requires WellIndexed(w) && DecidedOnce(w) && i in w && !w[i].Prepare?
    requires w[i].Commit? ==> w[i].previous == LastCommit(w, i) && w[i].previous in w
    ensures Scan(w, Rebuilt(w, i), w[i]) == Rebuilt(w, i + 1)
  {
    var p := w[i].prepare;
    assert Resolves(w, i, p);
    UndecidedBefore(w, i, p);
    assert w[p].index == p;
  }

  /** The commit at i refers to the last commit before it, which can be looked up. */
  ghost predicate LinkOk(w: Wal, i: nat) {
    IsCommit(w, i) && w[i].previous == LastCommit(w, i) && w[i].previous in w
  }

  ghost predicate Linked(w: Wal, n: nat) {
    forall i: nat {:trigger LinkOk(w, i)} :: i < n && IsCommit(w, i) ==> LinkOk(w, i)
  }

  lemma ReplayStep(w: Wal, i: nat)
    requires WellIndexed(w) && DecidedOnce(w) && (IsCommit(w, i) ==> LinkOk(w, i))
    ensures if i in w then Scan(w, Rebuilt(w, i), w[i]) == Rebuilt(w, i + 1) else Rebuilt(w, i + 1) == Rebuilt(w, i)
  {
    if i !in w {
      RebuiltAtGap(w, i);
    } else if w[i].Prepare? {
      ScanPrepare(w, i);
    } else {
      ScanDecision(w, i);
    }
  }

  lemma {:induction false} ReplayNone(w: Wal)
    ensures Replay(w, 0) == Rebuilt(w, 0)
  {
    assert Unresolved(w, 0) == {};
  }

  lemma ReplayNext(w: Wal, n: nat)
    requires n > 0 && WellIndexed(w) && DecidedOnce(w) && (IsCommit(w, n - 1) ==> LinkOk(w, n - 1))
    requires Replay(w, n - 1) == Rebuilt(w, n - 1)
    ensures Replay(w, n) == Rebuilt(w, n)
  {
    ReplayStep(w, n - 1);
  }

  lemma LinkedBefore(w: Wal, n: nat)
    requires n > 0 && Linked(w, n)
    ensures Linked(w, n - 1) && (IsCommit(w, n - 1) ==> LinkOk(w, n - 1))
  {
    forall i: nat | i < n - 1 && IsCommit(w, i) ensures LinkOk(w, i) {}
    assert IsCommit(w, n - 1) ==> LinkOk(w, n - 1);
  }

  lemma {:induction false} ReplayLinked(w: Wal, n: nat)
    requires WellIndexed(w) && DecidedOnce(w) && Linked(w, n)
    ensures Replay(w, n) == Rebuilt(w, n)
  {
    if n == 0 {
      ReplayNone(w);
    } else {
      LinkedBefore(w, n);
      ReplayLinked(w, n - 1);
      ReplayNext(w, n);
    }
  }

  lemma ClosedLinked(w: Wal, n: nat)
    requires Chained(w) && Closed(w, n)
    ensures Linked(w, n)
  {
    forall i: nat | i < n && IsCommit(w, i) ensures LinkOk(w, i) {
      LinkAt(w, n, i);
    }
  }

  lemma LinkAt(w: Wal, n: nat, i: nat)
    requires Chained(w) && Closed(w, n) && i < n && IsCommit(w, i)
    ensures LinkOk(w, i)
  {}

  /** On a closed WAL the scan never fails and rebuilds exactly the undecided prepares, the last
      commit of the local chain and the next free index. */
  lemma {:induction false} ReplayRebuilds(w: Wal, n: nat)
    requires WalInv(w) && Closed(w, n)
    ensures Replay(w, n) == Rebuilt(w, n)
  {
    ClosedLinked(w, n);
    ReplayLinked(w, n);
  }

  /** A failed scan stays failed. */
  lemma {:induction false} ReplayStops(w: Wal, m: nat, n: nat)
    requires m <= n && !Replay(w, m).Recovered?
    ensures Replay(w, n) == Replay(w, m)
  {
    if m < n { ReplayStops(w, m, n - 1); }
  }

  /** The first commit below n, which has no previous one. */
  lemma FirstCommit(w: Wal, n: nat) returns (c: nat)
    requires Chained(w) && CommitsBelow(w, n) != []
    ensures c < n && IsCommit(w, c) && w[c].previous == 0 && forall i: nat :: i < c ==> !IsCommit(w, i)
  {
    c := CommitsBelow(w, n)[0];
    assert forall i: nat :: i < c ==> !IsCommit(w, i);
    assert w[c].previous == LastCommit(w, c);
  }

  /** By the chain the only log that can be missing is number 0. */
  lemma {:induction false} ClosedIff(w: Wal, n: nat)
    requires Chained(w)
    ensures Closed(w, n) <==> (0 in w || CommitsBelow(w, n) == [])
  {
    if CommitsBelow(w, n) != [] {
      var c := FirstCommit(w, n);
    }
    forall i: nat | i < n && IsCommit(w, i) && 0 in w ensures w[i].previous in w {
      assert w[i].previous == LastCommit(w, i);
    }
  }

  /** Recovery comes back exactly when the WAL is closed; otherwise it waits for a missing log. */
  lemma {:induction false} RecoversIffClosed(w: Wal, n: nat)
    requires WalInv(w)
    ensures Replay(w, n).Recovered? <==> Closed(w, n)
    ensures !Closed(w, n) ==> Replay(w, n) == Blocked
    ensures Closed(w, n) <==> (0 in w || CommitsBelow(w, n) == [])
  {
    ClosedIff(w, n);
    if Closed(w, n) {
      ReplayRebuilds(w, n);
    } else {
      var c := FirstCommit(w, n);
      ReplayRebuilds(w, c);
      assert Replay(w, c + 1) == Blocked;
      ReplayStops(w, c + 1, n);
    }
  }
}
