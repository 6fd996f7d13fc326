/** A Kayak follower as a transition system. Every mutex-protected stretch of the code is one
    step; logs may reach the follower in any order, any number of times, or never. */
module KayakFollower {
  import opened Common
  import opened KayakLog

  /** wal, executed and lost survive a crash; executed lists the commits handed to the storage
      handler, lost the commits whose log was written but whose handler call a crash prevented. */
  datatype Follower = Follower(
    wal: Wal,
    nextIndex: nat,
    lastCommit: nat,
    pending: set<nat>,        // prepares waiting for a decision
    marking: set<nat>,        // prepares written to the WAL, not yet marked pending
    checked: set<Log>,        // decisions past their checks: commit queue and rollbacks to write
    applying: Option<nat>,    // commit written to the WAL, handler not yet called
    finishing: set<nat>,      // decided prepares not yet removed from pending
    executed: seq<nat>,
    lost: set<nat>)

  function Fresh(): Follower {
    Follower(map[], 0, 0, {}, {}, {}, None, {}, [], {})
  }

  // ---------------------------------------------------------------- steps

  function Bump(next: nat, i: nat): nat {
    if next < i + 1 then i + 1 else next
  }

  /** Prepare log l reaches the WAL; a second delivery fails on the existing index. */
  function WritePrepare(f: Follower, l: Log): Follower
    requires l.Prepare?
  {
    if l.index in f.wal then f
    else f.(wal := f.wal[l.index := l], nextIndex := Bump(f.nextIndex, l.index),
            marking := f.marking + {l.index})
  }

  function MarkPending(f: Follower, i: nat): Follower
    requires i in f.marking
  {
    f.(marking := f.marking - {i}, pending := f.pending + {i})
  }

  /** A decision passes its checks: its prepare (and previous commit) are in the WAL, the prepare
      is pending, and a commit does not precede the last one. */
  predicate CanCheck(f: Follower, l: Log) {
    && !l.Prepare?
    && l.prepare in f.wal && l.prepare in f.pending
    && (l.Commit? ==> l.previous in f.wal && l.previous >= f.lastCommit)
  }

  function Check(f: Follower, l: Log): Follower
    requires CanCheck(f, l)
  {
    f.(checked := f.checked + {l})
  }

  function WriteRollback(f: Follower, l: Log): Follower
    requires l in f.checked && l.Rollback?
  {
    var g := f.(checked := f.checked - {l});
    if l.index in f.wal then g
    else g.(wal := f.wal[l.index := l], nextIndex := Bump(f.nextIndex, l.index),
            finishing := f.finishing + {l.prepare})
  }

  /** The commit cycle takes a queued commit whose previous commit is the last one. */
  predicate CanCommit(f: Follower, l: Log) {
    l in f.checked && l.Commit? && f.applying.None? && l.previous == f.lastCommit
  }

  function WriteCommit(f: Follower, l: Log): Follower
    requires CanCommit(f, l)
  {
    var g := f.(checked := f.checked - {l});
    if l.index in f.wal then g
    else g.(wal := f.wal[l.index := l], nextIndex := Bump(f.nextIndex, l.index),
            applying := Some(l.index))
  }

  function Execute(f: Follower): Follower
    requires f.applying.Some? && IsCommit(f.wal, f.applying.value)
  {
    var c := f.applying.value;
    f.(executed := f.executed + [c], lastCommit := c, applying := None,
       finishing := f.finishing + {f.wal[c].prepare})
  }

  function Finish(f: Follower, p: nat): Follower
    requires p in f.finishing
  {
    f.(pending := f.pending - {p}, finishing := f.finishing - {p})
  }

  /** Crash, then recovery from the WAL; enabled when the recovery scan comes back. */
  function Restart(f: Follower): Follower
    requires Replay(f.wal, f.nextIndex).Recovered?
  {
    var r := Replay(f.wal, f.nextIndex);
    Follower(f.wal, r.nextIndex, r.lastCommit, r.pending, {}, {}, None, {}, f.executed,
             f.lost + Current(f.applying))
  }

  function Current(applying: Option<nat>): set<nat> {
    if applying.Some? then {applying.value} else {}
  }

  // ---------------------------------------------------------------- invariant

  /** Commits below n outside skip, ascending. */
  function CommitsExcept(w: Wal, n: nat, skip: set<nat>): (s: seq<nat>) {
    if n == 0 then []
    else
      var rest := CommitsExcept(w, n - 1, skip);
      if IsCommit(w, n - 1) && n - 1 !in skip then rest + [n - 1] else rest
  }

  /** big is the leader's WAL: the follower holds a part of it, closed under prepares, previous
      commits and earlier commits. */
  ghost predicate Part(w: Wal, big: Wal) {
    && SubWal(w, big)
    && (forall i, p :: Resolves(w, i, p) ==> IsPrepare(w, p))
    && (forall i {:trigger w[i].previous} :: IsCommit(w, i) ==> w[i].previous in w)
    && (forall i, j :: IsCommit(w, i) && IsCommit(big, j) && j < i ==> j in w)
  }

  ghost predicate CheckedOk(f: Follower, big: Wal) {
    forall l :: l in f.checked ==>
      && !l.Prepare? && l.index in big && big[l.index] == l
      && l.prepare in f.wal && l.prepare !in f.marking
      && (l.Commit? ==> l.previous in f.wal)
  }

  ghost predicate ChainOk(f: Follower) {
    && Bounded(f.wal, f.nextIndex)
    && (match f.applying
        case None => f.lastCommit == LastCommit(f.wal, f.nextIndex)
        case Some(c) =>
          IsCommit(f.wal, c) && f.lastCommit == f.wal[c].previous
          && c == LastCommit(f.wal, f.nextIndex))
  }

  ghost predicate ExecutedOk(f: Follower) {
    && f.executed == CommitsExcept(f.wal, f.nextIndex, f.lost + Current(f.applying))
    && (forall i :: i in f.lost ==> IsCommit(f.wal, i))
    && f.lost !! Current(f.applying)
  }

  /** Prepare p is decided and its decision is still on the way out of the pending map. */
  predicate Leaving(f: Follower, p: nat) {
    p in f.finishing ||
    (f.applying.Some? && Resolves(f.wal, f.applying.value, p))
  }

  ghost predicate PendingOk(f: Follower) {
    && (forall p :: p in f.marking ==> IsPrepare(f.wal, p) && !Resolved(f.wal, p) && p !in f.pending)
    && (forall p :: p in f.pending ==> IsPrepare(f.wal, p))
    && (forall p :: p in f.pending && Resolved(f.wal, p) ==> Leaving(f, p))
    && (forall p :: p in f.finishing ==> Resolved(f.wal, p))
    && (forall p :: IsPrepare(f.wal, p) && !Resolved(f.wal, p) ==> p in f.marking || p in f.pending)
  }

  ghost predicate FollowerInv(f: Follower, big: Wal) {
    Part(f.wal, big) && CheckedOk(f, big) && ChainOk(f) && ExecutedOk(f) && PendingOk(f)
  }

  // ---------------------------------------------------------------- facts about growing WALs

  lemma {:induction false} LastCommitSame(w: Wal, v: Wal, n: nat)
    requires forall i: nat :: i < n ==> (IsCommit(w, i) <==> IsCommit(v, i))
    ensures LastCommit(w, n) == LastCommit(v, n)
  {
    if n > 0 { LastCommitSame(w, v, n - 1); }
  }

  lemma {:induction false} ExceptSame(w: Wal, v: Wal, n: nat, s: set<nat>, t: set<nat>)
    requires forall i: nat :: i < n ==> (IsCommit(w, i) && i !in s <==> IsCommit(v, i) && i !in t)
    ensures CommitsExcept(w, n, s) == CommitsExcept(v, n, t)
  {
    if n > 0 { ExceptSame(w, v, n - 1, s, t); }
  }

  lemma {:induction false} ExceptBeyond(w: Wal, n: nat, m: nat, s: set<nat>)
    requires n <= m
    requires forall i: nat :: n <= i < m ==> !(IsCommit(w, i) && i !in s)
    ensures CommitsExcept(w, m, s) == CommitsExcept(w, n, s)
  {
    if n < m { ExceptBeyond(w, n, m - 1, s); }
  }

  lemma {:induction false} LastBeyond(w: Wal, n: nat, m: nat)
    requires n <= m
    requires forall i: nat :: n <= i < m ==> !IsCommit(w, i)
    ensures LastCommit(w, m) == LastCommit(w, n)
  {
    if n < m { LastBeyond(w, n, m - 1); }
  }

  /** A part of a good WAL is a good, closed WAL. */
  lemma PartIsGood(w: Wal, big: Wal)
    requires Part(w, big) && WalInv(big)
    ensures WalInv(w)
    ensures forall n: nat :: Closed(w, n)
  {
    forall i, j, p | Resolves(w, i, p) && Resolves(w, j, p) ensures i == j {
      assert Resolves(big, i, p) && Resolves(big, j, p);
    }
    forall i, p | Resolves(w, i, p) ensures p < i {
      assert Resolves(big, i, p);
    }
    forall i | IsCommit(w, i) ensures w[i].previous == LastCommit(w, i) {
      assert big[i].previous == LastCommit(big, i);
      LastCommitSame(w, big, i);
    }
  }

  // ---------------------------------------------------------------- every step keeps the invariant

  /** Adding a log that is no commit leaves the chain and the executed commits alone. */
  lemma NonCommitKeeps(f: Follower, g: Follower)
    requires ChainOk(f) && ExecutedOk(f)
    requires g.lastCommit == f.lastCommit && g.applying == f.applying
    requires g.executed == f.executed && g.lost == f.lost && f.nextIndex <= g.nextIndex
    requires SubWal(f.wal, g.wal) && Bounded(g.wal, g.nextIndex)
    requires forall i: nat :: IsCommit(g.wal, i) <==> IsCommit(f.wal, i)
    ensures ChainOk(g) && ExecutedOk(g)
  {
    LastCommitSame(f.wal, g.wal, g.nextIndex);
    LastBeyond(f.wal, f.nextIndex, g.nextIndex);
    var s := f.lost + Current(f.applying);
    ExceptSame(f.wal, g.wal, g.nextIndex, s, s);
    ExceptBeyond(f.wal, f.nextIndex, g.nextIndex, s);
  }

  lemma WritePrepareKeeps(f: Follower, l: Log, big: Wal)
    requires FollowerInv(f, big) && WalInv(big) && l.Prepare? && l.index in big && big[l.index] == l
    ensures FollowerInv(WritePrepare(f, l), big)
  {
    if l.index !in f.wal {
      WritePreparePart(f, l, big);
      NonCommitKeeps(f, WritePrepare(f, l));
      WritePreparePending(f, l, big);
    }
  }

  lemma WritePreparePart(f: Follower, l: Log, big: Wal)
    requires Part(f.wal, big) && l.Prepare? && l.index in big && big[l.index] == l && l.index !in f.wal
    ensures Part(WritePrepare(f, l).wal, big)
  {
    var w := WritePrepare(f, l).wal;
    forall i, p | Resolves(w, i, p) ensures IsPrepare(w, p) {
      assert Resolves(f.wal, i, p);
    }
    forall i | IsCommit(w, i) ensures w[i].previous in w {
      assert IsCommit(f.wal, i) && f.wal[i].previous in f.wal;
    }
    forall i, j | IsCommit(w, i) && IsCommit(big, j) && j < i ensures j in w {
      assert IsCommit(f.wal, i);
    }
  }

  lemma WritePreparePending(f: Follower, l: Log, big: Wal)
    requires Part(f.wal, big) && PendingOk(f)
    requires l.Prepare? && l.index in big && big[l.index] == l && l.index !in f.wal
    ensures PendingOk(WritePrepare(f, l))
  {
    var g := WritePrepare(f, l);
    assert forall i, p :: Resolves(g.wal, i, p) <==> Resolves(f.wal, i, p);
    assert forall p :: Resolved(g.wal, p) <==> Resolved(f.wal, p);
    assert !Resolved(f.wal, l.index);
  }

  lemma MarkPendingKeeps(f: Follower, i: nat, big: Wal)
    requires FollowerInv(f, big) && i in f.marking
    ensures FollowerInv(MarkPending(f, i), big)
  {}

  lemma CheckKeeps(f: Follower, l: Log, big: Wal)
    requires FollowerInv(f, big) && CanCheck(f, l) && l.index in big && big[l.index] == l
    ensures FollowerInv(Check(f, l), big)
  {}

  lemma WriteRollbackKeeps(f: Follower, l: Log, big: Wal)
    requires FollowerInv(f, big) && WellIndexed(big) && l in f.checked && l.Rollback?
    ensures FollowerInv(WriteRollback(f, l), big)
  {
    if l.index !in f.wal {
      DecidesPrepare(f, l, big);
      NewRollbackKeeps(f, l, big);
    }
  }

  lemma DecidesPrepare(f: Follower, l: Log, big: Wal)
    requires CheckedOk(f, big) && WellIndexed(big) && l in f.checked
    ensures IsPrepare(big, l.prepare)
  {
    assert Resolves(big, l.index, l.prepare);
  }

  lemma NewRollbackKeeps(f: Follower, l: Log, big: Wal)
    requires FollowerInv(f, big) && l in f.checked && l.Rollback? && l.index !in f.wal && IsPrepare(big, l.prepare)
    ensures FollowerInv(WriteRollback(f, l), big)
  {
    DecisionPart(f, l, big);
    NewRollbackChain(f, l);
    DecisionPending(f, WriteRollback(f, l), l, big);
  }

  lemma NewRollbackChain(f: Follower, l: Log)
    requires ChainOk(f) && ExecutedOk(f) && l in f.checked && l.Rollback? && l.index !in f.wal
    ensures ChainOk(WriteRollback(f, l)) && ExecutedOk(WriteRollback(f, l))
  {
    NonCommitKeeps(f, WriteRollback(f, l));
  }

  /** A checked decision may join the WAL: everything it refers to is there. */
  lemma DecisionPart(f: Follower, l: Log, big: Wal)
    requires Part(f.wal, big) && CheckedOk(f, big) && l in f.checked && l.index !in f.wal
    requires IsPrepare(big, l.prepare)
    requires l.Commit? ==> forall j: nat :: IsCommit(big, j) && j < l.index ==> j in f.wal
    ensures Part(f.wal[l.index := l], big)
  {
    var w := f.wal[l.index := l];
    forall i, p | Resolves(w, i, p) ensures IsPrepare(w, p) {
      assert Resolves(f.wal, i, p) || p == l.prepare;
    }
    forall i | IsCommit(w, i) ensures w[i].previous in w {
      assert i == l.index || f.wal[i].previous in f.wal;
    }
    forall i, j | IsCommit(w, i) && IsCommit(big, j) && j < i ensures j in w {
      assert i == l.index || IsCommit(f.wal, i);
    }
  }

  lemma DecisionPending(f: Follower, g: Follower, l: Log, big: Wal)
    requires Part(f.wal, big) && CheckedOk(f, big) && PendingOk(f) && l in f.checked && l.index !in f.wal
    requires IsPrepare(big, l.prepare)
    requires g.wal == f.wal[l.index := l] && g.pending == f.pending && g.marking == f.marking
    requires f.finishing <= g.finishing <= f.finishing + {l.prepare}
    requires f.applying.None? || g.applying == f.applying
    requires Leaving(g, l.prepare)
    ensures PendingOk(g)
  {
    assert forall i, p :: Resolves(g.wal, i, p) <==> Resolves(f.wal, i, p) || (i == l.index && p == l.prepare);
    assert Resolves(g.wal, l.index, l.prepare);
    forall p ensures Resolved(g.wal, p) <==> Resolved(f.wal, p) || p == l.prepare {
      if Resolved(f.wal, p) {
        var i :| Resolves(f.wal, i, p);
        assert Resolves(g.wal, i, p);
      }
    }
  }

  /** In a good WAL a commit is preceded by exactly the commits up to its previous one. */
  lemma PreviousIsLast(big: Wal, i: nat, j: nat)
    requires WalInv(big) && IsCommit(big, i) && IsCommit(big, j) && j < i
    ensures 0 < j <= big[i].previous < i && IsCommit(big, big[i].previous)
  {
    assert big[i].previous == LastCommit(big, i);
    assert Resolves(big, j, big[j].prepare);
  }

  lemma PreviousIsEarlier(big: Wal, i: nat)
    requires WalInv(big) && IsCommit(big, i)
    ensures big[i].previous < i
  {
    assert big[i].previous == LastCommit(big, i);
    assert Resolves(big, i, big[i].prepare);
  }

  lemma UpToLast(f: Follower)
    requires Bounded(f.wal, f.nextIndex) && f.lastCommit == LastCommit(f.wal, f.nextIndex)
    ensures forall j: nat :: IsCommit(f.wal, j) ==> j <= f.lastCommit
  {
    forall j: nat | IsCommit(f.wal, j) ensures j <= f.lastCommit {
      assert j < f.nextIndex;
    }
  }

  /** A commit that the commit cycle accepts is the next one of the leader's chain, and it is not
      in the WAL yet. */
  lemma NextOfChain(f: Follower, l: Log, big: Wal)
    requires Part(f.wal, big) && CheckedOk(f, big) && ChainOk(f) && WalInv(big) && CanCommit(f, l)
    ensures l.index !in f.wal && f.lastCommit < l.index
    ensures forall j: nat :: IsCommit(big, j) && j < l.index ==> j in f.wal
    ensures forall j: nat :: IsCommit(f.wal, j) ==> j <= f.lastCommit
  {
    PreviousIsEarlier(big, l.index);
    UpToLast(f);
    assert l.index in f.wal ==> IsCommit(f.wal, l.index);
    EarlierHeld(f.wal, big, l.index);
  }

  lemma EarlierHeld(w: Wal, big: Wal, i: nat)
    requires Part(w, big) && WalInv(big) && IsCommit(big, i) && big[i].previous in w
    ensures forall j: nat :: IsCommit(big, j) && j < i ==> j in w
  {
    var c := big[i].previous;
    forall j: nat | IsCommit(big, j) && j < i ensures j in w {
      PreviousIsLast(big, i, j);
      assert IsCommit(w, c);
    }
  }

  lemma WriteCommitKeeps(f: Follower, l: Log, big: Wal)
    requires FollowerInv(f, big) && WalInv(big) && CanCommit(f, l)
    ensures FollowerInv(WriteCommit(f, l), big)
  {
    var g := WriteCommit(f, l);
    NextOfChain(f, l, big);
    assert Resolves(big, l.index, l.prepare);
    DecisionPart(f, l, big);
    WriteCommitChain(f, l, big);
    assert Resolves(g.wal, l.index, l.prepare);
    DecisionPending(f, g, l, big);
  }

  lemma WriteCommitChain(f: Follower, l: Log, big: Wal)
    requires Part(f.wal, big) && CheckedOk(f, big) && ChainOk(f) && ExecutedOk(f)
    requires WalInv(big) && CanCommit(f, l)
    ensures ChainOk(WriteCommit(f, l)) && ExecutedOk(WriteCommit(f, l))
  {
    NextOfChain(f, l, big);
    AppendCommit(f, l);
  }

  lemma AppendCommit(f: Follower, l: Log)
    requires ChainOk(f) && ExecutedOk(f) && CanCommit(f, l) && l.index !in f.wal
    requires f.lastCommit < l.index && forall j: nat :: IsCommit(f.wal, j) ==> j <= f.lastCommit
    ensures ChainOk(WriteCommit(f, l)) && ExecutedOk(WriteCommit(f, l))
  {
    var g := WriteCommit(f, l);
    assert forall i: nat :: IsCommit(g.wal, i) <==> IsCommit(f.wal, i) || i == l.index;
    LastIs(g.wal, g.nextIndex, l.index);
    ExceptSame(f.wal, g.wal, g.nextIndex, f.lost, f.lost + {l.index});
    ExceptBeyond(f.wal, f.nextIndex, g.nextIndex, f.lost);
    assert f.lost + Current(f.applying) == f.lost;
  }

  lemma {:induction false} LastIs(w: Wal, n: nat, c: nat)
    requires IsCommit(w, c) && c < n && forall i: nat :: IsCommit(w, i) ==> i <= c
    ensures LastCommit(w, n) == c
  {}

  lemma ExecuteKeeps(f: Follower, big: Wal)
    requires FollowerInv(f, big) && f.applying.Some?
    ensures FollowerInv(Execute(f), big)
  {
    assert Resolves(f.wal, f.applying.value, f.wal[f.applying.value].prepare);
    ExecuteAppends(f);
  }

  /** Dropping the last commit c from the skipped ones appends it. */
  lemma {:induction false} UnskipLast(w: Wal, n: nat, c: nat, skip: set<nat>)
    requires IsCommit(w, c) && c < n && c !in skip && forall i: nat :: c < i < n ==> !IsCommit(w, i)
    ensures CommitsExcept(w, n, skip) == CommitsExcept(w, n, skip + {c}) + [c]
  {
    ExceptBeyond(w, c + 1, n, skip);
    ExceptBeyond(w, c + 1, n, skip + {c});
    ExceptSame(w, w, c, skip, skip + {c});
  }

  lemma ExecuteAppends(f: Follower)
    requires ChainOk(f) && ExecutedOk(f) && f.applying.Some?
    ensures ExecutedOk(Execute(f))
  {
    UnskipLast(f.wal, f.nextIndex, f.applying.value, f.lost);
    var g := Execute(f);
    assert g.lost + Current(g.applying) == f.lost;
  }

  lemma FinishKeeps(f: Follower, p: nat, big: Wal)
    requires FollowerInv(f, big) && p in f.finishing
    ensures FollowerInv(Finish(f, p), big)
  {}

  lemma RestartWorks(f: Follower, big: Wal)
    requires FollowerInv(f, big) && WalInv(big)
    ensures Replay(f.wal, f.nextIndex) == Rebuilt(f.wal, f.nextIndex)
    ensures FollowerInv(Restart(f), big)
  {
    PartIsGood(f.wal, big);
    ReplayRebuilds(f.wal, f.nextIndex);
    var g := Restart(f);
    LastBeyond(f.wal, g.nextIndex, f.nextIndex);
    ExceptBeyond(f.wal, g.nextIndex, f.nextIndex, g.lost);
    assert g.lost + Current(g.applying) == g.lost;
    RestartPending(f, big);
  }

  lemma RestartPending(f: Follower, big: Wal)
    requires ChainOk(f) && Replay(f.wal, f.nextIndex) == Rebuilt(f.wal, f.nextIndex)
    ensures PendingOk(Restart(f))
  {
    forall p | IsPrepare(f.wal, p) ensures p in Unresolved(f.wal, f.nextIndex) <==> !Resolved(f.wal, p) {
      assert Undecided(f.wal, f.nextIndex, p) <==> !Resolved(f.wal, p);
    }
  }

  /** The leader's WAL may grow: new commits come after all old ones. */
  ghost predicate Grows(w: Wal, v: Wal) {
    && SubWal(w, v)
    && (forall i, j :: IsCommit(w, i) && IsCommit(v, j) && j !in w ==> i < j)
  }

  lemma LeaderGrowsKeeps(f: Follower, big: Wal, bigger: Wal)
    requires FollowerInv(f, big) && Grows(big, bigger)
    ensures FollowerInv(f, bigger)
  {
    forall i, j | IsCommit(f.wal, i) && IsCommit(bigger, j) && j < i ensures j in f.wal {
      assert IsCommit(big, i);
      assert j in big ==> IsCommit(big, j);
    }
  }
}
