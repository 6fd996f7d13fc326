/** One writer and its replicas, over whole runs; and the sequence number restored from blocks. */
module XenomintRuns {
  import opened Xenomint

  // ---------------------------------------------------------------- writes of blocks

  function Writes(qs: seq<Tracker>): seq<Tracker> {
    if qs == [] then []
    else Writes(qs[..|qs| - 1]) + if qs[|qs| - 1].req.kind.Write? then [qs[|qs| - 1]] else []
  }

  function AllWrites(bs: seq<Block>): seq<Tracker> {
    if bs == [] then [] else AllWrites(bs[..|bs| - 1]) + Writes(bs[|bs| - 1].queries)
  }

  lemma {:induction false} WritesConcat(s: seq<Tracker>, t: seq<Tracker>)
    ensures Writes(s + t) == Writes(s) + Writes(t)
  {
    if t == [] {
      assert s + t == s;
    } else {
      assert (s + t)[..|s + t| - 1] == s + t[..|t| - 1];
      WritesConcat(s, t[..|t| - 1]);
    }
  }

  lemma {:induction false} WritesOnly(s: seq<Tracker>, k: Kind)
    requires forall i :: 0 <= i < |s| ==> s[i].req.kind == k
    ensures Writes(s) == if k.Write? then s else []
  {
    if s != [] {
      WritesOnly(s[..|s| - 1], k);
      assert s == s[..|s| - 1] + [s[|s| - 1]];
    }
  }

  lemma {:induction false} WritesFrom(qs: seq<Tracker>, i: nat)
    requires i < |qs| && qs[i].req.kind.Write?
    ensures exists k :: 0 <= k < |Writes(qs)| && Writes(qs)[k] == qs[i]
  {
    var n := |qs| - 1;
    if i < n {
      WritesFrom(qs[..n], i);
      var k :| 0 <= k < |Writes(qs[..n])| && Writes(qs[..n])[k] == qs[i];
      assert Writes(qs)[k] == qs[i];
    } else {
      assert Writes(qs)[|Writes(qs)| - 1] == qs[i];
    }
  }

  lemma {:induction false} WritesPair(qs: seq<Tracker>, i: nat, j: nat) returns (k: nat, m: nat)
    requires i < j < |qs| && qs[i].req.kind.Write? && qs[j].req.kind.Write?
    ensures k < m < |Writes(qs)| && Writes(qs)[k] == qs[i] && Writes(qs)[m] == qs[j]
  {
    var n := |qs| - 1;
    if j < n {
      k, m := WritesPair(qs[..n], i, j);
    } else {
      WritesFrom(qs[..n], i);
      k :| 0 <= k < |Writes(qs[..n])| && Writes(qs[..n])[k] == qs[i];
      m := |Writes(qs)| - 1;
    }
  }

  lemma {:induction false} BlockWrites(bs: seq<Block>, b: nat) returns (before: seq<Tracker>, after: seq<Tracker>)
    requires b < |bs|
    ensures AllWrites(bs) == before + Writes(bs[b].queries) + after
  {
    var n := |bs| - 1;
    if b == n {
      before, after := AllWrites(bs[..n]), [];
    } else {
      var x, y := BlockWrites(bs[..n], b);
      before, after := x, y + Writes(bs[n].queries);
    }
  }

  // ---------------------------------------------------------------- requests in the writer's log

  /** How many statements the requests hold. */
  function Total(all: seq<Tracker>): nat {
    if all == [] then 0 else Total(all[..|all| - 1]) + |all[|all| - 1].req.queries|
  }

  /** The statements of the requests. */
  function Flat(all: seq<Tracker>): seq<Statement> {
    if all == [] then [] else Flat(all[..|all| - 1]) + all[|all| - 1].req.queries
  }

  /** The sequence number after the last request. */
  function Reach(all: seq<Tracker>): nat {
    if all == [] then 0 else all[|all| - 1].End()
  }

  /** The requests make up the log in order, none of them empty. Their offsets ascend, but may run ahead
      of their places in the log. */
  ghost predicate Spread(all: seq<Tracker>, full: seq<Statement>) {
    if all == [] then full == []
    else
      var init, last := all[..|all| - 1], all[|all| - 1];
      var n := |full| - |last.req.queries|;
      && last.req.kind.Write? && last.req.queries != [] && 0 <= n && full[n..] == last.req.queries
      && Reach(init) <= last.offset && Spread(init, full[..n])
  }

  /** How many requests from the first on have offsets that are their places in the log. */
  function Steady(all: seq<Tracker>): (n: nat)
    ensures n <= |all|
  {
    if all == [] then 0
    else
      var init := all[..|all| - 1];
      if Steady(init) == |init| && all[|all| - 1].offset == Total(init) then |all| else Steady(init)
  }

  lemma {:induction false} SpreadTotal(all: seq<Tracker>, full: seq<Statement>)
    requires Spread(all, full)
    ensures Total(all) == |full| <= Reach(all)
  {
    if all != [] {
      var k := |all| - 1;
      SpreadTotal(all[..k], full[..|full| - |all[k].req.queries|]);
    }
  }

  lemma {:induction false} SpreadPrefix(all: seq<Tracker>, full: seq<Statement>, n: nat)
    requires Spread(all, full) && n <= |all|
    ensures Total(all[..n]) <= |full| && Spread(all[..n], full[..Total(all[..n])])
    decreases |all|
  {
    SpreadTotal(all, full);
    if n < |all| {
      var k := |all| - 1;
      var init := full[..|full| - |all[k].req.queries|];
      SpreadPrefix(all[..k], init, n);
      assert all[..k][..n] == all[..n];
      assert init[..Total(all[..n])] == full[..Total(all[..n])];
    } else {
      assert all[..n] == all && full[..|full|] == full;
    }
  }

  lemma {:induction false} SpreadAt(all: seq<Tracker>, full: seq<Statement>, i: nat)
    requires Spread(all, full) && i < |all|
    ensures all[i].req.kind.Write? && all[i].req.queries != [] && Reach(all[..i]) <= all[i].offset
    ensures Total(all[..i]) <= all[i].offset && Total(all[..i + 1]) == Total(all[..i]) + |all[i].req.queries|
  {
    SpreadPrefix(all, full, i + 1);
    assert all[..i + 1][..i] == all[..i];
    SpreadPrefix(all, full, i);
    SpreadTotal(all[..i], full[..Total(all[..i])]);
  }

  lemma {:induction false} SpreadOrdered(all: seq<Tracker>, full: seq<Statement>, i: nat, j: nat)
    requires Spread(all, full) && i < j < |all|
    ensures all[i].End() <= all[j].offset
    decreases j
  {
    SpreadAt(all, full, j);
    if i < j - 1 {
      SpreadOrdered(all, full, i, j - 1);
    }
    assert Reach(all[..j]) == all[j - 1].End();
  }

  lemma {:induction false} TotalMono(all: seq<Tracker>, i: nat, j: nat)
    requires i <= j <= |all|
    ensures Total(all[..i]) <= Total(all[..j])
    decreases j - i
  {
    if i < j {
      TotalMono(all, i, j - 1);
      assert all[..j][..j - 1] == all[..j - 1];
    }
  }

  lemma {:induction false} SteadyPrefix(all: seq<Tracker>, n: nat)
    requires n <= |all|
    ensures Steady(all[..n]) == if n <= Steady(all) then n else Steady(all)
    decreases |all|
  {
    if n < |all| {
      SteadyPrefix(all[..|all| - 1], n);
      assert all[..|all| - 1][..n] == all[..n];
    } else {
      assert all[..n] == all;
    }
  }

  /** A request has its place as its offset exactly if it is one of the steady ones; otherwise its offset
      is ahead. */
  lemma {:induction false} SteadyAt(all: seq<Tracker>, full: seq<Statement>, i: nat)
    requires Spread(all, full) && i < |all|
    ensures i < Steady(all) ==> all[i].offset == Total(all[..i])
    ensures i >= Steady(all) ==> all[i].offset > Total(all[..i])
    decreases i
  {
    SpreadAt(all, full, i);
    SteadyPrefix(all, i + 1);
    SteadyPrefix(all, i);
    assert all[..i + 1][..i] == all[..i];
    if Steady(all) < i {
      SteadyAt(all, full, i - 1);
      SpreadAt(all, full, i - 1);
      SpreadOrdered(all, full, i - 1, i);
    }
  }

  /** The steady requests tile the log they made. */
  lemma {:induction false} SteadyTile(all: seq<Tracker>, full: seq<Statement>, n: nat)
    requires Spread(all, full) && n <= Steady(all)
    ensures Total(all[..n]) <= |full| && Tile(all[..n], full[..Total(all[..n])])
  {
    SpreadPrefix(all, full, n);
    if n > 0 {
      var q, base := all[n - 1], full[..Total(all[..n])];
      SteadyTile(all, full, n - 1);
      SteadyAt(all, full, n - 1);
      SpreadAt(all, full, n - 1);
      assert all[..n][..n - 1] == all[..n - 1];
      assert base[..q.offset] == full[..Total(all[..n - 1])];
    }
  }

  // ---------------------------------------------------------------- runs

  /** The writer's level, log, sequence number and successful requests, those not yet packed, the blocks, and the
      replicas' logs. */
  datatype Cluster = Cluster(
    level: Level, log: seq<Statement>, seqno: nat, all: seq<Tracker>, pooled: seq<Tracker>, blocks: seq<Block>,
    replicas: seq<seq<Statement>>)

  datatype Step =
    | Submit(req: Request)
    | Pack(queried: seq<Tracker>, failed: seq<Request>)
    | Replay(replica: nat, block: nat)

  ghost predicate Enabled(c: Cluster, s: Step) {
    match s
    case Submit(req) => req.kind.Write? && req.queries != []
    case Pack(queried, _) => forall i :: 0 <= i < |queried| ==> queried[i].req.kind.Read?
    case Replay(r, b) => r < |c.replicas| && b < |c.blocks|
  }

  ghost function Next(run: Engine, c: Cluster, s: Step): Cluster
    requires Enabled(c, s)
  {
    match s
    case Submit(req) =>
      var k := Succeeds(run, c.log, req.queries);
      var q := Tracker(req, c.seqno);
      if k < |req.queries| then
        c.(log := c.log + (if c.level.ReadUncommitted? then [] else req.queries[..k]), seqno := c.seqno + k)
      else c.(log := c.log + req.queries, seqno := c.seqno + k, all := c.all + [q], pooled := c.pooled + [q])
    case Pack(queried, failed) => c.(blocks := c.blocks + [Block(c.pooled + queried, failed)], pooled := [])
    case Replay(r, b) => c.(replicas := c.replicas[r := ReplayAll(run, c.replicas[r], c.blocks[b].queries).log])
  }

  /** A request that fails after some of its statements have succeeded. */
  predicate HalfFails(run: Engine, c: Cluster, s: Step) {
    s.Submit? && 0 < Succeeds(run, c.log, s.req.queries) < |s.req.queries|
  }

  /** The requests before the first one whose offset is ahead, and the log they made. */
  function Good(c: Cluster): seq<Tracker> {
    c.all[..Steady(c.all)]
  }

  /** The statements of the successful requests. */
  function Sent(c: Cluster): seq<Statement> {
    Flat(c.all)
  }

  /** The good requests are where the writer's log starts. */
  ghost predicate OnLog(c: Cluster) {
    && Spread(c.all, Sent(c))
    && var t := Total(Good(c)); t <= |c.log| && t <= |Sent(c)| && c.log[..t] == Sent(c)[..t]
  }

  ghost function Base(c: Cluster): seq<Statement>
    requires OnLog(c)
  {
    c.log[..Total(Good(c))]
  }

  /** What the writer had at the end of one of its good requests. */
  ghost predicate IsPrefix(c: Cluster, log: seq<Statement>) {
    OnLog(c) && Behind(Good(c), Base(c), log)
  }

  /** With a savepoint the log is what was sent, without it the sequence number counts the log. */
  ghost predicate Kept(c: Cluster) {
    if c.level.ReadUncommitted? then c.log == Sent(c) else c.seqno == |c.log|
  }

  ghost predicate Inv(run: Engine, c: Cluster) {
    && OnLog(c) && Kept(c) && Sound(run, c.log) && Reach(c.all) <= c.seqno && |c.log| <= c.seqno
    && AllWrites(c.blocks) + c.pooled == c.all
    && (forall i :: 0 <= i < |c.pooled| ==> c.pooled[i].req.kind.Write?)
    && (forall r :: 0 <= r < |c.replicas| ==> IsPrefix(c, c.replicas[r]))
  }

  lemma {:induction false} SoundPrefix(run: Engine, log: seq<Statement>, n: nat)
    requires Sound(run, log) && n <= |log|
    ensures Sound(run, log[..n])
  {
    forall i | 0 <= i < n ensures SoundAt(run, log[..n], i) {
      assert SoundAt(run, log, i) && log[..n][..i] == log[..i];
    }
  }

  lemma GoodTiles(run: Engine, c: Cluster)
    requires Inv(run, c)
    ensures Tile(Good(c), Base(c)) && Sound(run, Base(c)) && |Base(c)| == Total(Good(c))
  {
    SteadyTile(c.all, Sent(c), Steady(c.all));
    SoundPrefix(run, c.log, Total(Good(c)));
  }

  /** Every write of the writer is good, or starts beyond what the good ones made. */
  lemma {:induction false} WriteIsOne(run: Engine, c: Cluster, i: nat)
    requires Inv(run, c) && i < |c.all|
    ensures OneOf(c.all[i], Good(c), Base(c))
  {
    SpreadAt(c.all, Sent(c), i);
    SteadyAt(c.all, Sent(c), i);
    GoodTiles(run, c);
    if i < Steady(c.all) {
      assert Good(c)[i] == c.all[i];
    } else {
      TotalMono(c.all, Steady(c.all), i);
    }
  }

  lemma {:induction false} BlockFrom(
    run: Engine, c: Cluster, qs: seq<Tracker>, before: seq<Tracker>, after: seq<Tracker>)
    requires Inv(run, c) && before + Writes(qs) + after == c.all
    ensures From(qs, Good(c), Base(c))
  {
    forall i | 0 <= i < |qs| && qs[i].req.kind.Write? ensures OneOf(qs[i], Good(c), Base(c)) {
      WritesFrom(qs, i);
      var k :| 0 <= k < |Writes(qs)| && Writes(qs)[k] == qs[i];
      assert c.all[|before| + k] == qs[i];
      WriteIsOne(run, c, |before| + k);
    }
    forall i, j | 0 <= i < j < |qs| && qs[i].req.kind.Write? && qs[j].req.kind.Write?
      ensures qs[i].End() <= qs[j].offset
    {
      var k, m := WritesPair(qs, i, j);
      assert c.all[|before| + k] == qs[i] && c.all[|before| + m] == qs[j];
      SpreadOrdered(c.all, Sent(c), |before| + k, |before| + m);
    }
  }

  lemma BlockIsFrom(run: Engine, c: Cluster, b: nat)
    requires Inv(run, c) && b < |c.blocks|
    ensures From(c.blocks[b].queries, Good(c), Base(c))
  {
    var before, after := BlockWrites(c.blocks, b);
    assert before + Writes(c.blocks[b].queries) + (after + c.pooled) == c.all;
    BlockFrom(run, c, c.blocks[b].queries, before, after + c.pooled);
  }

  // ---------------------------------------------------------------- steps

  lemma {:induction false} SpreadAppend(all: seq<Tracker>, log: seq<Statement>, q: Tracker)
    requires Spread(all, log) && q.req.kind.Write? && q.req.queries != [] && Reach(all) <= q.offset
    ensures Spread(all + [q], log + q.req.queries) && Flat(all + [q]) == Flat(all) + q.req.queries
  {
    var more, full := all + [q], log + q.req.queries;
    assert more[..|more| - 1] == all && full[..|log|] == log && full[|log|..] == q.req.queries;
  }

  lemma {:induction false} SteadyAppend(all: seq<Tracker>, q: Tracker)
    ensures Steady(all + [q]) == if Steady(all) == |all| && q.offset == Total(all) then |all| + 1 else Steady(all)
    ensures (all + [q])[..|all|] == all && Total(all + [q]) == Total(all) + |q.req.queries|
  {
    assert (all + [q])[..|all|] == all;
  }

  lemma CutGrows(all: seq<Tracker>, more: seq<Tracker>, n: nat)
    requires all <= more && Cut(all, n)
    ensures Cut(more, n)
  {
    if n > 0 {
      var i :| 0 <= i < |all| && all[i].End() == n;
      assert more[i].End() == n;
    }
  }

  lemma {:induction false} GoodGrows(c: Cluster, d: Cluster, q: Tracker)
    requires OnLog(c) && OnLog(d) && (d.all == c.all || d.all == c.all + [q]) && c.log <= d.log
    ensures Good(c) <= Good(d) && Base(c) <= Base(d)
  {
    if d.all != c.all {
      SteadyAppend(c.all, q);
      var n := Steady(c.all);
      assert d.all[..n] == c.all[..n];
      TotalMono(d.all, n, Steady(d.all));
    }
  }

  lemma PrefixGrows(c: Cluster, d: Cluster, q: Tracker, log: seq<Statement>)
    requires IsPrefix(c, log) && OnLog(d) && (d.all == c.all || d.all == c.all + [q]) && c.log <= d.log
    ensures IsPrefix(d, log)
  {
    GoodGrows(c, d, q);
    CutGrows(Good(c), Good(d), |log|);
    assert Base(d)[..|log|] == Base(c)[..|log|];
  }

  /** If all requests are good and the sequence number is where they end, they are the log. */
  lemma {:induction false} AllSent(run: Engine, c: Cluster)
    requires Inv(run, c) && Steady(c.all) == |c.all| && c.seqno == Total(c.all)
    ensures c.log == Sent(c)
  {
    SpreadTotal(c.all, Sent(c));
    assert c.all[..|c.all|] == c.all;
    if !c.level.ReadUncommitted? { assert c.log[..|c.log|] == c.log && Sent(c)[..|Sent(c)|] == Sent(c); }
  }

  lemma {:induction false} AcceptedOnLog(run: Engine, c: Cluster, q: Tracker, d: Cluster)
    requires Inv(run, c) && q.req.kind.Write? && q.req.queries != [] && q.offset == c.seqno
    requires d.all == c.all + [q] && d.log == c.log + q.req.queries
    ensures OnLog(d) && Sent(d) == Sent(c) + q.req.queries
  {
    SpreadAppend(c.all, Sent(c), q);
    SteadyAppend(c.all, q);
    SpreadTotal(d.all, Sent(d));
    if Steady(d.all) == |d.all| {
      AllSent(run, c);
      assert d.all[..|d.all|] == d.all;
    } else {
      assert Good(d) == Good(c);
      var t := Total(Good(c));
      assert d.log[..t] == c.log[..t] && Sent(d)[..t] == Sent(c)[..t];
    }
  }

  lemma AcceptedKeeps(run: Engine, c: Cluster, req: Request)
    requires Inv(run, c) && Enabled(c, Submit(req)) && Succeeds(run, c.log, req.queries) == |req.queries|
    ensures Inv(run, Next(run, c, Submit(req)))
  {
    var d := Next(run, c, Submit(req));
    var q := Tracker(req, c.seqno);
    AcceptedOnLog(run, c, q, d);
    SoundGrows(run, c.log, req.queries);
    assert AllWrites(c.blocks) + (c.pooled + [q]) == (AllWrites(c.blocks) + c.pooled) + [q];
    forall r | 0 <= r < |d.replicas| ensures IsPrefix(d, d.replicas[r]) { PrefixGrows(c, d, q, c.replicas[r]); }
  }

  lemma FailedKeeps(run: Engine, c: Cluster, req: Request)
    requires Inv(run, c) && Enabled(c, Submit(req)) && Succeeds(run, c.log, req.queries) < |req.queries|
    ensures Inv(run, Next(run, c, Submit(req)))
  {
    var d := Next(run, c, Submit(req));
    var k := Succeeds(run, c.log, req.queries);
    var t := Total(Good(c));
    SucceedsSome(run, c.log, req.queries);
    SoundGrows(run, c.log, req.queries[..k]);
    assert c.log + [] == c.log && d.log[..t] == c.log[..t];
    forall r | 0 <= r < |d.replicas| ensures IsPrefix(d, d.replicas[r]) {
      PrefixGrows(c, d, Tracker(req, 0), c.replicas[r]);
    }
  }

  lemma SubmitKeeps(run: Engine, c: Cluster, req: Request)
    requires Inv(run, c) && Enabled(c, Submit(req))
    ensures Inv(run, Next(run, c, Submit(req)))
  {
    if Succeeds(run, c.log, req.queries) < |req.queries| {
      FailedKeeps(run, c, req);
    } else {
      AcceptedKeeps(run, c, req);
    }
  }

  lemma {:induction false} PackedWrites(
    bs: seq<Block>, pooled: seq<Tracker>, queried: seq<Tracker>, failed: seq<Request>)
    requires forall i :: 0 <= i < |pooled| ==> pooled[i].req.kind.Write?
    requires forall i :: 0 <= i < |queried| ==> queried[i].req.kind.Read?
    ensures AllWrites(bs + [Block(pooled + queried, failed)]) == AllWrites(bs) + pooled
  {
    var more := bs + [Block(pooled + queried, failed)];
    assert more[..|more| - 1] == bs;
    WritesConcat(pooled, queried);
    WritesOnly(pooled, Write);
    WritesOnly(queried, Read);
  }

  lemma PackKeeps(run: Engine, c: Cluster, queried: seq<Tracker>, failed: seq<Request>)
    requires Inv(run, c) && Enabled(c, Pack(queried, failed))
    ensures Inv(run, Next(run, c, Pack(queried, failed)))
  {
    var d := Next(run, c, Pack(queried, failed));
    PackedWrites(c.blocks, c.pooled, queried, failed);
    assert AllWrites(d.blocks) + [] == AllWrites(d.blocks);
    forall r | 0 <= r < |d.replicas| ensures IsPrefix(d, d.replicas[r]) { assert IsPrefix(c, c.replicas[r]); }
  }

  /** A replica that replays a block stays a prefix, goes only forward, and no statement fails. */
  lemma {:induction false} ReplayKeeps(run: Engine, c: Cluster, log: seq<Statement>, b: nat)
    requires Inv(run, c) && IsPrefix(c, log) && b < |c.blocks|
    ensures var r := ReplayAll(run, log, c.blocks[b].queries);
      && IsPrefix(c, r.log) && log <= r.log && !r.status.ExecFailed?
      && (r.status.Done? ==> Within(c.blocks[b].queries, |r.log|))
  {
    GoodTiles(run, c);
    BlockIsFrom(run, c, b);
    ReplayFollows(run, Good(c), Base(c), log, c.blocks[b].queries);
  }

  lemma StepKeeps(run: Engine, c: Cluster, s: Step)
    requires Inv(run, c) && Enabled(c, s)
    ensures Inv(run, Next(run, c, s))
  {
    match s
    case Submit(req) => SubmitKeeps(run, c, req);
    case Pack(queried, failed) => PackKeeps(run, c, queried, failed);
    case Replay(r, b) =>
      ReplayKeeps(run, c, c.replicas[r], b);
      var d := Next(run, c, s);
      forall x | 0 <= x < |d.replicas| ensures IsPrefix(d, d.replicas[x]) {
        if x != r { assert IsPrefix(c, c.replicas[x]); }
      }
  }

  ghost predicate IsRun(run: Engine, cs: seq<Cluster>, ss: seq<Step>) {
    && |cs| == |ss| + 1 && cs[0] == Cluster(cs[0].level, [], 0, [], [], [], cs[0].replicas)
    && (forall r :: 0 <= r < |cs[0].replicas| ==> cs[0].replicas[r] == [])
    && (forall k :: 0 <= k < |ss| ==> Enabled(cs[k], ss[k]) && cs[k + 1] == Next(run, cs[k], ss[k]))
  }

  lemma {:induction false} RunInv(run: Engine, cs: seq<Cluster>, ss: seq<Step>, k: nat)
    requires IsRun(run, cs, ss) && k <= |ss|
    ensures Inv(run, cs[k])
  {
    if k > 0 {
      RunInv(run, cs, ss, k - 1);
      StepKeeps(run, cs[k - 1], ss[k - 1]);
      assert cs[k - 1 + 1] == Next(run, cs[k - 1], ss[k - 1]);
    }
  }

  /** In every run, with requests that fail and blocks replayed in any order and any number of times, every
      replica holds a prefix of the writer's log. */
  lemma PrefixAlways(run: Engine, cs: seq<Cluster>, ss: seq<Step>, k: nat, r: nat)
    requires IsRun(run, cs, ss) && k <= |ss| && r < |cs[k].replicas|
    ensures cs[k].replicas[r] <= cs[k].log
  {
    RunInv(run, cs, ss, k);
    assert IsPrefix(cs[k], cs[k].replicas[r]);
  }

  // ---------------------------------------------------------------- restoring the sequence number

  function Max(x: nat, y: nat): nat { if x < y then y else x }

  function LastEnd(qs: seq<Tracker>): nat {
    if qs == [] then 0
    else Max(LastEnd(qs[..|qs| - 1]), if qs[|qs| - 1].req.kind.Write? then qs[|qs| - 1].End() else 0)
  }

  /** The next id after the writes of a block, if it has any. */
  method CalcNextID(b: Block) returns (id: nat, ok: bool)
    ensures id == LastEnd(b.queries) && ok == HasWrite(b.queries)
  {
    id, ok := 0, false;
    for i := 0 to |b.queries|
      invariant id == LastEnd(b.queries[..i]) && ok == exists j :: 0 <= j < i && b.queries[j].req.kind.Write?
    {
      assert b.queries[..i + 1][..i] == b.queries[..i];
      var q := b.queries[i];
      if q.req.kind.Write? {
        if q.End() > id { id := q.End(); }
        ok := true;
      }
    }
    assert b.queries[..|b.queries|] == b.queries;
  }

  function ChainEnd(bs: seq<Block>): nat {
    if bs == [] then 0 else Max(ChainEnd(bs[..|bs| - 1]), LastEnd(bs[|bs| - 1].queries))
  }

  lemma {:induction false} NoWriteEnd(qs: seq<Tracker>)
    requires !HasWrite(qs)
    ensures LastEnd(qs) == 0
  {
    if qs != [] {
      var init := qs[..|qs| - 1];
      assert forall i :: 0 <= i < |init| ==> init[i] == qs[i];
      NoWriteEnd(init);
    }
  }

  /** The sequence number after all blocks, as a reload computes it. */
  method RestoreSeq(bs: seq<Block>) returns (id: nat)
    ensures id == ChainEnd(bs)
  {
    id := 0;
    for i := 0 to |bs|
      invariant id == ChainEnd(bs[..i])
    {
      assert bs[..i + 1][..i] == bs[..i];
      var next, ok := CalcNextID(bs[i]);
      if ok && next > id { id := next; }
      if !ok { NoWriteEnd(bs[i].queries); }
    }
    assert bs[..|bs|] == bs;
  }

  lemma {:induction false} LastEndWrites(qs: seq<Tracker>)
    ensures LastEnd(qs) == LastEnd(Writes(qs))
  {
    if qs != [] {
      var init, last := qs[..|qs| - 1], qs[|qs| - 1];
      LastEndWrites(init);
      if last.req.kind.Write? {
        assert Writes(qs)[..|Writes(qs)| - 1] == Writes(init);
      } else {
        assert Writes(init) + [] == Writes(init);
      }
    }
  }

  lemma {:induction false} LastEndConcat(s: seq<Tracker>, t: seq<Tracker>)
    ensures LastEnd(s + t) == Max(LastEnd(s), LastEnd(t))
  {
    if t == [] {
      assert s + t == s;
    } else {
      assert (s + t)[..|s + t| - 1] == s + t[..|t| - 1];
      LastEndConcat(s, t[..|t| - 1]);
    }
  }

  lemma {:induction false} ChainEndWrites(bs: seq<Block>)
    ensures ChainEnd(bs) == LastEnd(AllWrites(bs))
  {
    if bs != [] {
      var k := |bs| - 1;
      ChainEndWrites(bs[..k]);
      LastEndWrites(bs[k].queries);
      LastEndConcat(AllWrites(bs[..k]), Writes(bs[k].queries));
    }
  }

  lemma {:induction false} LastEndReach(all: seq<Tracker>, full: seq<Statement>)
    requires Spread(all, full)
    ensures LastEnd(all) == Reach(all)
  {
    if all != [] {
      var k := |all| - 1;
      LastEndReach(all[..k], full[..|full| - |all[k].req.queries|]);
    }
  }

  /** If the sequence number is still the length of the log, all requests are steady. */
  lemma {:induction false} InStep(all: seq<Tracker>, full: seq<Statement>, n: nat)
    requires Spread(all, full) && Reach(all) <= n && n == |full|
    ensures Steady(all) == |all|
  {
    SpreadTotal(all, full);
    assert all[..|all|] == all;
    if all != [] {
      SteadyAt(all, full, |all| - 1);
      SpreadAt(all, full, |all| - 1);
    }
  }

  /** What reloading the blocks restores: the end of the last packed write. It is the writer's sequence
      number exactly if nothing is left to pack and no request has half failed since. */
  lemma RestoredSeq(run: Engine, c: Cluster)
    requires Inv(run, c)
    ensures ChainEnd(c.blocks) == Reach(AllWrites(c.blocks)) <= c.seqno
    ensures ChainEnd(c.blocks) == c.seqno <==> c.pooled == [] && Reach(c.all) == c.seqno
  {
    var n := |AllWrites(c.blocks)|;
    assert c.all[..n] == AllWrites(c.blocks);
    SpreadPrefix(c.all, Sent(c), n);
    ChainEndWrites(c.blocks);
    LastEndReach(c.all[..n], Sent(c)[..Total(c.all[..n])]);
    if c.pooled == [] {
      assert c.all[..n] == c.all;
    } else {
      SpreadAt(c.all, Sent(c), n);
      if n < |c.all| - 1 { SpreadOrdered(c.all, Sent(c), n, |c.all| - 1); }
    }
  }

  /** While no request has half failed, that is the offset of the first unpacked request, or the length of
      the log if there is none. */
  lemma RestoredInStep(run: Engine, c: Cluster)
    requires Inv(run, c) && c.seqno == Total(c.all)
    ensures |c.log| == c.seqno
    ensures ChainEnd(c.blocks) == if c.pooled == [] then |c.log| else c.pooled[0].offset
    ensures ChainEnd(c.blocks) == |c.log| <==> c.pooled == []
  {
    RestoredSeq(run, c);
    SpreadTotal(c.all, Sent(c));
    InStep(c.all, Sent(c), c.seqno);
    SpreadTotal(c.all, Sent(c));
    var n := |AllWrites(c.blocks)|;
    assert c.all[..n] == AllWrites(c.blocks);
    if c.pooled != [] {
      assert c.pooled[0] == c.all[n];
      SteadyAt(c.all, Sent(c), n);
      SpreadPrefix(c.all, Sent(c), n);
      if n > 0 {
        SteadyAt(c.all, Sent(c), n - 1);
        SpreadAt(c.all, Sent(c), n - 1);
      }
    }
  }

  // ---------------------------------------------------------------- half-failed requests

  /** The blocks replayed one after the other until one is not done. */
  function ReplayBlocks(run: Engine, log: seq<Statement>, bs: seq<Block>): Replica {
    if bs == [] then Replica(log, Done)
    else
      var r := ReplayBlocks(run, log, bs[..|bs| - 1]);
      if r.status.Done? then ReplayAll(run, r.log, bs[|bs| - 1].queries) else r
  }

  lemma {:induction false} ReplayBlocksKeep(run: Engine, c: Cluster, log: seq<Statement>, b: nat)
    requires Inv(run, c) && IsPrefix(c, log) && b <= |c.blocks|
    ensures var r := ReplayBlocks(run, log, c.blocks[..b]); IsPrefix(c, r.log) && !r.status.ExecFailed?
  {
    if b > 0 {
      ReplayBlocksKeep(run, c, log, b - 1);
      assert c.blocks[..b][..b - 1] == c.blocks[..b - 1];
      var r := ReplayBlocks(run, log, c.blocks[..b - 1]);
      if r.status.Done? { ReplayKeeps(run, c, r.log, b - 1); }
    }
  }

  lemma WritesLast(qs: seq<Tracker>, all: seq<Tracker>, x: nat, y: nat)
    requires qs != [] && x <= y <= |all| && Writes(qs) == all[x..y]
    ensures var init, last := qs[..|qs| - 1], qs[|qs| - 1];
      if last.req.kind.Read? then Writes(init) == all[x..y]
      else x < y && Writes(init) == all[x..y - 1] && last == all[y - 1]
  {
    var init, last := qs[..|qs| - 1], qs[|qs| - 1];
    if last.req.kind.Read? {
      assert Writes(init) + [] == Writes(init);
    } else {
      assert Writes(qs)[..|Writes(qs)| - 1] == Writes(init) && Writes(qs)[|Writes(qs)| - 1] == last;
    }
  }

  /** Steady writes x to y, replayed by a replica that has all before x. */
  lemma {:induction false} ReplaySteady(
    run: Engine, c: Cluster, log: seq<Statement>, qs: seq<Tracker>, x: nat, y: nat)
    requires Inv(run, c) && IsPrefix(c, log) && x <= y <= Steady(c.all) && Writes(qs) == c.all[x..y]
    requires Total(c.all[..x]) <= |log|
    ensures var r := ReplayAll(run, log, qs);
      IsPrefix(c, r.log) && r.status.Done? && Total(c.all[..y]) <= |r.log|
    decreases |qs|
  {
    if qs == [] {
      assert x == y;
    } else {
      var init, last := qs[..|qs| - 1], qs[|qs| - 1];
      WritesLast(qs, c.all, x, y);
      if last.req.kind.Read? {
        ReplaySteady(run, c, log, init, x, y);
      } else {
        ReplaySteady(run, c, log, init, x, y - 1);
        ReplaySteadyOne(run, c, ReplayAll(run, log, init).log, y - 1);
      }
    }
  }

  lemma {:induction false} ReplaySteadyOne(run: Engine, c: Cluster, log: seq<Statement>, i: nat)
    requires Inv(run, c) && IsPrefix(c, log) && i < Steady(c.all) && Total(c.all[..i]) <= |log|
    ensures var r := ReplayWrite(run, Replica(log, Done), c.all[i]);
      IsPrefix(c, r.log) && r.status.Done? && Total(c.all[..i + 1]) <= |r.log|
  {
    GoodTiles(run, c);
    SteadyAt(c.all, Sent(c), i);
    SpreadAt(c.all, Sent(c), i);
    WriteIsOne(run, c, i);
    ReplayWriteFollows(run, Good(c), Base(c), log, c.all[i]);
  }

  /** A block that holds a write beyond the good ones is never finished. */
  lemma {:induction false} ReplayAhead(run: Engine, c: Cluster, log: seq<Statement>, b: nat, i: nat)
    requires Inv(run, c) && IsPrefix(c, log) && b < |c.blocks| && i < |c.blocks[b].queries|
    requires c.blocks[b].queries[i].req.kind.Write? && c.blocks[b].queries[i].offset > |Base(c)|
    ensures ReplayAll(run, log, c.blocks[b].queries).status.MissingParent?
  {
    ReplayKeeps(run, c, log, b);
  }

  lemma {:induction false} WritesUpTo(bs: seq<Block>, b: nat)
    requires b <= |bs|
    ensures AllWrites(bs[..b]) <= AllWrites(bs)
    ensures b < |bs| ==> AllWrites(bs[..b + 1]) == AllWrites(bs[..b]) + Writes(bs[b].queries)
    decreases |bs| - b
  {
    if b < |bs| {
      assert bs[..b + 1][..b] == bs[..b];
      WritesUpTo(bs, b + 1);
    } else {
      assert bs[..b] == bs;
    }
  }

  lemma {:induction false} WriteAt(qs: seq<Tracker>, k: nat) returns (i: nat)
    requires k < |Writes(qs)|
    ensures i < |qs| && qs[i].req.kind.Write? && qs[i] == Writes(qs)[k]
  {
    var n := |qs| - 1;
    if k < |Writes(qs[..n])| { i := WriteAt(qs[..n], k); } else { i := n; }
  }

  /** A replica can finish the first b blocks exactly if all their writes are steady. */
  lemma {:induction false} FinishIffSteady(run: Engine, c: Cluster, log: seq<Statement>, b: nat)
    requires Inv(run, c) && IsPrefix(c, log) && b <= |c.blocks|
    ensures var r := ReplayBlocks(run, log, c.blocks[..b]); var n := |AllWrites(c.blocks[..b])|;
      && (r.status.Done? <==> n <= Steady(c.all)) && (!r.status.Done? ==> r.status.MissingParent?)
      && n <= |c.all| && (r.status.Done? ==> Total(c.all[..n]) <= |r.log|)
  {
    WritesUpTo(c.blocks, b);
    ReplayBlocksKeep(run, c, log, b);
    if b > 0 {
      FinishIffSteady(run, c, log, b - 1);
      FinishNext(run, c, log, b - 1);
    }
  }

  lemma {:induction false} FinishNext(run: Engine, c: Cluster, log: seq<Statement>, b: nat)
    requires Inv(run, c) && IsPrefix(c, log) && b < |c.blocks|
    requires var r := ReplayBlocks(run, log, c.blocks[..b]); var n := |AllWrites(c.blocks[..b])|;
      (r.status.Done? <==> n <= Steady(c.all)) && n <= |c.all| && (r.status.Done? ==> Total(c.all[..n]) <= |r.log|)
    ensures var r := ReplayBlocks(run, log, c.blocks[..b + 1]); var n := |AllWrites(c.blocks[..b + 1])|;
      (r.status.Done? <==> n <= Steady(c.all)) && n <= |c.all| && (r.status.Done? ==> Total(c.all[..n]) <= |r.log|)
  {
    WritesUpTo(c.blocks, b);
    WritesUpTo(c.blocks, b + 1);
    assert c.blocks[..b + 1][..b] == c.blocks[..b];
    ReplayBlocksKeep(run, c, log, b);
    var x, y := |AllWrites(c.blocks[..b])|, |AllWrites(c.blocks[..b + 1])|;
    var r := ReplayBlocks(run, log, c.blocks[..b]);
    assert Writes(c.blocks[b].queries) == c.all[x..y];
    if r.status.Done? {
      if y <= Steady(c.all) {
        ReplaySteady(run, c, r.log, c.blocks[b].queries, x, y);
      } else {
        var i := WriteAt(c.blocks[b].queries, Steady(c.all) - x);
        AheadOfBase(run, c);
        ReplayAhead(run, c, r.log, b, i);
      }
    }
  }

  lemma {:induction false} AheadOfBase(run: Engine, c: Cluster)
    requires Inv(run, c) && Steady(c.all) < |c.all|
    ensures c.all[Steady(c.all)].offset > |Base(c)|
  {
    SteadyAt(c.all, Sent(c), Steady(c.all));
    GoodTiles(run, c);
  }

  lemma {:induction false} AllGrows(run: Engine, cs: seq<Cluster>, ss: seq<Step>, t: nat, k: nat)
    requires IsRun(run, cs, ss) && t <= k <= |ss|
    ensures |cs[t].all| <= |cs[k].all|
  {
    if t < k {
      AllGrows(run, cs, ss, t, k - 1);
      assert cs[k - 1 + 1] == Next(run, cs[k - 1], ss[k - 1]);
    }
  }

  /** None of the steps taken while fewer than n requests had been accepted half failed. */
  ghost predicate NoHalfFailure(run: Engine, cs: seq<Cluster>, ss: seq<Step>, k: nat, n: nat)
    requires k <= |ss| <= |cs|
  {
    forall t :: 0 <= t < k && |cs[t].all| < n ==> !HalfFails(run, cs[t], ss[t])
  }

  lemma SeqStep(run: Engine, c: Cluster, s: Step)
    requires Inv(run, c) && Enabled(c, s)
    ensures var d := Next(run, c, s); d.seqno == Total(d.all) <==> c.seqno == Total(c.all) && !HalfFails(run, c, s)
  {
    SpreadTotal(c.all, Sent(c));
    if s.Submit? { SteadyAppend(c.all, Tracker(s.req, c.seqno)); }
  }

  /** The sequence number counts the statements sent exactly if no request has half failed. */
  lemma {:induction false} SeqIff(run: Engine, cs: seq<Cluster>, ss: seq<Step>, k: nat)
    requires IsRun(run, cs, ss) && k <= |ss|
    ensures cs[k].seqno == Total(cs[k].all) <==> forall t :: 0 <= t < k ==> !HalfFails(run, cs[t], ss[t])
  {
    if k > 0 {
      RunInv(run, cs, ss, k - 1);
      SeqIff(run, cs, ss, k - 1);
      assert cs[k - 1 + 1] == Next(run, cs[k - 1], ss[k - 1]);
      SeqStep(run, cs[k - 1], ss[k - 1]);
    }
  }

  lemma SteadyStep(run: Engine, c: Cluster, s: Step, n: nat)
    requires Inv(run, c) && Enabled(c, s) && n <= |Next(run, c, s).all|
    ensures n <= |c.all| ==> (n <= Steady(Next(run, c, s).all) <==> n <= Steady(c.all))
    ensures n > |c.all| ==>
      && n == |c.all| + 1 && !HalfFails(run, c, s)
      && (n <= Steady(Next(run, c, s).all) <==> Steady(c.all) == |c.all| && c.seqno == Total(c.all))
  {
    SpreadTotal(c.all, Sent(c));
    if s.Submit? { SteadyAppend(c.all, Tracker(s.req, c.seqno)); }
  }

  lemma NoneBefore(run: Engine, cs: seq<Cluster>, ss: seq<Step>, k: nat, n: nat)
    requires IsRun(run, cs, ss) && k < |ss|
    ensures n <= |cs[k].all| ==> (NoHalfFailure(run, cs, ss, k + 1, n) <==> NoHalfFailure(run, cs, ss, k, n))
    ensures n > |cs[k].all| && !HalfFails(run, cs[k], ss[k]) ==>
      (NoHalfFailure(run, cs, ss, k + 1, n) <==> forall t :: 0 <= t < k ==> !HalfFails(run, cs[t], ss[t]))
  {
    forall t | 0 <= t <= k ensures |cs[t].all| <= |cs[k].all| { AllGrows(run, cs, ss, t, k); }
  }

  lemma SteadyNext(run: Engine, cs: seq<Cluster>, ss: seq<Step>, k: nat, n: nat)
    requires IsRun(run, cs, ss) && k < |ss| && Inv(run, cs[k]) && |cs[k].all| < n <= |cs[k + 1].all|
    requires Steady(cs[k].all) == |cs[k].all| <==> NoHalfFailure(run, cs, ss, k, |cs[k].all|)
    requires cs[k].seqno == Total(cs[k].all) <==> forall t :: 0 <= t < k ==> !HalfFails(run, cs[t], ss[t])
    ensures n <= Steady(cs[k + 1].all) <==> NoHalfFailure(run, cs, ss, k + 1, n)
  {
    SteadyStep(run, cs[k], ss[k], n);
    NoneBefore(run, cs, ss, k, n);
  }

  /** The first n requests of a run are steady exactly if no request half failed before the n-th. */
  lemma {:induction false} SteadyIff(run: Engine, cs: seq<Cluster>, ss: seq<Step>, k: nat, n: nat)
    requires IsRun(run, cs, ss) && k <= |ss| && n <= |cs[k].all|
    ensures n <= Steady(cs[k].all) <==> NoHalfFailure(run, cs, ss, k, n)
  {
    if k > 0 {
      var j := k - 1;
      assert cs[j + 1] == Next(run, cs[j], ss[j]);
      RunInv(run, cs, ss, j);
      if n <= |cs[j].all| {
        SteadyIff(run, cs, ss, j, n);
        SteadyStep(run, cs[j], ss[j], n);
        NoneBefore(run, cs, ss, j, n);
      } else {
        SteadyIff(run, cs, ss, j, |cs[j].all|);
        SeqIff(run, cs, ss, j);
        SteadyNext(run, cs, ss, j, n);
      }
    }
  }

  /** A replica can finish the first b blocks exactly if no request half failed before the last of their
      writes; otherwise it misses a parent, in this and every later state. */
  lemma FinishIff(run: Engine, cs: seq<Cluster>, ss: seq<Step>, k: nat, r: nat, b: nat)
    requires IsRun(run, cs, ss) && k <= |ss| && r < |cs[k].replicas| && b <= |cs[k].blocks|
    ensures var c := cs[k]; var end := ReplayBlocks(run, c.replicas[r], c.blocks[..b]).status;
      && (end.Done? <==> NoHalfFailure(run, cs, ss, k, |AllWrites(c.blocks[..b])|))
      && (end.Done? || end.MissingParent?)
  {
    RunInv(run, cs, ss, k);
    assert IsPrefix(cs[k], cs[k].replicas[r]);
    FinishIffSteady(run, cs[k], cs[k].replicas[r], b);
    SteadyIff(run, cs, ss, k, |AllWrites(cs[k].blocks[..b])|);
  }

  lemma {:induction false} BlocksGrow(run: Engine, cs: seq<Cluster>, ss: seq<Step>, j: nat, k: nat)
    requires IsRun(run, cs, ss) && j <= k <= |ss|
    ensures cs[j].blocks <= cs[k].blocks
  {
    if j < k {
      BlocksGrow(run, cs, ss, j, k - 1);
      assert cs[k - 1 + 1] == Next(run, cs[k - 1], ss[k - 1]);
    }
  }

  /** Blocks that a replica cannot finish no replica ever can. */
  lemma MissingForGood(run: Engine, cs: seq<Cluster>, ss: seq<Step>, j: nat, k: nat, r: nat, x: nat, b: nat)
    requires IsRun(run, cs, ss) && j <= k <= |ss|
    requires b <= |cs[j].blocks| && r < |cs[j].replicas| && x < |cs[k].replicas|
    requires !ReplayBlocks(run, cs[j].replicas[r], cs[j].blocks[..b]).status.Done?
    ensures b <= |cs[k].blocks| && ReplayBlocks(run, cs[k].replicas[x], cs[k].blocks[..b]).status.MissingParent?
  {
    BlocksGrow(run, cs, ss, j, k);
    assert cs[k].blocks[..b] == cs[j].blocks[..b];
    FinishIff(run, cs, ss, j, r, b);
    FinishIff(run, cs, ss, k, x, b);
  }

  lemma {:induction false} RunGrows(run: Engine, cs: seq<Cluster>, ss: seq<Step>, j: nat, k: nat)
    requires IsRun(run, cs, ss) && j <= k <= |ss|
    ensures cs[j].all <= cs[k].all && cs[j].log <= cs[k].log && cs[j].level == cs[k].level
  {
    if j < k {
      RunGrows(run, cs, ss, j, k - 1);
      assert cs[k - 1 + 1] == Next(run, cs[k - 1], ss[k - 1]);
    }
  }

  /** After a half failure no further request is good. */
  lemma NoMoreGood(run: Engine, cs: seq<Cluster>, ss: seq<Step>, j: nat, k: nat)
    requires IsRun(run, cs, ss) && j < k <= |ss| && HalfFails(run, cs[j], ss[j])
    ensures Steady(cs[k].all) <= |cs[j].all|
  {
    if |cs[j].all| < |cs[k].all| { SteadyIff(run, cs, ss, k, |cs[j].all| + 1); }
  }

  lemma {:induction false} SentWithin(run: Engine, c: Cluster)
    requires Inv(run, c)
    ensures Total(c.all) <= |c.log|
  {
    SpreadTotal(c.all, Sent(c));
  }

  /** Once a request has half failed, no replica ever holds more than the writer did before it, at any level. So no
      replica gets the statements of it that the writer keeps when it does not read uncommitted data. */
  lemma NeverSent(run: Engine, cs: seq<Cluster>, ss: seq<Step>, j: nat, k: nat, r: nat)
    requires IsRun(run, cs, ss) && j < k <= |ss| && HalfFails(run, cs[j], ss[j]) && r < |cs[k].replicas|
    ensures cs[k].replicas[r] <= cs[j].log
    ensures !cs[j].level.ReadUncommitted? ==>
      cs[j].log + ss[j].req.queries[..Succeeds(run, cs[j].log, ss[j].req.queries)] <= cs[k].log
  {
    RunInv(run, cs, ss, j);
    RunInv(run, cs, ss, k);
    RunGrows(run, cs, ss, j, k);
    RunGrows(run, cs, ss, j + 1, k);
    NoMoreGood(run, cs, ss, j, k);
    SentWithin(run, cs[j]);
    assert cs[k].all[..|cs[j].all|] == cs[j].all;
    TotalMono(cs[k].all, Steady(cs[k].all), |cs[j].all|);
    assert IsPrefix(cs[k], cs[k].replicas[r]);
    assert cs[j + 1] == Next(run, cs[j], ss[j]);
  }

  /** An engine that refuses statement 9. */
  predicate Picky(log: seq<Statement>, s: Statement) {
    s != 9
  }

  const BAD := Request(0, Write, [1, 9])
  const FINE := Request(1, Write, [2])
  const NEXT := Tracker(FINE, 1)

  /** What stays of the bad request. */
  function Rest(level: Level): seq<Statement> {
    if level.ReadUncommitted? then [] else [1]
  }

  lemma Executed(level: Level)
    ensures Succeeds(Picky, [], [1, 9]) == 1 && Succeeds(Picky, Rest(level), [2]) == 1
  {
    assert [1, 9][1..] == [9] && [2][1..] == [] && [] + [1] == [1];
    assert Succeeds(Picky, [1], [9]) == 0;
    assert Succeeds(Picky, Rest(level) + [2], []) == 0;
  }

  lemma AfterBad(level: Level)
    ensures var c := Cluster(level, [], 0, [], [], [], [[]]);
      && Next(Picky, c, Submit(BAD)) == Cluster(level, Rest(level), 1, [], [], [], [[]])
      && HalfFails(Picky, c, Submit(BAD))
  {
    Executed(level);
    assert [1, 9][..1] == [1] && [] + [1] == [1];
  }

  lemma AfterFine(level: Level)
    ensures Next(Picky, Cluster(level, Rest(level), 1, [], [], [], [[]]), Submit(FINE)) ==
            Cluster(level, Rest(level) + [2], 2, [NEXT], [NEXT], [], [[]])
  {
    Executed(level);
    assert [] + [NEXT] == [NEXT];
  }

  lemma AfterPack(level: Level)
    ensures Next(Picky, Cluster(level, Rest(level) + [2], 2, [NEXT], [NEXT], [], [[]]), Pack([], [])) ==
            Cluster(level, Rest(level) + [2], 2, [NEXT], [], [Block([NEXT], [])], [[]])
  {
    assert [NEXT] + [] == [NEXT] && [] + [Block([NEXT], [])] == [Block([NEXT], [])];
  }

  /** The request [1, 9] fails after its first statement, which the writer keeps unless it reads uncommitted data,
      and the replica never gets it nor the request [2] that follows. */
  lemma HalfFailedRun(level: Level) returns (cs: seq<Cluster>, ss: seq<Step>)
    ensures IsRun(Picky, cs, ss) && |cs| == 4 && HalfFails(Picky, cs[0], ss[0]) && cs[0].level == level
    ensures cs[3].log == if level.ReadUncommitted? then [2] else [1, 2]
    ensures |cs[3].blocks| == 1 && cs[3].replicas == [[]]
    ensures ReplayAll(Picky, [], cs[3].blocks[0].queries) == Replica([], MissingParent)
  {
    AfterBad(level);
    AfterFine(level);
    AfterPack(level);
    ss := [Submit(BAD), Submit(FINE), Pack([], [])];
    cs := [Cluster(level, [], 0, [], [], [], [[]]), Cluster(level, Rest(level), 1, [], [], [], [[]]),
           Cluster(level, Rest(level) + [2], 2, [NEXT], [NEXT], [], [[]]),
           Cluster(level, Rest(level) + [2], 2, [NEXT], [], [Block([NEXT], [])], [[]])];
    assert [NEXT][..0] == [] && ReplayAll(Picky, [], []) == Replica([], Done);
    forall k | 0 <= k < |ss| ensures Enabled(cs[k], ss[k]) && cs[k + 1] == Next(Picky, cs[k], ss[k]) {
      if k == 0 {} else if k == 1 {} else {}
    }
  }
}
