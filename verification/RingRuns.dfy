/** Whole histories of the ring: which nodes it holds after any additions and removals. */
module RingRuns {
  import opened RingKeys
  import opened Ring

  type Hash = string -> nat

  /** Replica i of a node sits at the hash of its node key. */
  function Positions(hash: Hash): Hasher {
    (id: string, i: nat) => hash(NodeKey(id, i))
  }

  ghost predicate Injective(hash: Hash) {
    forall a, b :: hash(a) == hash(b) ==> a == b
  }

  /** No position of the given nodes is taken twice. */
  ghost predicate Scattered(h: Hasher, r: nat, ids: set<string>) {
    forall a, b, i, j :: a in ids && b in ids && 0 <= i < r && 0 <= j < r && h(a, i) == h(b, j) ==> a == b && i == j
  }

  /** Hashes that do not collide scatter nodes exactly when their node keys are apart. */
  lemma ScatteredIff(hash: Hash, r: nat, ids: set<string>)
    requires Injective(hash)
    ensures Scattered(Positions(hash), r, ids) <==>
      forall a, b :: a in ids && b in ids && a != b ==> Apart(a, b, r)
  {
    var h := Positions(hash);
    if forall a, b :: a in ids && b in ids && a != b ==> Apart(a, b, r) {
      forall a, b, i, j | a in ids && b in ids && 0 <= i < r && 0 <= j < r && h(a, i) == h(b, j)
        ensures a == b && i == j
      {
        assert NodeKey(a, i) == NodeKey(b, j);
        if a == b { KeyUnique(a, i, b, j); }
      }
    } else {
      var a, b :| a in ids && b in ids && a != b && !Apart(a, b, r);
      var i, j :| 0 <= i < r && 0 <= j < r && NodeKey(a, i) == NodeKey(b, j);
      assert h(a, i) == h(b, j);
    }
  }

  /** Node ids have 64 characters, so the nodes of the network are scattered. */
  lemma OneLength(hash: Hash, r: nat, ids: set<string>, len: nat)
    requires Injective(hash) && forall a :: a in ids ==> |a| == len
    ensures Scattered(Positions(hash), r, ids)
  {
    forall a, b | a in ids && b in ids && a != b ensures Apart(a, b, r) { SameLength(a, b, r); }
    ScatteredIff(hash, r, ids);
  }

  datatype Change = Add(node: Node) | Remove(id: string) | Reset

  function Id(c: Change): set<string> {
    match c
    case Add(n) => {n.id}
    case Remove(id) => {id}
    case Reset => {}
  }

  function Mentioned(cs: seq<Change>): set<string> {
    if cs == [] then {} else Mentioned(cs[..|cs| - 1]) + Id(cs[|cs| - 1])
  }

  function Changed(circle: map<nat, Node>, h: Hasher, r: nat, c: Change): map<nat, Node> {
    match c
    case Add(n) => Added(circle, h, n, r)
    case Remove(id) => Removed(circle, h, id, r)
    case Reset => map[]
  }

  /** The ring after a history. */
  function Circle(h: Hasher, r: nat, cs: seq<Change>): map<nat, Node> {
    if cs == [] then map[] else Changed(Circle(h, r, cs[..|cs| - 1]), h, r, cs[|cs| - 1])
  }

  function Joined(members: map<string, Node>, c: Change): map<string, Node> {
    match c
    case Add(n) => members[n.id := n]
    case Remove(id) => members - {id}
    case Reset => map[]
  }

  /** The nodes added last under each id and not removed since. */
  function Members(cs: seq<Change>): map<string, Node> {
    if cs == [] then map[] else Joined(Members(cs[..|cs| - 1]), cs[|cs| - 1])
  }

  ghost predicate Named(members: map<string, Node>, ids: set<string>) {
    forall id :: id in members ==> id in ids && members[id].id == id
  }

  /** The ring holds all positions of the members and nothing else. */
  ghost predicate Holds(circle: map<nat, Node>, h: Hasher, r: nat, members: map<string, Node>) {
    && (forall id, j :: id in members && 0 <= j < r ==> h(id, j) in circle && circle[h(id, j)] == members[id])
    && (forall k :: k in circle ==> Owned(k, h, r, members))
  }

  ghost predicate Owned(k: nat, h: Hasher, r: nat, members: map<string, Node>) {
    exists id, j :: id in members && 0 <= j < r && h(id, j) == k
  }

  lemma {:induction false} HoldsAdd(circle: map<nat, Node>, h: Hasher, r: nat, members: map<string, Node>,
      ids: set<string>, n: Node)
    requires Holds(circle, h, r, members) && Named(members, ids) && Scattered(h, r, ids) && n.id in ids
    ensures Holds(Added(circle, h, n, r), h, r, members[n.id := n])
  {
    var c, more := Added(circle, h, n, r), members[n.id := n];
    forall id, j | id in more && 0 <= j < r ensures h(id, j) in c && c[h(id, j)] == more[id] {
      AddedAt(circle, h, n, r, h(id, j));
    }
    forall k | k in c ensures Owned(k, h, r, more) {
      AddedAt(circle, h, n, r, k);
      if j :| 0 <= j < r && h(n.id, j) == k {
        assert n.id in more;
      } else {
        var id, j :| id in members && 0 <= j < r && h(id, j) == k;
        assert id in more;
      }
    }
  }

  lemma {:induction false} HoldsRemove(circle: map<nat, Node>, h: Hasher, r: nat, members: map<string, Node>,
      ids: set<string>, x: string)
    requires Holds(circle, h, r, members) && Named(members, ids) && Scattered(h, r, ids) && x in ids
    ensures Holds(Removed(circle, h, x, r), h, r, members - {x})
  {
    var c, rest := Removed(circle, h, x, r), members - {x};
    forall id, j | id in rest && 0 <= j < r ensures h(id, j) in c && c[h(id, j)] == rest[id] {
      RemovedAt(circle, h, x, r, h(id, j));
    }
    forall k | k in c ensures Owned(k, h, r, rest) {
      RemovedAt(circle, h, x, r, k);
      var id, j :| id in members && 0 <= j < r && h(id, j) == k;
      assert id in rest;
    }
  }

  /** After any history the ring is the positions of its members, each with the node added last. */
  lemma {:induction false} HistoryHolds(h: Hasher, r: nat, cs: seq<Change>, ids: set<string>)
    requires Scattered(h, r, ids) && Mentioned(cs) <= ids
    ensures Holds(Circle(h, r, cs), h, r, Members(cs)) && Named(Members(cs), ids)
  {
    if cs != [] {
      var before, c := cs[..|cs| - 1], cs[|cs| - 1];
      HistoryHolds(h, r, before, ids);
      match c
      case Add(n) => HoldsAdd(Circle(h, r, before), h, r, Members(before), ids, n);
      case Remove(id) => HoldsRemove(Circle(h, r, before), h, r, Members(before), ids, id);
      case Reset =>
    }
  }

  lemma HoldsIds(circle: map<nat, Node>, h: Hasher, r: nat, members: map<string, Node>, ids: set<string>)
    requires Holds(circle, h, r, members) && Named(members, ids) && r > 0
    ensures Ids(circle) == members.Keys && Placed(circle, h, r)
  {
    forall k | k in circle ensures circle[k].id in members && exists j :: 0 <= j < r && h(circle[k].id, j) == k {
      var id, j :| id in members && 0 <= j < r && h(id, j) == k;
      assert circle[h(id, j)] == members[id];
    }
    forall id | id in members ensures id in Ids(circle) { assert circle[h(id, 0)].id == id; }
  }

  lemma HoldsFree(circle: map<nat, Node>, h: Hasher, r: nat, members: map<string, Node>, ids: set<string>)
    requires Holds(circle, h, r, members) && Named(members, ids) && Scattered(h, r, ids) && r > 0
    ensures CollisionFree(circle, h, r) && Ids(circle) == members.Keys
    ensures forall x :: x in ids ==> Alone(circle, h, r, x)
  {
    HoldsIds(circle, h, r, members, ids);
    forall x | x in ids ensures Alone(circle, h, r, x) {
      forall j | 0 <= j < r && h(x, j) in circle ensures circle[h(x, j)].id == x {
        var i :| 0 <= i < r && h(circle[h(x, j)].id, i) == h(x, j);
      }
    }
  }

  /** Every history of nodes that share no position leaves a ring without collisions that holds exactly its members,
      and on which every removal takes away that node only. */
  lemma {:induction false} HistoryFree(h: Hasher, r: nat, cs: seq<Change>, ids: set<string>)
    requires Scattered(h, r, ids) && Mentioned(cs) <= ids && r > 0
    ensures var circle := Circle(h, r, cs);
      && CollisionFree(circle, h, r) && Ids(circle) == Members(cs).Keys
      && |circle.Keys| == r * |Members(cs).Keys|
      && forall x :: x in ids ==> Alone(circle, h, r, x)
  {
    HistoryHolds(h, r, cs, ids);
    HoldsFree(Circle(h, r, cs), h, r, Members(cs), ids);
    KeysExact(Circle(h, r, cs), h, r);
  }

  /** Two histories with the same members leave the same ring, whatever their order. */
  lemma {:induction false} SameMembers(h: Hasher, r: nat, cs: seq<Change>, ds: seq<Change>, ids: set<string>)
    requires Scattered(h, r, ids) && Mentioned(cs) <= ids && Mentioned(ds) <= ids && Members(cs) == Members(ds)
    ensures Circle(h, r, cs) == Circle(h, r, ds)
  {
    HistoryHolds(h, r, cs, ids);
    HistoryHolds(h, r, ds, ids);
    HoldsOne(Circle(h, r, cs), Circle(h, r, ds), h, r, Members(cs));
  }

  lemma HoldsOne(c: map<nat, Node>, d: map<nat, Node>, h: Hasher, r: nat, members: map<string, Node>)
    requires Holds(c, h, r, members) && Holds(d, h, r, members)
    ensures c == d
  {
    forall k | k in c ensures k in d && d[k] == c[k] {
      var id, j :| id in members && 0 <= j < r && h(id, j) == k;
    }
    forall k | k in d ensures k in c {
      var id, j :| id in members && 0 <= j < r && h(id, j) == k;
    }
  }

  // ---------------------------------------------------------------- a shared node key

  const A := Node("a", 0)
  const ONE_A := Node("1a", 0)

  const HISTORY := [Add(A), Add(ONE_A), Remove("1a")]

  lemma {:induction false} Unrolled(h: Hasher, r: nat)
    ensures Circle(h, r, [Add(A)]) == Added(map[], h, A, r)
    ensures Circle(h, r, HISTORY) == Removed(Added(Circle(h, r, [Add(A)]), h, ONE_A, r), h, "1a", r)
  {
    assert HISTORY[..2] == [Add(A), Add(ONE_A)] && [Add(A), Add(ONE_A)][..1] == [Add(A)] && [Add(A)][..0] == [];
    assert Circle(h, r, [Add(A), Add(ONE_A)]) == Added(Circle(h, r, [Add(A)]), h, ONE_A, r);
  }

  lemma UnrolledMembers()
    ensures Members([Add(A)]) == map["a" := A] && Members(HISTORY) == map["a" := A] && Mentioned([Add(A)]) == {"a"}
  {
    assert HISTORY[..2] == [Add(A), Add(ONE_A)] && [Add(A), Add(ONE_A)][..1] == [Add(A)] && [Add(A)][..0] == [];
    assert Members([]) == map[] && Members([Add(A)]) == map["a" := A];
    assert Members([Add(A), Add(ONE_A)]) == Members([Add(A)])["1a" := ONE_A];
    assert Members(HISTORY) == Members([Add(A), Add(ONE_A)]) - {"1a"};
  }

  /** A node with all its replicas. */
  lemma {:induction false} WholeNode(h: Hasher, r: nat)
    requires Scattered(h, r, {"a"}) && r > 0
    ensures Ids(Circle(h, r, [Add(A)])) == {"a"} && |Circle(h, r, [Add(A)]).Keys| == r
  {
    UnrolledMembers();
    OneMember(h, r, [Add(A)]);
  }

  lemma {:induction false} OneMember(h: Hasher, r: nat, cs: seq<Change>)
    requires Scattered(h, r, {"a"}) && r > 0 && Mentioned(cs) == {"a"} && Members(cs) == map["a" := A]
    ensures Ids(Circle(h, r, cs)) == {"a"} && |Circle(h, r, cs).Keys| == r
  {
    HistoryFree(h, r, cs, {"a"});
    assert Members(cs).Keys == {"a"} && |{"a"}| == 1;
    Once(r, |Members(cs).Keys|);
  }

  lemma Once(r: nat, n: nat)
    requires n == 1
    ensures r * n == r
  {}

  lemma TakenKey(hash: Hash, r: nat, k: nat)
    requires Injective(hash) && 11 < r <= 20
    ensures var h := Positions(hash);
      (exists j :: 0 <= j < r && h("a", j) == k) && (exists i :: 0 <= i < r && h("1a", i) == k) <==> k == hash("11a")
  {
    var h := Positions(hash);
    ElevenShared(1, 11);
    TeenDigits(11);
    assert NodeKey("a", 11) == "11a";
    assert h("a", 11) == hash("11a") && h("1a", 1) == hash("11a");
    forall i, j | 0 <= i < r && 0 <= j < r && h("a", j) == k && h("1a", i) == k ensures k == hash("11a") {
      ElevenShared(i, j);
    }
  }

  lemma {:induction false} KeyLeft(hash: Hash, r: nat, k: nat)
    requires Injective(hash) && 11 < r <= 20
    ensures var h := Positions(hash); var whole, left := Circle(h, r, [Add(A)]), Circle(h, r, HISTORY);
      && (k in left <==> k in whole && k != hash("11a")) && (k in left ==> left[k] == whole[k])
      && hash("11a") in whole
  {
    var h := Positions(hash);
    var whole := Circle(h, r, [Add(A)]);
    var both := Added(whole, h, ONE_A, r);
    Unrolled(h, r);
    AddedAt(map[], h, A, r, k);
    AddedAt(map[], h, A, r, hash("11a"));
    AddedAt(whole, h, ONE_A, r, k);
    RemovedAt(both, h, "1a", r, k);
    TakenKey(hash, r, k);
    TakenKey(hash, r, hash("11a"));
  }

  /** Removing node 1a takes from node a the key of its replica 11 and leaves it with fewer keys than replicas. The
      ring of the source has 20 replicas. */
  lemma {:induction false} SharedKey(hash: Hash, r: nat)
    requires Injective(hash) && 11 < r <= 20
    ensures var h := Positions(hash); var whole, left := Circle(h, r, [Add(A)]), Circle(h, r, HISTORY);
      && Members(HISTORY) == Members([Add(A)]) && Ids(left) == Ids(whole) == {"a"}
      && left == whole - {hash("11a")} && |left.Keys| == r - 1
  {
    var h := Positions(hash);
    var whole, left := Circle(h, r, [Add(A)]), Circle(h, r, HISTORY);
    ScatteredIff(hash, r, {"a"});
    WholeNode(h, r);
    UnrolledMembers();
    KeyLeft(hash, r, 0);
    forall k ensures (k in left <==> k in whole && k != hash("11a")) && (k in left ==> left[k] == whole[k]) {
      KeyLeft(hash, r, k);
    }
    LessOne(whole, left, hash("11a"));
  }

  lemma LessOne(whole: map<nat, Node>, left: map<nat, Node>, x: nat)
    requires Ids(whole) == {"a"} && x in whole && |whole.Keys| > 1
    requires forall k :: (k in left <==> k in whole && k != x) && (k in left ==> left[k] == whole[k])
    ensures left == whole - {x} && |left.Keys| == |whole.Keys| - 1 && Ids(left) == {"a"}
  {
    assert left.Keys == whole.Keys - {x};
    assert |left.Keys| == |whole.Keys| - 1;
    forall k | k in left ensures left[k].id == "a" { assert whole[k].id in Ids(whole); }
    SomeId(left);
  }
}
