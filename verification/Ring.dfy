/** The consistent hash ring: a map from hash keys to nodes and the sorted list of its keys. */
module Ring {
  import opened Common

  datatype Node = Node(id: string, info: nat)

  /** Position of replica i of a node on the ring. */
  type Hasher = (string, nat) -> nat

  // ---------------------------------------------------------------- sorted keys

  ghost predicate Ascending(s: seq<nat>) {
    forall i, j :: 0 <= i < j < |s| ==> s[i] < s[j]
  }

  /** s lists the keys in strictly ascending order. */
  ghost predicate Lists(s: seq<nat>, keys: set<nat>) {
    Ascending(s) && forall k :: k in keys <==> k in s
  }

  method SortKeys(keys: set<nat>) returns (s: seq<nat>)
    ensures Lists(s, keys)
  {
    s := [];
    var left := keys;
    while left != {}
      invariant left <= keys && Ascending(s)
      invariant forall k :: k in s <==> k in keys && k !in left
      invariant forall i, k :: 0 <= i < |s| && k in left ==> s[i] < k
      decreases left
    {
      var m := Least(left);
      s := s + [m];
      left := left - {m};
    }
  }

  // ---------------------------------------------------------------- successor

  /** s is the first key clockwise after k. */
  ghost predicate IsNext(keys: set<nat>, k: nat, s: nat) {
    && s in keys
    && if k < s then forall x :: x in keys && k < x ==> s <= x
       else forall x :: x in keys ==> s <= x <= k
  }

  /** No key lies on both sides of k, so the walk from k starts at the first of the sorted keys. */
  ghost predicate Wraps(keys: set<nat>, k: nat) {
    (forall x :: x in keys ==> k < x) || (forall x :: x in keys ==> x <= k)
  }

  lemma NextUnique(keys: set<nat>, k: nat, s: nat, t: nat)
    requires IsNext(keys, k, s) && IsNext(keys, k, t)
    ensures s == t
  {}

  // ---------------------------------------------------------------- changes of the ring

  /** The node's replicas from i on are written over whatever is there. */
  function Added(circle: map<nat, Node>, h: Hasher, n: Node, i: nat): map<nat, Node> {
    if i == 0 then circle else Added(circle, h, n, i - 1)[h(n.id, i - 1) := n]
  }

  function Removed(circle: map<nat, Node>, h: Hasher, id: string, i: nat): map<nat, Node> {
    if i == 0 then circle else Removed(circle, h, id, i - 1) - {h(id, i - 1)}
  }

  lemma {:induction false} AddedAt(circle: map<nat, Node>, h: Hasher, n: Node, i: nat, k: nat)
    ensures k in Added(circle, h, n, i) <==> k in circle || exists j :: 0 <= j < i && h(n.id, j) == k
    ensures k in Added(circle, h, n, i) ==>
      Added(circle, h, n, i)[k] == if exists j :: 0 <= j < i && h(n.id, j) == k then n else circle[k]
  {
    if i > 0 { AddedAt(circle, h, n, i - 1, k); }
  }

  lemma {:induction false} RemovedAt(circle: map<nat, Node>, h: Hasher, id: string, i: nat, k: nat)
    ensures k in Removed(circle, h, id, i) <==> k in circle && !exists j :: 0 <= j < i && h(id, j) == k
    ensures k in Removed(circle, h, id, i) ==> Removed(circle, h, id, i)[k] == circle[k]
  {
    if i > 0 { RemovedAt(circle, h, id, i - 1, k); }
  }

  /** Who serves key k. */
  ghost predicate Serves(circle: map<nat, Node>, k: nat, n: Node) {
    exists s :: IsNext(circle.Keys, k, s) && circle[s] == n
  }

  lemma ServesOne(circle: map<nat, Node>, k: nat, m: Node, n: Node)
    requires Serves(circle, k, m) && Serves(circle, k, n)
    ensures m == n
  {
    var s :| IsNext(circle.Keys, k, s) && circle[s] == m;
    var t :| IsNext(circle.Keys, k, t) && circle[t] == n;
    NextUnique(circle.Keys, k, s, t);
  }

  /** Adding a node moves keys only to that node. */
  lemma {:induction false} AddMinimal(circle: map<nat, Node>, h: Hasher, r: nat, n: Node, k: nat, m: Node)
    requires Serves(Added(circle, h, n, r), k, m) && m != n
    ensures Serves(circle, k, m)
  {
    var c := Added(circle, h, n, r);
    var s :| IsNext(c.Keys, k, s) && c[s] == m;
    AddedAt(circle, h, n, r, s);
    forall x | x in circle.Keys ensures x in c.Keys { AddedAt(circle, h, n, r, x); }
    assert IsNext(circle.Keys, k, s);
  }

  /** No other node sits on one of the positions of the given one. */
  ghost predicate Alone(circle: map<nat, Node>, h: Hasher, r: nat, id: string) {
    forall j :: 0 <= j < r && h(id, j) in circle ==> circle[h(id, j)].id == id
  }

  /** Removing a node that shares no position moves only the keys it served. */
  lemma {:induction false} RemoveMinimal(circle: map<nat, Node>, h: Hasher, r: nat, id: string, k: nat, m: Node)
    requires Alone(circle, h, r, id) && Serves(circle, k, m) && m.id != id
    ensures Serves(Removed(circle, h, id, r), k, m)
  {
    var c := Removed(circle, h, id, r);
    var s :| IsNext(circle.Keys, k, s) && circle[s] == m;
    RemovedAt(circle, h, id, r, s);
    forall x | x in c.Keys ensures x in circle.Keys { RemovedAt(circle, h, id, r, x); }
    assert IsNext(c.Keys, k, s);
  }

  // ---------------------------------------------------------------- how many nodes there are

  /** Every key on the ring is one of the r positions of its node. */
  ghost predicate Placed(circle: map<nat, Node>, h: Hasher, r: nat) {
    forall k :: k in circle ==> exists j :: 0 <= j < r && h(circle[k].id, j) == k
  }

  ghost function Ids(circle: map<nat, Node>): set<string> {
    set k | k in circle :: circle[k].id
  }

  function Slots(h: Hasher, id: string, r: nat): set<nat> {
    if r == 0 then {} else Slots(h, id, r - 1) + {h(id, r - 1)}
  }

  lemma {:induction false} SlotsBound(h: Hasher, id: string, r: nat)
    ensures |Slots(h, id, r)| <= r && forall j :: 0 <= j < r ==> h(id, j) in Slots(h, id, r)
  {
    if r > 0 { SlotsBound(h, id, r - 1); }
  }

  /** The part of the ring that belongs to other nodes. */
  ghost function Others(circle: map<nat, Node>, id: string): map<nat, Node> {
    map k | k in circle && circle[k].id != id :: circle[k]
  }

  lemma SetSizes(a: set<nat>, b: set<nat>, c: set<nat>)
    requires a <= b + c
    ensures |a| <= |b| + |c|
  {
    SubsetSize(a, b + c);
    assert |b + c| <= |b| + |c|;
  }

  lemma {:induction false} SubsetSize<T>(a: set<T>, b: set<T>)
    requires a <= b
    ensures |a| <= |b|
    decreases a
  {
    if a != {} {
      var x :| x in a;
      SubsetSize(a - {x}, b - {x});
    }
  }

  lemma OneNode(circle: map<nat, Node>, h: Hasher, r: nat, id: string)
    requires Placed(circle, h, r)
    ensures |circle.Keys| <= |Others(circle, id).Keys| + r && Placed(Others(circle, id), h, r)
  {
    var rest := Others(circle, id);
    SlotsBound(h, id, r);
    forall k | k in circle.Keys ensures k in rest.Keys + Slots(h, id, r) {
      if circle[k].id == id { var j :| 0 <= j < r && h(circle[k].id, j) == k; }
    }
    SetSizes(circle.Keys, rest.Keys, Slots(h, id, r));
  }

  lemma OtherIds(circle: map<nat, Node>, id: string, ids: set<string>)
    requires Ids(circle) <= ids
    ensures Ids(Others(circle, id)) <= ids - {id}
  {
    var rest := Others(circle, id);
    forall x | x in Ids(rest) ensures x in ids - {id} {
      var k :| k in rest && rest[k].id == x;
      assert circle[k].id in Ids(circle);
    }
  }

  lemma SomeId(circle: map<nat, Node>)
    requires circle.Keys != {}
    ensures Ids(circle) != {}
  {
    var k :| k in circle.Keys;
    assert circle[k].id in Ids(circle);
  }

  lemma OneMore(r: nat, n: nat)
    ensures r * (n + 1) == r * n + r
  {}

  /** A ring of r positions per node has at least as many nodes as its keys divided by r. */
  lemma {:induction false} KeysBound(circle: map<nat, Node>, h: Hasher, r: nat, ids: set<string>)
    requires Placed(circle, h, r) && Ids(circle) <= ids
    ensures |circle.Keys| <= r * |ids|
    decreases ids
  {
    if ids == {} {
      if circle.Keys != {} { SomeId(circle); }
    } else {
      var id :| id in ids;
      OneNode(circle, h, r, id);
      OtherIds(circle, id, ids);
      KeysBound(Others(circle, id), h, r, ids - {id});
      OneMore(r, |ids - {id}|);
    }
  }

  // ---------------------------------------------------------------- the clockwise walk

  /** The node t positions clockwise of start. */
  ghost function Clockwise(s: seq<nat>, circle: map<nat, Node>, start: nat, t: nat): Node
    requires Lists(s, circle.Keys) && start < |s|
  {
    circle[s[(start + t) % |s|]]
  }

  predicate Has(nodes: seq<Node>, id: string) {
    exists i :: 0 <= i < |nodes| && nodes[i].id == id
  }

  /** The distinct nodes at the first t positions, in clockwise order. */
  ghost function Nearest(s: seq<nat>, circle: map<nat, Node>, start: nat, t: nat): seq<Node>
    requires Lists(s, circle.Keys) && start < |s|
  {
    if t == 0 then []
    else
      var before := Nearest(s, circle, start, t - 1);
      var n := Clockwise(s, circle, start, t - 1);
      if Has(before, n.id) then before else before + [n]
  }

  function IdsOf(nodes: seq<Node>): set<string> {
    set i | 0 <= i < |nodes| :: nodes[i].id
  }

  lemma {:induction false} NearestIds(s: seq<nat>, circle: map<nat, Node>, start: nat, t: nat)
    requires Lists(s, circle.Keys) && start < |s|
    ensures var ns := Nearest(s, circle, start, t);
      && |IdsOf(ns)| == |ns|
      && forall u :: 0 <= u < t ==> Clockwise(s, circle, start, u).id in IdsOf(ns)
  {
    if t > 0 {
      NearestIds(s, circle, start, t - 1);
      var before := Nearest(s, circle, start, t - 1);
      var n := Clockwise(s, circle, start, t - 1);
      if Has(before, n.id) {
        var i :| 0 <= i < |before| && before[i].id == n.id;
        assert before[i].id in IdsOf(before);
      } else {
        AppendIds(before, n);
      }
    }
  }

  lemma AppendIds(nodes: seq<Node>, n: Node)
    requires !Has(nodes, n.id)
    ensures IdsOf(nodes + [n]) == IdsOf(nodes) + {n.id} && n.id !in IdsOf(nodes)
  {
    var more := nodes + [n];
    assert more[|nodes|] == n;
    forall x | x in IdsOf(nodes) + {n.id} ensures x in IdsOf(more) {
      if x != n.id {
        var i :| 0 <= i < |nodes| && nodes[i].id == x;
        assert more[i].id == x;
      }
    }
  }

  /** A round comes by every key. */
  lemma MeetsKey(s: seq<nat>, circle: map<nat, Node>, start: nat, k: nat) returns (u: nat)
    requires Lists(s, circle.Keys) && start < |s| && k in circle
    ensures u < |s| && Clockwise(s, circle, start, u) == circle[k]
  {
    var i :| 0 <= i < |s| && s[i] == k;
    u := if i >= start then i - start else i + |s| - start;
    RoundTo(start, u, i, |s|);
  }

  lemma {:induction false} RoundIds(s: seq<nat>, circle: map<nat, Node>, start: nat)
    requires Lists(s, circle.Keys) && start < |s|
    ensures Ids(circle) <= IdsOf(Nearest(s, circle, start, |s|))
  {
    var ns := Nearest(s, circle, start, |s|);
    NearestIds(s, circle, start, |s|);
    forall x | x in Ids(circle) ensures x in IdsOf(ns) {
      var k :| k in circle && circle[k].id == x;
      var u := MeetsKey(s, circle, start, k);
    }
  }

  /** A full round meets every node. */
  lemma {:induction false} FullRound(s: seq<nat>, circle: map<nat, Node>, h: Hasher, r: nat, start: nat)
    requires Lists(s, circle.Keys) && start < |s| && Placed(circle, h, r) && r > 0
    ensures |Nearest(s, circle, start, |s|)| >= |s| / r
  {
    var ns := Nearest(s, circle, start, |s|);
    RoundIds(s, circle, start);
    NearestIds(s, circle, start, |s|);
    KeysBound(circle, h, r, IdsOf(ns));
    ListSize(s, circle.Keys);
    DivBound(|s|, r, |ns|);
  }

  lemma RoundTo(start: nat, u: nat, i: nat, n: nat)
    requires start < n && i < n && (u == i - start || u == i + n - start)
    ensures (start + u) % n == i
  {
    if u == i - start {
      assert start + u == i;
    } else {
      assert start + u == n + i;
    }
  }

  lemma DivBound(x: nat, r: nat, n: nat)
    requires r > 0 && x <= r * n
    ensures x / r <= n
  {}

  lemma {:induction false} ListSize(s: seq<nat>, keys: set<nat>)
    requires Lists(s, keys)
    ensures |s| == |keys|
  {
    if s == [] {
      assert keys == {};
    } else {
      var k := |s| - 1;
      assert s[k] in keys;
      var init := s[..k];
      forall x ensures x in keys - {s[k]} <==> x in init {
        if x in init { assert x in s; }
      }
      ListSize(init, keys - {s[k]});
    }
  }

  // ---------------------------------------------------------------- exact counts

  /** Node id has all its r positions, and they are different. */
  ghost predicate Complete(circle: map<nat, Node>, h: Hasher, r: nat, id: string) {
    && (forall j :: 0 <= j < r ==> h(id, j) in circle && circle[h(id, j)].id == id)
    && (forall i, j :: 0 <= i < j < r ==> h(id, i) != h(id, j))
  }

  ghost predicate CollisionFree(circle: map<nat, Node>, h: Hasher, r: nat) {
    Placed(circle, h, r) && forall id :: id in Ids(circle) ==> Complete(circle, h, r, id)
  }

  /** Removal takes away the node and nothing else exactly when no other node sits on its positions. */
  lemma {:induction false} RemovedIff(circle: map<nat, Node>, h: Hasher, r: nat, id: string)
    requires Placed(circle, h, r)
    ensures Removed(circle, h, id, r) == Others(circle, id) <==> Alone(circle, h, r, id)
  {
    var c, rest := Removed(circle, h, id, r), Others(circle, id);
    forall k ensures k in c <==> k in circle && !exists j :: 0 <= j < r && h(id, j) == k {
      RemovedAt(circle, h, id, r, k);
    }
    forall k | k in c ensures c[k] == circle[k] { RemovedAt(circle, h, id, r, k); }
    if Alone(circle, h, r, id) {
      forall k ensures k in c <==> k in rest {
        if k in circle && circle[k].id == id { var j :| 0 <= j < r && h(circle[k].id, j) == k; }
      }
      assert c == rest;
    } else {
      var j :| 0 <= j < r && h(id, j) in circle && circle[h(id, j)].id != id;
      assert h(id, j) in rest && h(id, j) !in c;
    }
  }

  /** The r positions of a and of b are different. */
  ghost predicate Clear(h: Hasher, r: nat, a: string, b: string) {
    forall i, j :: 0 <= i < r && 0 <= j < r ==> h(a, i) != h(b, j)
  }

  ghost predicate ClearOf(circle: map<nat, Node>, h: Hasher, r: nat, id: string) {
    forall x :: x in Ids(circle) && x != id ==> Clear(h, r, x, id)
  }

  lemma {:induction false} AddedIds(circle: map<nat, Node>, h: Hasher, r: nat, n: Node)
    ensures Ids(Added(circle, h, n, r)) <= Ids(circle) + {n.id}
  {
    var c := Added(circle, h, n, r);
    forall x | x in Ids(c) ensures x in Ids(circle) + {n.id} {
      var k :| k in c && c[k].id == x;
      AddedAt(circle, h, n, r, k);
      if c[k] != n { assert circle[k].id in Ids(circle); }
    }
  }

  lemma {:induction false} AddedKeeps(circle: map<nat, Node>, h: Hasher, r: nat, n: Node, x: string)
    requires Complete(circle, h, r, x) && x != n.id && Clear(h, r, x, n.id)
    ensures Complete(Added(circle, h, n, r), h, r, x)
  {
    forall j | 0 <= j < r
      ensures h(x, j) in Added(circle, h, n, r) && Added(circle, h, n, r)[h(x, j)].id == x
    {
      AddedAt(circle, h, n, r, h(x, j));
    }
  }

  lemma {:induction false} AddedOwn(circle: map<nat, Node>, h: Hasher, r: nat, n: Node)
    requires forall i, j :: 0 <= i < j < r ==> h(n.id, i) != h(n.id, j)
    ensures Complete(Added(circle, h, n, r), h, r, n.id)
  {
    forall j | 0 <= j < r
      ensures h(n.id, j) in Added(circle, h, n, r) && Added(circle, h, n, r)[h(n.id, j)].id == n.id
    {
      AddedAt(circle, h, n, r, h(n.id, j));
    }
  }

  lemma IdOf(circle: map<nat, Node>, h: Hasher, r: nat, id: string)
    requires r > 0 && Complete(circle, h, r, id)
    ensures id in Ids(circle)
  {
    assert circle[h(id, 0)].id == id;
  }

  /** Adding a node leaves a ring of whole nodes, the old ones and the new one, exactly when no position is shared. */
  lemma {:induction false} AddedIff(circle: map<nat, Node>, h: Hasher, r: nat, n: Node)
    requires CollisionFree(circle, h, r) && r > 0
    requires forall i, j :: 0 <= i < j < r ==> h(n.id, i) != h(n.id, j)
    ensures ClearOf(circle, h, r, n.id) <==>
      var c := Added(circle, h, n, r); CollisionFree(c, h, r) && Ids(c) == Ids(circle) + {n.id}
  {
    var c := Added(circle, h, n, r);
    AddedPlaced(circle, h, n, r);
    AddedIds(circle, h, r, n);
    AddedOwn(circle, h, r, n);
    IdOf(c, h, r, n.id);
    if ClearOf(circle, h, r, n.id) {
      forall x | x in Ids(circle) && x != n.id ensures Complete(c, h, r, x) && x in Ids(c) {
        AddedKeeps(circle, h, r, n, x);
        IdOf(c, h, r, x);
      }
    } else {
      var x :| x in Ids(circle) && x != n.id && !Clear(h, r, x, n.id);
      AddedTakes(circle, h, r, n, x);
    }
  }

  lemma {:induction false} AddedTakes(circle: map<nat, Node>, h: Hasher, r: nat, n: Node, x: string)
    requires x != n.id && !Clear(h, r, x, n.id)
    ensures !Complete(Added(circle, h, n, r), h, r, x)
  {
    var i, j :| 0 <= i < r && 0 <= j < r && h(x, i) == h(n.id, j);
    AddedAt(circle, h, n, r, h(x, i));
  }

  lemma {:induction false} SlotsExact(h: Hasher, id: string, r: nat)
    requires forall i, j :: 0 <= i < j < r ==> h(id, i) != h(id, j)
    ensures |Slots(h, id, r)| == r
  {
    if r > 0 {
      SlotsExact(h, id, r - 1);
      if h(id, r - 1) in Slots(h, id, r - 1) { var j := SlotOf(h, id, r - 1, h(id, r - 1)); }
    }
  }

  lemma {:induction false} SlotOf(h: Hasher, id: string, r: nat, k: nat) returns (j: nat)
    requires k in Slots(h, id, r)
    ensures j < r && h(id, j) == k
  {
    if k == h(id, r - 1) { j := r - 1; } else { j := SlotOf(h, id, r - 1, k); }
  }

  /** The positions of the node are exactly its keys. */
  lemma {:induction false} SlotsAreKeys(circle: map<nat, Node>, h: Hasher, r: nat, id: string)
    requires Placed(circle, h, r) && Complete(circle, h, r, id)
    ensures Slots(h, id, r) == circle.Keys - Others(circle, id).Keys
  {
    SlotsBound(h, id, r);
    forall k | k in Slots(h, id, r) ensures k in circle.Keys - Others(circle, id).Keys {
      var j := SlotOf(h, id, r, k);
    }
    forall k | k in circle.Keys - Others(circle, id).Keys ensures k in Slots(h, id, r) {
      var j :| 0 <= j < r && h(circle[k].id, j) == k;
    }
  }

  lemma DifferenceSize(a: set<nat>, b: set<nat>)
    requires b <= a
    ensures |a| == |b| + |a - b|
  {
    assert a == b + (a - b);
  }

  lemma OneNodeExact(circle: map<nat, Node>, h: Hasher, r: nat, id: string)
    requires Placed(circle, h, r) && Complete(circle, h, r, id)
    ensures |circle.Keys| == |Others(circle, id).Keys| + r
  {
    SlotsExact(h, id, r);
    SlotsAreKeys(circle, h, r, id);
    DifferenceSize(circle.Keys, Others(circle, id).Keys);
  }

  lemma OtherIdsExact(circle: map<nat, Node>, id: string)
    ensures Ids(Others(circle, id)) == Ids(circle) - {id}
  {
    var rest := Others(circle, id);
    OtherIds(circle, id, Ids(circle));
    forall x | x in Ids(circle) - {id} ensures x in Ids(rest) {
      var k :| k in circle && circle[k].id == x;
      assert k in rest && rest[k].id == x;
    }
  }

  lemma OthersFree(circle: map<nat, Node>, h: Hasher, r: nat, id: string)
    requires CollisionFree(circle, h, r)
    ensures CollisionFree(Others(circle, id), h, r)
  {
    var rest := Others(circle, id);
    OtherIdsExact(circle, id);
    forall x | x in Ids(rest) ensures Complete(rest, h, r, x) {
      assert Complete(circle, h, r, x);
    }
  }

  /** Without collisions the keys divided by r count the nodes. */
  lemma {:induction false} KeysExact(circle: map<nat, Node>, h: Hasher, r: nat)
    requires CollisionFree(circle, h, r)
    ensures |circle.Keys| == r * |Ids(circle)|
    decreases Ids(circle)
  {
    if Ids(circle) == {} {
      if circle.Keys != {} { SomeId(circle); }
    } else {
      var id :| id in Ids(circle);
      OneNodeExact(circle, h, r, id);
      OthersFree(circle, h, r, id);
      OtherIdsExact(circle, id);
      KeysExact(Others(circle, id), h, r);
      OneMore(r, |Ids(circle) - {id}|);
    }
  }

  /** Without collisions a walk for n nodes finds n of them, or all there are. */
  lemma CountIsNodes(circle: map<nat, Node>, h: Hasher, r: nat, s: seq<nat>)
    requires CollisionFree(circle, h, r) && Lists(s, circle.Keys) && r > 0
    ensures |s| / r == |Ids(circle)|
  {
    KeysExact(circle, h, r);
    ListSize(s, circle.Keys);
    DivOf(|s|, r, |Ids(circle)|);
  }

  lemma DivOf(x: nat, r: nat, n: nat)
    requires r > 0 && x == r * n
    ensures x / r == n
  {
    DivExact(x / r, r, n, x % r);
  }

  lemma DivExact(q: nat, r: nat, n: nat, m: nat)
    requires r > 0 && q * r + m == r * n && m < r
    ensures q == n
  {
    if q < n { Gap(q, r, n); } else if n < q { Gap(n, r, q); }
  }

  lemma Gap(a: nat, r: nat, b: nat)
    requires a < b
    ensures a * r + r <= b * r
  {
    assert (b - a - 1) * r >= 0;
    assert b * r - a * r - r == (b - a - 1) * r;
  }

  function Join(res: seq<Node>, n: Node): seq<Node> {
    if Has(res, n.id) then res else res + [n]
  }

  lemma WalkStep(s: seq<nat>, circle: map<nat, Node>, start: nat, i: nat, t: nat, n: int)
    requires Lists(s, circle.Keys) && start < |s| && 1 <= t < |s| && OnTheWay(i, start, t, |s|) && n <= |Ids(circle)|
    ensures var j := if i >= |s| then 0 else i;
      && j < |s| && s[j] in circle && OnTheWay(j + 1, start, t + 1, |s|)
      && Nearest(s, circle, start, t + 1) == Join(Nearest(s, circle, start, t), circle[s[j]])
      && (|Nearest(s, circle, start, t + 1)| < n ==> t + 1 < |s|)
  {
    var j := if i >= |s| then 0 else i;
    Around(i, start, t, |s|);
    NextNearest(s, circle, start, t, j);
    NotAround(s, circle, start, t + 1, n);
  }

  /** The first n nodes met clockwise of start, or all of them when n is not positive. */
  method Walk(s: seq<nat>, circle: map<nat, Node>, start: nat, n: int) returns (res: seq<Node>, ghost t: nat)
    requires Lists(s, circle.Keys) && start < |s| && n <= |Ids(circle)| && (n >= 1 || start > 0)
    ensures 1 <= t <= |s| && res == Nearest(s, circle, start, t)
    ensures if n >= 1 then |res| == n else t == |s|
  {
    t := 1;
    FirstNearest(s, circle, start);
    NotAround(s, circle, start, t, n);
    res := [circle[s[start]]];
    if |res| == n { return; }
    var i: nat := start + 1;
    while i != start
      invariant 1 <= t <= |s| && res == Nearest(s, circle, start, t) && OnTheWay(i, start, t, |s|)
      invariant |res| >= 1 && (n >= 1 ==> |res| < n && t < |s|)
      decreases |s| - t
    {
      WalkStep(s, circle, start, i, t, n);
      if i >= |s| { i := 0; }
      var elem := circle[s[i]];
      if !Has(res, elem.id) { res := res + [elem]; }
      t := t + 1;
      if |res| == n { return; }
      i := i + 1;
    }
  }

  lemma NextStep(s: seq<nat>, circle: map<nat, Node>, start: nat, i: nat, t: nat, first: Node)
    requires Lists(s, circle.Keys) && start < |s| && 1 <= t < |s| && OnTheWay(i, start, t, |s|)
    requires Nearest(s, circle, start, t) == [first]
    ensures var j := if i >= |s| then 0 else i;
      && j < |s| && s[j] in circle && OnTheWay(j + 1, start, t + 1, |s|)
      && Nearest(s, circle, start, t + 1) ==
         (if circle[s[j]].id == first.id then [first] else [first, circle[s[j]]])
      && (circle[s[j]].id == first.id && t + 1 == |s| ==> |Ids(circle)| <= 1)
      && (circle[s[j]].id != first.id ==> |Ids(circle)| > 1)
  {
    var j := if i >= |s| then 0 else i;
    Around(i, start, t, |s|);
    NextAfterOne(s, circle, start, t, j, first);
    if circle[s[j]].id == first.id {
      GoesOn(s, circle, start, t + 1);
    } else {
      TwoFound(s, circle, start, t + 1, first, circle[s[j]]);
    }
  }

  /** The first node clockwise of start that differs from the one there, or that one again if there is no other. */
  method NextDifferent(s: seq<nat>, circle: map<nat, Node>, start: nat, first: Node)
    returns (b: Option<Node>, ghost t: nat)
    requires Lists(s, circle.Keys) && start < |s| && first == circle[s[start]]
    requires |Ids(circle)| > 1 || start > 0
    ensures b.Some? && 1 <= t <= |s|
    ensures |Ids(circle)| > 1 ==> [first, b.value] == Nearest(s, circle, start, t)
    ensures |Ids(circle)| <= 1 ==> b.value.id == first.id
  {
    t := 1;
    FirstNearest(s, circle, start);
    GoesOn(s, circle, start, t);
    b := None;
    var i: nat := start + 1;
    while i != start
      invariant 1 <= t <= |s| && Nearest(s, circle, start, t) == [first] && OnTheWay(i, start, t, |s|)
      invariant t == |s| ==> |Ids(circle)| <= 1
      invariant t > 1 ==> b.Some? && b.value.id == first.id
      decreases |s| - t
    {
      NextStep(s, circle, start, i, t, first);
      if i >= |s| { i := 0; }
      b := Some(circle[s[i]]);
      t := t + 1;
      if b.value.id != first.id { return; }
      i := i + 1;
    }
  }

  // ---------------------------------------------------------------- the ring

  datatype Neighbors = EmptyCircle | Panic | Near(nodes: seq<Node>)

  class Consistent {
    const replicas: nat
    const hasher: Hasher
    var circle: map<nat, Node>
    var sortedHashes: seq<nat>

    ghost predicate Valid()
      reads this
    {
      replicas > 0 && Lists(sortedHashes, circle.Keys) && Placed(circle, hasher, replicas)
    }

    constructor (replicas: nat, hasher: Hasher)
      requires replicas > 0
      ensures Valid() && circle == map[] && this.replicas == replicas && this.hasher == hasher
    {
      this.replicas, this.hasher := replicas, hasher;
      circle, sortedHashes := map[], [];
    }

    /** Puts all replicas of the node on the ring. */
    method AddCache(n: Node)
      requires Valid()
      modifies this
      ensures Valid() && circle == Added(old(circle), hasher, n, replicas)
    {
      for i := 0 to replicas
        invariant circle == Added(old(circle), hasher, n, i)
      {
        circle := circle[hasher(n.id, i) := n];
      }
      sortedHashes := SortKeys(circle.Keys);
      AddedPlaced(old(circle), hasher, n, replicas);
    }

    method RemoveCache(id: string)
      requires Valid()
      modifies this
      ensures Valid() && circle == Removed(old(circle), hasher, id, replicas)
    {
      for i := 0 to replicas
        invariant circle == Removed(old(circle), hasher, id, i)
      {
        circle := circle - {hasher(id, i)};
      }
      sortedHashes := SortKeys(circle.Keys);
      RemovedPlaced(old(circle), hasher, id, replicas);
    }

    method ResetCache()
      requires Valid()
      modifies this
      ensures Valid() && circle == map[]
    {
      circle, sortedHashes := map[], [];
    }

    /** The index of the first key greater than k, wrapping around. */
    method Search(k: nat) returns (i: nat)
      requires Valid() && circle != map[]
      ensures i < |sortedHashes| && IsNext(circle.Keys, k, sortedHashes[i])
      ensures i == 0 <==> Wraps(circle.Keys, k)
    {
      NonEmpty(sortedHashes, circle);
      var lo, hi := 0, |sortedHashes|;
      while lo < hi
        invariant 0 <= lo <= hi <= |sortedHashes|
        invariant forall x :: 0 <= x < lo ==> sortedHashes[x] <= k
        invariant forall x :: hi <= x < |sortedHashes| ==> k < sortedHashes[x]
      {
        var mid := (lo + hi) / 2;
        if k < sortedHashes[mid] { hi := mid; } else { lo := mid + 1; }
      }
      i := if lo >= |sortedHashes| then 0 else lo;
      AtFirst(sortedHashes, circle.Keys, k, lo);
    }

    /** How many nodes a walk asks for at most. */
    function Wanted(n: int): int
      requires replicas > 0
      reads this
    {
      var count := |sortedHashes| / replicas;
      if count < n then count else n
    }

    /** The nearest nodes clockwise of k, each once, as many as wanted. A negative number panics when the list for it
        is made. When none is wanted the walk goes all the way round, unless it starts at position 0, where it does
        not stop. */
    method GetNeighbors(k: nat, n: int) returns (r: Neighbors)
      requires Valid() && (circle != map[] && n >= 0 ==> Wanted(n) >= 1 || !Wraps(circle.Keys, k))
      ensures r.EmptyCircle? <==> circle == map[]
      ensures r.Panic? <==> circle != map[] && n < 0
      ensures r.Near? && Wanted(n) >= 1 ==> |r.nodes| == Wanted(n)
      ensures r.Near? && Wanted(n) == 0 ==> IdsOf(r.nodes) == Ids(circle) && |r.nodes| == |Ids(circle)|
      ensures r.Near? && n >= 1 && CollisionFree(circle, hasher, replicas) ==>
        |r.nodes| == if |Ids(circle)| < n then |Ids(circle)| else n
      ensures r.Near? ==> exists i, t ::
        0 <= i < |sortedHashes| && IsNext(circle.Keys, k, sortedHashes[i]) && 1 <= t <= |sortedHashes| &&
        r.nodes == Nearest(sortedHashes, circle, i, t)
    {
      if circle == map[] { return EmptyCircle; }
      if n < 0 { return Panic; }
      var start := Search(k);
      CountFits(sortedHashes, circle, hasher, replicas, start);
      var res;
      ghost var t;
      res, t := Walk(sortedHashes, circle, start, Wanted(n));
      RoundExact(sortedHashes, circle, start);
      FreeWanted(circle, hasher, replicas, sortedHashes);
      return Near(res);
    }

    /** The node that serves k and the next different one clockwise. The second is left empty when the keys make up
        one set of replicas, and is the first node again on a ring of one node that lacks some of its keys. */
    method GetTwoNeighbors(k: nat) returns (a: Option<Node>, b: Option<Node>)
      requires Valid()
      requires circle != map[] ==> |sortedHashes| >= replicas || |Ids(circle)| > 1 || !Wraps(circle.Keys, k)
      ensures a.None? <==> circle == map[]
      ensures a.Some? ==> Serves(circle, k, a.value) && (b.None? <==> |sortedHashes| / replicas == 1)
      ensures b.Some? && |Ids(circle)| > 1 ==> a.Some? && exists i, t ::
        0 <= i < |sortedHashes| && IsNext(circle.Keys, k, sortedHashes[i]) && 1 <= t <= |sortedHashes| &&
        [a.value, b.value] == Nearest(sortedHashes, circle, i, t)
      ensures b.Some? && |Ids(circle)| <= 1 ==> a.Some? && b.value.id == a.value.id
      ensures a.Some? && CollisionFree(circle, hasher, replicas) ==> (b.Some? <==> |Ids(circle)| > 1)
    {
      if circle == map[] { return None, None; }
      var start := Search(k);
      var first := circle[sortedHashes[start]];
      FreeWanted(circle, hasher, replicas, sortedHashes);
      if |sortedHashes| / replicas == 1 { return Some(first), None; }
      ghost var t;
      if |sortedHashes| >= replicas { LoneNode(sortedHashes, circle, hasher, replicas); }
      b, t := NextDifferent(sortedHashes, circle, start, first);
      a := Some(first);
    }

    /** The one node that serves k. */
    method GetNeighbor(k: nat) returns (r: Option<Node>)
      requires Valid()
      ensures r.None? <==> circle == map[]
      ensures r.Some? ==> forall m :: Serves(circle, k, m) <==> m == r.value
    {
      if circle == map[] { return None; }
      var i := Search(k);
      assert sortedHashes[i] in circle;
      r := Some(circle[sortedHashes[i]]);
      forall m | Serves(circle, k, m) ensures m == r.value { ServesOne(circle, k, m, r.value); }
    }
  }

  /** The index the walk has after t rounds of its loop, when it has not found all it wants. */
  function Reached(start: nat, len: nat, t: nat): nat {
    if t == 0 then start + 1
    else
      var i := Reached(start, len, t - 1);
      if i >= len then 1 else i + 1
  }

  lemma {:induction false} ReachedAt(start: nat, len: nat, t: nat)
    requires start < len && t < len
    ensures Reached(start, len, t) == if start + 1 + t <= len then start + 1 + t else start + 1 + t - len
  {
    if t > 0 { ReachedAt(start, len, t - 1); }
  }

  /** The walk comes back to its start, and stops there, exactly when that is not position 0. */
  lemma {:induction false} BackIff(start: nat, len: nat)
    requires start < len
    ensures (exists t :: Reached(start, len, t) == start) <==> start > 0
  {
    ReachedAt(start, len, len - 1);
  }

  /** Without collisions a walk wants the number asked for, or all nodes there are. */
  lemma FreeWanted(circle: map<nat, Node>, h: Hasher, r: nat, s: seq<nat>)
    requires Lists(s, circle.Keys) && r > 0
    ensures CollisionFree(circle, h, r) ==> |s| / r == |Ids(circle)|
    ensures circle != map[] ==> |Ids(circle)| >= 1
  {
    if circle.Keys != {} { SomeId(circle); }
    if CollisionFree(circle, h, r) { CountIsNodes(circle, h, r, s); }
  }

  /** A walk that has met one node only has not been around, or there is no other. */
  lemma {:induction false} GoesOn(s: seq<nat>, circle: map<nat, Node>, start: nat, t: nat)
    requires Lists(s, circle.Keys) && start < |s| && |Nearest(s, circle, start, t)| == 1
    ensures t == |s| ==> |Ids(circle)| <= 1
  {
    if t == |s| { RoundExact(s, circle, start); }
  }

  lemma {:induction false} LoneNode(s: seq<nat>, circle: map<nat, Node>, h: Hasher, r: nat)
    requires Lists(s, circle.Keys) && s != [] && Placed(circle, h, r) && r > 0 && |s| / r != 1 && |s| >= r
    ensures |Ids(circle)| > 1
  {
    CountFits(s, circle, h, r, 0);
    Fits(|s|, r);
  }

  lemma Fits(x: nat, r: nat)
    requires x >= r > 0
    ensures x / r >= 1
  {}

  lemma {:induction false} TwoFound(s: seq<nat>, circle: map<nat, Node>, start: nat, t: nat, first: Node, second: Node)
    requires Lists(s, circle.Keys) && start < |s| && Nearest(s, circle, start, t) == [first, second]
    requires first.id != second.id
    ensures |Ids(circle)| > 1
  {
    NearestIn(s, circle, start, t);
    assert [first, second][0].id in IdsOf([first, second]) && [first, second][1].id in IdsOf([first, second]);
    SubsetSize({first.id, second.id}, Ids(circle));
  }

  lemma {:induction false} NearestIn(s: seq<nat>, circle: map<nat, Node>, start: nat, t: nat)
    requires Lists(s, circle.Keys) && start < |s|
    ensures IdsOf(Nearest(s, circle, start, t)) <= Ids(circle)
  {
    if t > 0 {
      NearestIn(s, circle, start, t - 1);
      var before, n := Nearest(s, circle, start, t - 1), Clockwise(s, circle, start, t - 1);
      assert circle[s[(start + t - 1) % |s|]].id in Ids(circle);
      if !Has(before, n.id) { AppendIds(before, n); }
    }
  }

  /** A full round meets every node once. */
  lemma {:induction false} RoundExact(s: seq<nat>, circle: map<nat, Node>, start: nat)
    requires Lists(s, circle.Keys) && start < |s|
    ensures var ns := Nearest(s, circle, start, |s|); IdsOf(ns) == Ids(circle) && |ns| == |Ids(circle)|
  {
    RoundIds(s, circle, start);
    NearestIn(s, circle, start, |s|);
    NearestIds(s, circle, start, |s|);
  }

  lemma {:induction false} AddedPlaced(circle: map<nat, Node>, h: Hasher, n: Node, r: nat)
    requires Placed(circle, h, r)
    ensures Placed(Added(circle, h, n, r), h, r)
  {
    var c := Added(circle, h, n, r);
    forall k | k in c ensures exists j :: 0 <= j < r && h(c[k].id, j) == k {
      AddedAt(circle, h, n, r, k);
    }
  }

  lemma {:induction false} RemovedPlaced(circle: map<nat, Node>, h: Hasher, id: string, r: nat)
    requires Placed(circle, h, r)
    ensures Placed(Removed(circle, h, id, r), h, r)
  {
    var c := Removed(circle, h, id, r);
    forall k | k in c ensures exists j :: 0 <= j < r && h(c[k].id, j) == k {
      RemovedAt(circle, h, id, r, k);
    }
  }

  lemma AtFirst(s: seq<nat>, keys: set<nat>, k: nat, lo: nat)
    requires Lists(s, keys) && s != [] && lo <= |s|
    requires forall x :: 0 <= x < lo ==> s[x] <= k
    requires forall x :: lo <= x < |s| ==> k < s[x]
    ensures lo == 0 || lo == |s| <==> Wraps(keys, k)
  {
    assert s[0] in keys && s[|s| - 1] in keys;
  }

  lemma NonEmpty(s: seq<nat>, circle: map<nat, Node>)
    requires Lists(s, circle.Keys) && circle != map[]
    ensures s != []
  {
    var k :| k in circle.Keys;
  }

  lemma {:induction false} FirstNearest(s: seq<nat>, circle: map<nat, Node>, start: nat)
    requires Lists(s, circle.Keys) && start < |s|
    ensures Nearest(s, circle, start, 1) == [circle[s[start]]]
  {
    assert Nearest(s, circle, start, 0) == [];
    assert (start + 0) % |s| == start;
  }

  /** As long as nodes are missing the walk has not been around. */
  lemma {:induction false} NotAround(s: seq<nat>, circle: map<nat, Node>, start: nat, t: nat, n: int)
    requires Lists(s, circle.Keys) && start < |s| && t <= |s| && n <= |Ids(circle)|
    ensures |Nearest(s, circle, start, t)| < n ==> t < |s|
  {
    RoundExact(s, circle, start);
  }

  /** There are at least as many nodes as full sets of replicas. */
  lemma {:induction false} CountFits(s: seq<nat>, circle: map<nat, Node>, h: Hasher, r: nat, start: nat)
    requires Lists(s, circle.Keys) && start < |s| && Placed(circle, h, r) && r > 0
    ensures |s| / r <= |Ids(circle)|
  {
    RoundExact(s, circle, start);
    FullRound(s, circle, h, r, start);
  }

  /** After t steps the index is t positions on, not yet wrapped when it is at the end. */
  predicate OnTheWay(i: nat, start: nat, t: nat, n: nat) {
    i == start + t <= n || (i == start + t - n && 0 < i)
  }

  lemma NextAfterOne(s: seq<nat>, circle: map<nat, Node>, start: nat, t: nat, i: nat, first: Node)
    requires Lists(s, circle.Keys) && start < |s| && t < |s| && i < |s| && (i == start + t || i == start + t - |s|)
    requires Nearest(s, circle, start, t) == [first]
    ensures Nearest(s, circle, start, t + 1) ==
      if circle[s[i]].id == first.id then [first] else [first, circle[s[i]]]
  {
    NextNearest(s, circle, start, t, i);
    assert [first][0] == first;
  }

  lemma Around(i: nat, start: nat, t: nat, n: nat)
    requires start < n && 1 <= t < n && OnTheWay(i, start, t, n)
    ensures var j := if i >= n then 0 else i;
      j < n && (j == start + t || j == start + t - n) && OnTheWay(j + 1, start, t + 1, n)
  {}

  lemma NextNearest(s: seq<nat>, circle: map<nat, Node>, start: nat, t: nat, i: nat)
    requires Lists(s, circle.Keys) && start < |s| && t < |s| && i < |s| && (i == start + t || i == start + t - |s|)
    ensures Nearest(s, circle, start, t + 1) ==
      var before := Nearest(s, circle, start, t);
      if Has(before, circle[s[i]].id) then before else before + [circle[s[i]]]
  {
    RoundTo(start, t, i, |s|);
  }
}
