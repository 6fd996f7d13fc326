/** The Merkle tree: rounding up to a power of two by smearing bits, and the tree built level by
    level in one array. */
module Merkle {
  import opened Common

  // ---------------------------------------------------------------- bits

  function Pow2(k: nat): (r: nat)
    ensures r >= 1
  {
    if k == 0 then 1 else 2 * Pow2(k - 1)
  }

  /** Bitwise or. */
  function Or(a: nat, b: nat): nat
    decreases a + b
  {
    if a == 0 && b == 0 then 0
    else 2 * Or(a / 2, b / 2) + if a % 2 == 1 || b % 2 == 1 then 1 else 0
  }

  /** Shift to the right by k bits. */
  function Shr(x: nat, k: nat): nat
    decreases k
  {
    if k == 0 then x else Shr(x / 2, k - 1)
  }

  lemma {:induction false} OrZero(a: nat)
    ensures Or(a, 0) == a
  {
    if a > 0 { OrZero(a / 2); }
  }

  lemma {:induction false} PowMono(i: nat, j: nat)
    requires i <= j
    ensures Pow2(i) <= Pow2(j)
    decreases j
  {
    if i < j { PowMono(i, j - 1); }
  }

  /** How many bits x has. */
  function Width(x: nat): (w: nat)
    ensures x < Pow2(w) && (x > 0 ==> w > 0 && Pow2(w - 1) <= x) && (x == 0 ==> w == 0)
  {
    if x == 0 then 0 else Width(x / 2) + 1
  }

  /** x has at most w bits, and all of them from bit a on are set. */
  predicate SetFrom(x: nat, w: nat, a: nat) {
    a <= w && Pow2(w) - Pow2(a) <= x < Pow2(w)
  }

  function Less(a: nat, k: nat): nat { if k <= a then a - k else 0 }

  lemma {:induction false} ShrSet(x: nat, w: nat, a: nat, k: nat)
    requires SetFrom(x, w, a) && k <= w
    ensures SetFrom(Shr(x, k), w - k, Less(a, k))
    decreases k
  {
    if k > 0 {
      assert SetFrom(x / 2, w - 1, Less(a, 1));
      ShrSet(x / 2, w - 1, Less(a, 1), k - 1);
    }
  }

  /** Below the set bits, oring shows the other operand. */
  lemma {:induction false} OrSet(x: nat, s: nat, w: nat, a: nat)
    requires SetFrom(x, w, a) && s < Pow2(a)
    ensures Pow2(w) - Pow2(a) + s <= Or(x, s) < Pow2(w)
    decreases w
  {
    if a == 0 {
      OrZero(x);
    } else {
      OrSet(x / 2, s / 2, w - 1, a - 1);
    }
  }

  /** Oring in a shift by k doubles a run of k set bits. */
  lemma {:induction false} Smear(x: nat, w: nat, k: nat)
    requires k <= w && SetFrom(x, w, w - k)
    ensures SetFrom(Or(x, Shr(x, k)), w, Less(w, 2 * k))
  {
    ShrSet(x, w, w - k, k);
    OrSet(x, Shr(x, k), w, w - k);
  }

  /** Shifting by at least the width changes nothing. */
  lemma {:induction false} ShrAll(x: nat, w: nat, k: nat)
    requires x < Pow2(w) && w <= k
    ensures Shr(x, k) == 0
    decreases k
  {
    if k > 0 { ShrAll(x / 2, if w == 0 then 0 else w - 1, k - 1); }
  }

  lemma {:induction false} SmearMore(x: nat, w: nat, k: nat)
    requires w < k && SetFrom(x, w, 0)
    ensures Or(x, Shr(x, k)) == x
  {
    ShrAll(x, w, k);
    OrZero(x);
  }

  const WORD: nat := 0x1_0000_0000_0000_0000

  /** One step of the trick. */
  lemma {:induction false} SmearStep(x: nat, w: nat, k: nat)
    requires SetFrom(x, w, Less(w, k))
    ensures SetFrom(Or(x, Shr(x, k)), w, Less(w, 2 * k))
  {
    if k <= w { Smear(x, w, k); } else { SmearMore(x, w, k); }
  }

  lemma PowWord()
    ensures Pow2(64) == WORD && Pow2(63) == WORD / 2
  {
    assert Pow2(8) == 256;
    assert Pow2(16) == 65536;
    assert Pow2(24) == 16777216;
    assert Pow2(32) == 4294967296;
    assert Pow2(40) == 1099511627776;
    assert Pow2(48) == 281474976710656;
    assert Pow2(56) == 72057594037927936;
    assert Pow2(63) == 9223372036854775808;
  }

  /** One line of the trick. */
  method SmearBy(x: nat, k: nat, ghost w: nat) returns (r: nat)
    requires SetFrom(x, w, Less(w, k))
    ensures SetFrom(r, w, Less(w, 2 * k))
  {
    SmearStep(x, w, k);
    r := Or(x, Shr(x, k));
  }

  method SmearAll(x: nat, ghost w: nat) returns (r: nat)
    requires w <= 64 && SetFrom(x, w, Less(w, 1))
    ensures r + 1 == Pow2(w)
  {
    r := SmearBy(x, 1, w);
    r := SmearBy(r, 2, w);
    r := SmearBy(r, 4, w);
    r := SmearBy(r, 8, w);
    r := SmearBy(r, 16, w);
    r := SmearBy(r, 32, w);
  }

  /** r is the least power of two not below n. */
  ghost predicate Rounded(n: nat, r: nat) {
    exists k :: IsRounded(n, r, k)
  }

  ghost predicate IsRounded(n: nat, r: nat, k: nat) {
    r == Pow2(k) && n <= r && (k > 0 ==> Pow2(k - 1) < n)
  }

  lemma RoundedFits(n: nat)
    requires 1 <= n <= WORD / 2
    ensures Rounded(n, Pow2(Width(n - 1))) && Pow2(Width(n - 1)) % WORD == Pow2(Width(n - 1))
  {
    PowWord();
    WidthWord(n - 1);
    PowMono(Width(n - 1), 63);
    assert IsRounded(n, Pow2(Width(n - 1)), Width(n - 1));
  }

  lemma {:induction false} Wraps(x: nat)
    requires WORD / 2 <= x < WORD
    ensures Pow2(Width(x)) % WORD == 0
  {
    WidthWord(x);
    PowWord();
  }

  /** Rounds up to a power of two in 64-bit arithmetic: the least one not below n, or 0 if there is
      none. */
  method UpperPowOfTwo(n: nat) returns (r: nat)
    requires n < WORD
    ensures 1 <= n <= WORD / 2 ==> Rounded(n, r)
    ensures n == 0 || n > WORD / 2 ==> r == 0
  {
    var x := if n == 0 then WORD - 1 else n - 1;
    WidthWord(x);
    if 1 <= n <= WORD / 2 { RoundedFits(n); } else { Wraps(x); }
    r := SmearAll(x, Width(x));
    r := (r + 1) % WORD;
  }

  lemma {:induction false} WidthWord(x: nat)
    requires x < WORD
    ensures Width(x) <= 64 && (x < WORD / 2 ==> Width(x) < 64) && (x >= WORD / 2 ==> Width(x) == 64)
  {
    PowWord();
    var w := Width(x);
    if w < 64 {
      PowMono(w, 63);
    } else if w == 64 {
      PowMono(63, w - 1);
    } else {
      PowMono(64, w - 1);
    }
  }

  // ---------------------------------------------------------------- the tree

  /** Hashes do not collide. */
  datatype Hash = Zero | Item(id: nat) | Merged(left: Hash, right: Hash)

  /** The next level: neighbours merged, a last odd one with itself. */
  function Up(level: seq<Hash>): seq<Hash> {
    if level == [] then []
    else if |level| == 1 then [Merged(level[0], level[0])]
    else [Merged(level[0], level[1])] + Up(level[2..])
  }

  lemma {:induction false} UpAt(level: seq<Hash>, i: nat)
    ensures |Up(level)| == (|level| + 1) / 2
    ensures i < |Up(level)| ==>
      Up(level)[i] == Merged(level[2 * i], level[if 2 * i + 1 < |level| then 2 * i + 1 else 2 * i])
  {
    if |level| > 1 { UpAt(level[2..], if i > 0 then i - 1 else 0); }
  }

  /** The root of the tree in which every odd level repeats its last node. */
  function Root(level: seq<Hash>): Hash
    requires level != []
    decreases |level|
  {
    if |level| == 1 then level[0]
    else
      UpAt(level, 0);
      Root(Up(level))
  }

  lemma {:induction false} UpInjective(a: seq<Hash>, b: seq<Hash>)
    requires |a| == |b| && Up(a) == Up(b)
    ensures a == b
  {
    forall i | 0 <= i < |a| ensures a[i] == b[i] {
      UpAt(a, i / 2);
      UpAt(b, i / 2);
    }
  }

  /** The root binds the items: lists of one length with one root are equal. */
  lemma {:induction false} RootInjective(a: seq<Hash>, b: seq<Hash>)
    requires |a| == |b| > 0 && Root(a) == Root(b)
    ensures a == b
    decreases |a|
  {
    if |a| > 1 {
      UpAt(a, 0);
      UpAt(b, 0);
      RootInjective(Up(a), Up(b));
      UpInjective(a, b);
    }
  }

  /** Across lengths it does not; for one, repeating the last item of an odd list keeps the root. */
  lemma {:induction false} RootRepeats(s: seq<Hash>)
    requires |s| % 2 == 1 && |s| > 1
    ensures Root(s + [s[|s| - 1]]) == Root(s)
  {
    var t := s + [s[|s| - 1]];
    UpAt(s, 0);
    UpAt(t, 0);
    forall i | 0 <= i < |Up(s)| ensures Up(t)[i] == Up(s)[i] {
      UpAt(s, i);
      UpAt(t, i);
    }
    assert Up(t) == Up(s);
  }

  /** The levels above n items. */
  function Depth(n: nat): nat {
    if n <= 1 then 0 else 1 + Depth((n + 1) / 2)
  }

  /** Which of n items leaf j of the full tree is: an item beyond the end of a level is the one before it. */
  function Position(n: nat, j: nat): (p: nat)
    requires n > 0
    ensures p < n
  {
    if n == 1 then 0
    else
      var i := Position((n + 1) / 2, j / 2);
      if 2 * i + j % 2 < n then 2 * i + j % 2 else 2 * i
  }

  function Leaf(level: seq<Hash>, j: nat): Hash
    requires level != []
  {
    level[Position(|level|, j)]
  }

  /** The two lists fill the leaves of a tree of depth k alike. */
  ghost predicate SameLeaves(a: seq<Hash>, b: seq<Hash>, k: nat)
    requires a != [] && b != []
  {
    forall j :: 0 <= j < Pow2(k) ==> Leaf(a, j) == Leaf(b, j)
  }

  lemma {:induction false} LeafUp(level: seq<Hash>, j: nat)
    requires |level| > 1
    ensures Up(level) != [] && Leaf(Up(level), j) == Merged(Leaf(level, 2 * j), Leaf(level, 2 * j + 1))
  {
    UpAt(level, 0);
    UpAt(level, Position(|Up(level)|, j));
  }

  lemma {:induction false} LeavesUp(a: seq<Hash>, b: seq<Hash>, k: nat)
    requires |a| > 1 && |b| > 1
    ensures Up(a) != [] && Up(b) != [] && (SameLeaves(Up(a), Up(b), k) <==> SameLeaves(a, b, k + 1))
  {
    UpAt(a, 0);
    UpAt(b, 0);
    if SameLeaves(Up(a), Up(b), k) {
      forall j | 0 <= j < Pow2(k + 1) ensures Leaf(a, j) == Leaf(b, j) {
        LeafUp(a, j / 2);
        LeafUp(b, j / 2);
        assert Leaf(Up(a), j / 2) == Leaf(Up(b), j / 2);
      }
    }
    if SameLeaves(a, b, k + 1) {
      forall j | 0 <= j < Pow2(k) ensures Leaf(Up(a), j) == Leaf(Up(b), j) {
        LeafUp(a, j);
        LeafUp(b, j);
        assert Leaf(a, 2 * j) == Leaf(b, 2 * j) && Leaf(a, 2 * j + 1) == Leaf(b, 2 * j + 1);
      }
    }
  }

  lemma {:induction false} SameDepth(a: seq<Hash>, b: seq<Hash>)
    requires a != [] && b != [] && Depth(|a|) == Depth(|b|)
    ensures Root(a) == Root(b) <==> SameLeaves(a, b, Depth(|a|))
    decreases |a|
  {
    if |a| == 1 {
      assert SameLeaves(a, b, 0) <==> Leaf(a, 0) == Leaf(b, 0);
    } else {
      UpAt(a, 0);
      UpAt(b, 0);
      SameDepth(Up(a), Up(b));
      LeavesUp(a, b, Depth(|a|) - 1);
    }
  }

  /** How often a hash is merged on its left side. */
  function Spine(h: Hash): nat {
    if h.Merged? then 1 + Spine(h.left) else 0
  }

  lemma {:induction false} RootSpine(level: seq<Hash>)
    requires level != []
    ensures Spine(Root(level)) == Depth(|level|) + Spine(level[0])
    decreases |level|
  {
    if |level| > 1 {
      UpAt(level, 0);
      RootSpine(Up(level));
    }
  }

  /** Two lists of items have one root exactly if their trees have one depth and the same leaves. */
  lemma {:induction false} SameRoot(a: seq<Hash>, b: seq<Hash>)
    requires a != [] && b != [] && !a[0].Merged? && !b[0].Merged?
    ensures Root(a) == Root(b) <==> Depth(|a|) == Depth(|b|) && SameLeaves(a, b, Depth(|a|))
  {
    RootSpine(a);
    RootSpine(b);
    if Depth(|a|) == Depth(|b|) { SameDepth(a, b); }
  }

  /** The array cell c when the items are padded to 2^k: levels follow one another, each half as
      wide as the one before. */
  function Cell(level: seq<Hash>, k: nat, c: nat): Option<Hash>
    decreases k
  {
    if c < Pow2(k) then (if c < |level| then Some(level[c]) else None)
    else if k == 0 then None
    else Cell(Up(level), k - 1, c - Pow2(k))
  }

  function Combine(l: Option<Hash>, r: Option<Hash>): Option<Hash> {
    if l.None? then None else if r.None? then Some(Merged(l.value, l.value)) else Some(Merged(l.value, r.value))
  }

  /** Each cell above the items combines two cells before it, at positions given by its offset. */
  lemma {:induction false} CellLinks(level: seq<Hash>, k: nat, c: nat)
    requires Pow2(k) <= c < 2 * Pow2(k) - 1
    ensures var i := c - Pow2(k); Cell(level, k, c) == Combine(Cell(level, k, 2 * i), Cell(level, k, 2 * i + 1))
    decreases k
  {
    var i := c - Pow2(k);
    if i < Pow2(k - 1) {
      UpAt(level, i);
    } else {
      CellLinks(Up(level), k - 1, i);
    }
  }

  /** With the least sufficient width the last cell is the root. */
  lemma {:induction false} CellRoot(level: seq<Hash>, k: nat)
    requires 1 <= |level| <= Pow2(k) && (k > 0 ==> Pow2(k - 1) < |level|)
    ensures Cell(level, k, 2 * Pow2(k) - 2) == Some(Root(level))
    decreases k
  {
    if k > 0 {
      UpAt(level, 0);
      CellRoot(Up(level), k - 1);
    }
  }

  method CopyItems(tree: array<Option<Hash>>, items: seq<Hash>)
    requires |items| <= tree.Length && forall c :: 0 <= c < tree.Length ==> tree[c] == None
    modifies tree
    ensures forall c :: 0 <= c < tree.Length ==> tree[c] == if c < |items| then Some(items[c]) else None
  {
    for j := 0 to |items|
      invariant forall c :: 0 <= c < tree.Length ==> tree[c] == if c < j then Some(items[c]) else None
    {
      tree[j] := Some(items[j]);
    }
  }

  /** Each further cell combines the next two cells. */
  method Fill(tree: array<Option<Hash>>, w: nat, ghost items: seq<Hash>, ghost k: nat)
    requires w == Pow2(k) && tree.Length == 2 * w - 1
    requires forall c :: 0 <= c < w ==> tree[c] == Cell(items, k, c)
    modifies tree
    ensures forall c :: 0 <= c < tree.Length ==> tree[c] == Cell(items, k, c)
  {
    var offset := w;
    var i := 0;
    while i < 2 * w - 2
      invariant w <= offset <= 2 * w - 1 && i == 2 * (offset - w)
      invariant forall c :: 0 <= c < offset ==> tree[c] == Cell(items, k, c)
    {
      CellLinks(items, k, offset);
      if tree[i].Some? && tree[i + 1].Some? {
        tree[offset] := Some(Merged(tree[i].value, tree[i + 1].value));
      } else if tree[i].Some? {
        tree[offset] := Some(Merged(tree[i].value, tree[i].value));
      } else {
        tree[offset] := None;
      }
      offset := offset + 1;
      i := i + 2;
    }
  }

  /** Builds the tree in one array; its last cell is the root. */
  method NewMerkle(given: seq<Hash>) returns (tree: array<Option<Hash>>)
    requires |given| <= WORD / 2
    ensures fresh(tree) && tree.Length > 0
    ensures tree[tree.Length - 1] == Some(Root(if given == [] then [Zero] else given))
  {
    var items := if given == [] then [Zero] else given;
    var upper := UpperPowOfTwo(|items|);
    ghost var k :| IsRounded(|items|, upper, k);
    tree := new Option<Hash>[upper * 2 - 1](i => None);
    CopyItems(tree, items);
    Fill(tree, upper, items, k);
    CellRoot(items, k);
  }
}
