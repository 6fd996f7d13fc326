/** The strings the ring hashes for the replicas of a node: the index in decimal, then the node id. */
module RingKeys {
  function Itoa(n: nat): string {
    if n < 10 then ["0123456789"[n]] else Itoa(n / 10) + ["0123456789"[n % 10]]
  }

  function NodeKey(id: string, i: nat): string {
    Itoa(i) + id
  }

  lemma {:induction false} ItoaOne(i: nat, j: nat)
    requires Itoa(i) == Itoa(j)
    ensures i == j
  {
    if i >= 10 && j >= 10 {
      var a, b := Itoa(i / 10), Itoa(j / 10);
      assert Itoa(i)[..|Itoa(i)| - 1] == a && Itoa(j)[..|Itoa(j)| - 1] == b;
      ItoaOne(i / 10, j / 10);
      assert Itoa(i)[|a|] == Itoa(j)[|b|];
    } else if i >= 10 {
      ItoaLength(i / 10);
    } else if j >= 10 {
      ItoaLength(j / 10);
    }
  }

  lemma {:induction false} ItoaLength(n: nat)
    ensures |Itoa(n)| >= 1
  {}

  /** Two nodes share a key exactly when the longer id is the shorter one behind the digits that its index lacks. */
  lemma {:induction false} KeyShared(a: string, i: nat, b: string, j: nat)
    requires |a| >= |b|
    ensures var d := |a| - |b|;
      NodeKey(a, i) == NodeKey(b, j) <==> a[d..] == b && Itoa(j) == Itoa(i) + a[..d]
  {
    var d := |a| - |b|;
    assert a == a[..d] + a[d..];
    if NodeKey(a, i) == NodeKey(b, j) {
      var key := NodeKey(a, i);
      assert |Itoa(j)| == |Itoa(i)| + d;
      assert Itoa(j) == key[..|Itoa(j)|] == Itoa(i) + a[..d];
      assert b == key[|Itoa(j)|..] == a[d..];
    }
    if a[d..] == b && Itoa(j) == Itoa(i) + a[..d] {
      assert NodeKey(b, j) == Itoa(i) + (a[..d] + a[d..]);
    }
  }

  /** Ids of one length never share a key. */
  lemma KeyUnique(a: string, i: nat, b: string, j: nat)
    requires |a| == |b| && NodeKey(a, i) == NodeKey(b, j)
    ensures a == b && i == j
  {
    KeyShared(a, i, b, j);
    assert a[0..] == a && Itoa(i) + a[..0] == Itoa(i);
    ItoaOne(i, j);
  }

  /** None of the r keys of a is one of b. */
  ghost predicate Apart(a: string, b: string, r: nat) {
    forall i, j :: 0 <= i < r && 0 <= j < r ==> NodeKey(a, i) != NodeKey(b, j)
  }

  lemma SameLength(a: string, b: string, r: nat)
    requires |a| == |b| && a != b
    ensures Apart(a, b, r)
  {
    forall i, j | 0 <= i < r && 0 <= j < r ensures NodeKey(a, i) != NodeKey(b, j) {
      if NodeKey(a, i) == NodeKey(b, j) { KeyUnique(a, i, b, j); }
    }
  }

  lemma TeenDigits(j: nat)
    requires j < 20
    ensures Itoa(j) == if j < 10 then ["0123456789"[j]] else ['1', "0123456789"[j - 10]]
  {
    if j >= 10 {
      assert j / 10 == 1 && j % 10 == j - 10 && Itoa(1) == ['1'];
    }
  }

  /** The only key below 20 that ids "1a" and "a" share. */
  lemma ElevenShared(i: nat, j: nat)
    requires i < 20 && j < 20
    ensures NodeKey("1a", i) == NodeKey("a", j) <==> i == 1 && j == 11
  {
    KeyShared("1a", i, "a", j);
    assert "1a"[1..] == "a" && "1a"[..1] == "1";
    TeenDigits(i);
    TeenDigits(j);
    if |Itoa(i)| == 1 && |Itoa(j)| == 2 {
      assert (Itoa(i) + "1")[0] == Itoa(i)[0] && (Itoa(i) + "1")[1] == '1';
      OneDigit(i);
      OneDigit(j - 10);
    }
  }

  lemma OneDigit(i: nat)
    requires i < 10
    ensures "0123456789"[i] == '1' <==> i == 1
  {}
}
