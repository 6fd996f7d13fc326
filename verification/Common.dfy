/** What the parts of the model share. */
module Common {
  datatype Option<+T> = None | Some(value: T)

  method Least(s: set<nat>) returns (m: nat)
    requires s != {}
    ensures m in s && forall x :: x in s ==> m <= x
  {
    m :| m in s;
    var left := s - {m};
    while left != {}
      invariant m in s && left <= s && forall x :: x in s && x !in left ==> m <= x
      decreases left
    {
      var x :| x in left;
      if x < m { m := x; }
      left := left - {x};
    }
  }
}
