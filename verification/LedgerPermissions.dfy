/** Who may change a permission, what it becomes, and when a database keeps a super user. */
module LedgerPermissions {
  import opened Common
  import opened LedgerTypes
  import opened Transactions
  import opened LedgerProfiles
  import opened TokenSupply
  import opened TokenFlows
  import opened ArrearsPaths
  import opened BlockTree
  import opened ChainSpec

  /** The bit of value 4 makes a super user. */
  predicate IsSuper(u: DbUser) {
    u.permission.role % 8 >= 4
  }

  predicate IsUser(users: seq<DbUser>, a: Address) {
    exists i :: 0 <= i < |users| && users[i].address == a
  }

  /** Some entry of a lacks super permission. */
  predicate Lacks(users: seq<DbUser>, a: Address) {
    exists i :: 0 <= i < |users| && users[i].address == a && !IsSuper(users[i])
  }

  predicate HasSuper(users: seq<DbUser>) {
    exists i :: 0 <= i < |users| && IsSuper(users[i])
  }

  /** No two entries have super permission. */
  predicate OneSuper(users: seq<DbUser>) {
    forall i, j :: 0 <= i < j < |users| ==> !(IsSuper(users[i]) && IsSuper(users[j]))
  }

  /** Entry i is the last one of a. */
  predicate LastOf(users: seq<DbUser>, a: Address, i: nat) {
    i < |users| && users[i].address == a && forall j :: i < j < |users| ==> users[j].address != a
  }

  lemma SuperBit(u: DbUser)
    ensures u.permission.Super() <==> IsSuper(u)
  {
    var r := u.permission.role;
    assert r == 8 * (r / 8) + r % 8 && r / 4 == 2 * (r / 8) + r % 8 / 4;
  }

  lemma {:induction false} SupersCounted(users: seq<DbUser>)
    ensures CountSuper(users) <= 1 <==> OneSuper(users)
    ensures CountSuper(users) == 0 <==> !HasSuper(users)
  {
    if users != [] {
      var rest := users[1..];
      SupersCounted(rest);
      SuperBit(users[0]);
      assert forall i :: 0 <= i < |rest| ==> rest[i] == users[i + 1];
      if HasSuper(rest) {
        var i :| 0 <= i < |rest| && IsSuper(rest[i]);
        assert IsSuper(users[i + 1]);
      }
      if OneSuper(users) {
        forall i, j | 0 <= i < j < |rest| ensures !(IsSuper(rest[i]) && IsSuper(rest[j])) {
          assert rest[i] == users[i + 1] && rest[j] == users[j + 1];
        }
      }
      if OneSuper(rest) && !(IsSuper(users[0]) && HasSuper(rest)) {
        forall i, j | 0 <= i < j < |users| ensures !(IsSuper(users[i]) && IsSuper(users[j])) {
          assert users[j] == rest[j - 1];
          if i > 0 { assert users[i] == rest[i - 1]; }
        }
      }
    }
  }

  lemma DeniedIs(users: seq<DbUser>, a: Address)
    ensures Denied(users, a) <==> Lacks(users, a)
  {
    forall i | 0 <= i < |users| ensures users[i].permission.Super() <==> IsSuper(users[i]) { SuperBit(users[i]); }
  }

  lemma {:induction false} LastFound(users: seq<DbUser>, a: Address)
    ensures var i := FindLastUser(users, a); if IsUser(users, a) then i >= 0 && LastOf(users, a, i) else i == -1
  {
    if users != [] {
      var k := |users| - 1;
      LastFound(users[..k], a);
      if users[k].address != a && IsUser(users, a) {
        var i :| 0 <= i < |users| && users[i].address == a;
        assert users[..k][i].address == a;
      }
    }
  }

  // ---------------------------------------------------------------- one update

  /** The entries after an accepted update: the target's last one has the permission sent, or a new one that has it
      is appended. */
  ghost predicate Updated(users: seq<DbUser>, t: Body, after: seq<DbUser>)
    requires t.UpdatePermission?
  {
    if IsUser(users, t.targetUser) then
      exists i: nat :: LastOf(users, t.targetUser, i) && after == users[i := users[i].(permission := t.permission)]
    else after == users + [DbUser(t.targetUser, t.permission, 0, 0, 0, Unknown)]
  }

  /** The update takes super permission from its own sender, who has the only one. */
  predicate GivesUp(users: seq<DbUser>, a: Address, t: Body)
    requires t.UpdatePermission?
  {
    OneSuper(users) && t.targetUser == a && t.permission.role % 8 < 4
  }

  /** An update is refused exactly for an unknown database, for a sender who has an entry without super permission,
      and for a sender who would give up the only super permission. Otherwise the target gets what was sent and
      nothing else changes. */
  lemma PermissionIff(l: Ledger, key: nat, t: Body)
    requires t.UpdatePermission?
    ensures var r := ApplyPermission(l, key, t); var a := User(key);
      && (r.err.DatabaseNotFound? <==> t.target !in l.databases)
      && (t.target in l.databases ==> var users := l.databases[t.target].users;
            && (r.err.PermissionDeny? <==> Lacks(users, a))
            && (r.err.NoSuperUserLeft? <==> !Lacks(users, a) && GivesUp(users, a, t))
            && (r.err.NoErr? <==> !Lacks(users, a) && !GivesUp(users, a, t)))
      && (r.err.NoErr? ==> exists after ::
            && Updated(l.databases[t.target].users, t, after)
            && r.ledger == l.(databases := l.databases[t.target := l.databases[t.target].(users := after)]))
      && (!r.err.NoErr? ==> r.ledger == l)
  {
    if t.target in l.databases {
      var users := l.databases[t.target].users;
      DeniedIs(users, User(key));
      SupersCounted(users);
      LastFound(users, t.targetUser);
      SuperBit(DbUser(t.targetUser, t.permission, 0, 0, 0, Unknown));
    }
  }

  // ---------------------------------------------------------------- the last super user

  /** Some super entry is not the last one of the target. */
  ghost predicate OtherSuper(users: seq<DbUser>, a: Address) {
    exists i :: 0 <= i < |users| && IsSuper(users[i]) && !LastOf(users, a, i)
  }

  /** After an update there is a super user exactly if one was sent, or if there is one besides the changed entry. */
  lemma KeepsSuperIff(users: seq<DbUser>, t: Body, after: seq<DbUser>)
    requires t.UpdatePermission? && Updated(users, t, after)
    ensures HasSuper(after) <==> t.permission.role % 8 >= 4 || OtherSuper(users, t.targetUser)
  {
    if IsUser(users, t.targetUser) {
      var i: nat :| LastOf(users, t.targetUser, i) && after == users[i := users[i].(permission := t.permission)];
      forall j | 0 <= j < |users| && j != i ensures after[j] == users[j] && !LastOf(users, t.targetUser, j) {}
      if t.permission.role % 8 >= 4 { assert IsSuper(after[i]); }
      if OtherSuper(users, t.targetUser) {
        var j :| 0 <= j < |users| && IsSuper(users[j]) && !LastOf(users, t.targetUser, j);
        assert IsSuper(after[j]);
      }
    } else {
      assert after[|users|].permission == t.permission;
      forall j | 0 <= j < |users| ensures after[j] == users[j] && !LastOf(users, t.targetUser, j) {}
      if OtherSuper(users, t.targetUser) {
        var j :| 0 <= j < |users| && IsSuper(users[j]) && !LastOf(users, t.targetUser, j);
        assert IsSuper(after[j]);
      }
    }
  }

  /** An accepted update takes the last super permission of a database exactly if its sender is no user of the database
      and the only super entry is the one it changes to less. */
  lemma LosesSuperIff(l: Ledger, key: nat, t: Body)
    requires t.UpdatePermission? && t.target in l.databases && HasSuper(l.databases[t.target].users)
    requires ApplyPermission(l, key, t).err.NoErr?
    ensures var users := l.databases[t.target].users;
      var after := ApplyPermission(l, key, t).ledger.databases[t.target].users;
      !HasSuper(after) <==>
        !IsUser(users, User(key)) && t.permission.role % 8 < 4 && !OtherSuper(users, t.targetUser)
  {
    PermissionIff(l, key, t);
    var users := l.databases[t.target].users;
    var after := ApplyPermission(l, key, t).ledger.databases[t.target].users;
    assert Updated(users, t, after);
    KeepsSuperIff(users, t, after);
    if IsUser(users, User(key)) && t.permission.role % 8 < 4 { UserKeeps(users, User(key), t); }
  }

  /** A sender with super permission who takes it from somebody else, or from one of several, leaves one. */
  lemma UserKeeps(users: seq<DbUser>, a: Address, t: Body)
    requires t.UpdatePermission? && IsUser(users, a) && !Lacks(users, a) && !GivesUp(users, a, t)
    requires t.permission.role % 8 < 4
    ensures OtherSuper(users, t.targetUser)
  {
    var i :| 0 <= i < |users| && users[i].address == a;
    assert IsSuper(users[i]);
    if t.targetUser == a {
      var j, k :| 0 <= j < k < |users| && IsSuper(users[j]) && IsSuper(users[k]);
      if LastOf(users, a, j) {
        assert !LastOf(users, a, k);
      } else {
        assert OtherSuper(users, a);
      }
    } else {
      assert !LastOf(users, t.targetUser, i);
    }
  }

  // ---------------------------------------------------------------- a stranger's update

  const OWNER := User(1)
  const STRANGER := User(9)
  const DB := Database(OWNER, 1)
  const OWNED := Profile(1, 0, Particle, OWNER, [], [DbUser(OWNER, ADMIN, 0, 0, 0, Normal)])

  /** Somebody who is no user of the database takes super permission from its only super user, and gives it to
      themselves. */
  lemma StrangerRules(l: Ledger)
    requires DB in l.databases && l.databases[DB] == OWNED
    ensures var r := ApplyPermission(l, 9, UpdatePermission(DB, OWNER, Permission(1)));
      r.err.NoErr? && !HasSuper(r.ledger.databases[DB].users)
    ensures var r := ApplyPermission(l, 9, UpdatePermission(DB, STRANGER, ADMIN));
      && r.err.NoErr?
      && exists i: nat :: LastOf(r.ledger.databases[DB].users, STRANGER, i) && IsSuper(r.ledger.databases[DB].users[i])
  {
    var users := OWNED.users;
    var take, give := UpdatePermission(DB, OWNER, Permission(1)), UpdatePermission(DB, STRANGER, ADMIN);
    PermissionIff(l, 9, take);
    assert users[0].address == OWNER && IsSuper(users[0]);
    LosesSuperIff(l, 9, take);
    PermissionIff(l, 9, give);
    var after := ApplyPermission(l, 9, give).ledger.databases[DB].users;
    assert Updated(users, give, after);
    assert LastOf(after, STRANGER, 1);
  }

  // ---------------------------------------------------------------- along paths

  /** The same entries with the same permissions. */
  ghost predicate SamePermissions(users: seq<DbUser>, after: seq<DbUser>) {
    |after| == |users| && forall i :: 0 <= i < |users| ==>
      after[i].address == users[i].address && after[i].permission == users[i].permission
  }

  /** Databases that stay have the same permissions, and a new one has its owner as super user. */
  ghost predicate SameUsers(l: Ledger, m: Ledger) {
    && (forall d :: d in l.databases ==>
          d in m.databases && SamePermissions(l.databases[d].users, m.databases[d].users))
    && (forall d :: d in m.databases && d !in l.databases ==> HasSuper(m.databases[d].users))
  }

  lemma {:induction false} BilledUsers(costs: seq<UserCost>, gas: u64, users: seq<DbUser>, ms: seq<Miner>)
    ensures SamePermissions(users, BillUsers(costs, gas, users, ms).users)
  {
    if users != [] { BilledUsers(costs, gas, users[..|users| - 1], ms); }
  }

  lemma PaidSame(cfg: Config, p: Profile, t: Body, i: nat)
    requires t.Transfer? && i < |p.users| && Paid(cfg, p, t, i).Some?
    ensures SamePermissions(p.users, Paid(cfg, p, t, i).value.users)
  {}

  lemma PaidUsers(cfg: Config, l: Ledger, key: nat, t: Body)
    requires t.Transfer?
    ensures SameUsers(l, TransferToDatabase(cfg, l, key, t).ledger)
  {
    if !Pays(l, key, t) {
      NoPayment(cfg, l, key, t);
    } else {
      var p := l.databases[t.receiver];
      PaymentStores(cfg, l, key, t);
      var i := FindUser(p.users, t.sender);
      if Paid(cfg, p, t, i).Some? { PaidSame(cfg, p, t, i); }
    }
  }

  lemma CreatedUsers(cfg: Config, l: Ledger, key: nat, nonce: nat, t: Body)
    requires t.CreateDatabase?
    ensures SameUsers(l, MatchProvidersWithUser(cfg, l, key, nonce, t).ledger)
  {
    var r := MatchProvidersWithUser(cfg, l, key, nonce, t);
    CreateTerms(cfg, l, key, nonce, t);
    if r.err.NoErr? && r.ledger != l {
      CreateIs(cfg, l, key, nonce, t);
      var p := r.ledger.databases[Database(User(key), nonce)];
      assert p.users[0].permission == ADMIN && IsSuper(p.users[0]);
    } else {
      RefusedKeeps(cfg, l, key, nonce, t);
    }
  }

  /** No other kind of transaction changes a permission. */
  lemma OthersKeepUsers(cfg: Config, l: Ledger, tx: Tx, height: nat)
    requires !tx.body.UpdatePermission?
    ensures SameUsers(l, ApplyBody(cfg, l, tx, height).ledger)
  {
    match tx.body
    case Transfer(_, _, _, _) =>
      PaidUsers(cfg, l, tx.key, tx.body);
      AccountTransferTerms(l, tx.key, tx.body);
    case ProvideService(_, _, _, _, _, _) => ProviderTerms(cfg, l, tx.key, tx.body, height);
    case CreateDatabase(_, _, _, _, _, _, _, _, _) => CreatedUsers(cfg, l, tx.key, tx.nonce, tx.body);
    case IssueKeys(_) =>
    case UpdateBilling(billed, costs, _, _, _) =>
      if billed in l.databases {
        var p := l.databases[billed];
        BilledUsers(costs, p.gasPrice, p.users, Receive(p.miners));
      }
  }

  ghost predicate AllSuper(l: Ledger) {
    forall d :: d in l.databases ==> HasSuper(l.databases[d].users)
  }

  /** A permission update is sent by a user of the database. */
  ghost predicate FromUser(l: Ledger, tx: Tx) {
    tx.body.UpdatePermission? && tx.body.target in l.databases ==>
      IsUser(l.databases[tx.body.target].users, User(tx.key))
  }

  lemma SameKeepsSuper(l: Ledger, m: Ledger)
    requires SameUsers(l, m) && AllSuper(l)
    ensures AllSuper(m)
  {
    forall d | d in m.databases ensures HasSuper(m.databases[d].users) {
      if d in l.databases {
        var users := l.databases[d].users;
        assert HasSuper(users);
        var i :| 0 <= i < |users| && IsSuper(users[i]);
        assert IsSuper(m.databases[d].users[i]);
      }
    }
  }

  lemma UpdateKeepsSuper(l: Ledger, tx: Tx)
    requires tx.body.UpdatePermission? && AllSuper(l) && FromUser(l, tx)
    ensures AllSuper(ApplyPermission(l, tx.key, tx.body).ledger)
  {
    PermissionIff(l, tx.key, tx.body);
    if ApplyPermission(l, tx.key, tx.body).err.NoErr? { LosesSuperIff(l, tx.key, tx.body); }
  }

  lemma ApplyKeepsSuper(cfg: Config, l: Ledger, tx: Tx, height: nat)
    requires AllSuper(l) && FromUser(l, tx)
    ensures AllSuper(Apply(cfg, l, tx, height).ledger)
  {
    var m := ApplyBody(cfg, l, tx, height).ledger;
    if tx.body.UpdatePermission? {
      UpdateKeepsSuper(l, tx);
    } else {
      OthersKeepUsers(cfg, l, tx, height);
      SameKeepsSuper(l, m);
    }
  }

  ghost predicate FromUsers(cfg: Config, l: Ledger, txs: seq<Tx>, h: nat) {
    txs == [] ||
    (FromUsers(cfg, l, txs[..|txs| - 1], h) &&
     (ApplyAll(cfg, l, txs[..|txs| - 1], h).Some? ==>
       FromUser(ApplyAll(cfg, l, txs[..|txs| - 1], h).value, txs[|txs| - 1])))
  }

  /** On the way to n every permission update is sent by a user of the database. */
  ghost predicate FromUsersPath(cfg: Config, g: Ledger, n: Node) {
    n.parent.None? ||
    (FromUsersPath(cfg, g, n.parent.value) &&
     (LedgerAt(cfg, g, n.parent.value).Some? ==>
       FromUsers(cfg, LedgerAt(cfg, g, n.parent.value).value, n.block.txs, n.Height())))
  }

  lemma {:induction false} AllKeepSuper(cfg: Config, l: Ledger, txs: seq<Tx>, h: nat)
    requires AllSuper(l) && FromUsers(cfg, l, txs, h) && ApplyAll(cfg, l, txs, h).Some?
    ensures AllSuper(ApplyAll(cfg, l, txs, h).value)
  {
    if txs != [] {
      var init := txs[..|txs| - 1];
      AllKeepSuper(cfg, l, init, h);
      ApplyKeepsSuper(cfg, ApplyAll(cfg, l, init, h).value, txs[|txs| - 1], h);
    }
  }

  /** Along every such path every database has a super user. */
  lemma {:induction false} PathKeepsSuper(cfg: Config, g: Ledger, n: Node)
    requires AllSuper(g) && FromUsersPath(cfg, g, n) && LedgerAt(cfg, g, n).Some?
    ensures AllSuper(LedgerAt(cfg, g, n).value)
  {
    if n.parent.Some? {
      PathKeepsSuper(cfg, g, n.parent.value);
      AllKeepSuper(cfg, LedgerAt(cfg, g, n.parent.value).value, n.block.txs, n.Height());
    }
  }
}
