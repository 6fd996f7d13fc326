/** The block ranges that accepted bills cover. */
module BillingRanges {
  import opened Common
  import opened LedgerTypes
  import opened Transactions
  import opened LedgerProfiles
  import opened BlockTree
  import opened ChainSpec

  /** Every database has a price; creation refuses a price of zero. */
  ghost predicate Priced(l: Ledger) {
    forall d :: d in l.databases ==> l.databases[d].gasPrice > 0
  }

  function LastUpdated(l: Ledger, d: Address): nat {
    if d in l.databases then l.databases[d].lastUpdated else 0
  }

  predicate Bills(tx: Tx, d: Address) {
    tx.body.UpdateBilling? && tx.body.billed == d
  }

  /** The ranges of the bills for database d, oldest first. */
  function Ranges(txs: seq<Tx>, d: Address): seq<(nat, nat)> {
    if txs == [] then []
    else
      var last := txs[|txs| - 1];
      Ranges(txs[..|txs| - 1], d) + if Bills(last, d) then [(last.body.from, last.body.to)] else []
  }

  ghost predicate Versioned(txs: seq<Tx>, d: Address) {
    forall i :: 0 <= i < |txs| && Bills(txs[i], d) ==> txs[i].body.version > 0
  }

  /** Non-empty ranges that follow one another from start to end without gap or overlap. */
  ghost predicate Tile(start: nat, rs: seq<(nat, nat)>, end: nat) {
    if rs == [] then start == end
    else
      var last := rs[|rs| - 1];
      last.0 < last.1 == end && Tile(start, rs[..|rs| - 1], last.0)
  }

  lemma BodyUpdated(cfg: Config, l: Ledger, tx: Tx, height: nat, d: Address)
    requires Priced(l) && ApplyBody(cfg, l, tx, height).err.NoErr?
    ensures var m := ApplyBody(cfg, l, tx, height).ledger;
      && Priced(m)
      && if Bills(tx, d) && tx.body.version > 0
         then tx.body.from < tx.body.to && tx.body.from == LastUpdated(l, d) && tx.body.to == LastUpdated(m, d)
         else Bills(tx, d) || LastUpdated(m, d) == LastUpdated(l, d)
  {
    match tx.body
    case Transfer(_, _, _, _) =>
      TransferTerms(cfg, l, tx.key, tx.body);
      AccountTransferTerms(l, tx.key, tx.body);
    case ProvideService(_, _, _, _, _, _) => ProviderTerms(cfg, l, tx.key, tx.body, height);
    case CreateDatabase(_, _, _, _, _, _, _, _, _) => CreateTerms(cfg, l, tx.key, tx.nonce, tx.body);
    case UpdatePermission(_, _, _) => PermissionTerms(l, tx.key, tx.body);
    case IssueKeys(_) =>
    case UpdateBilling(_, _, _, _, _) => BillingTerms(l, tx.key, tx.body);
  }

  lemma StepRange(cfg: Config, l: Ledger, tx: Tx, height: nat, d: Address)
    requires Priced(l) && Apply(cfg, l, tx, height).err.NoErr?
    ensures var m := Apply(cfg, l, tx, height).ledger;
      && Priced(m)
      && if Bills(tx, d) && tx.body.version > 0
         then tx.body.from < tx.body.to && tx.body.from == LastUpdated(l, d) && tx.body.to == LastUpdated(m, d)
         else Bills(tx, d) || LastUpdated(m, d) == LastUpdated(l, d)
  {
    BodyUpdated(cfg, l, tx, height, d);
  }

  lemma {:induction false} TileConcat(a: nat, rs: seq<(nat, nat)>, b: nat, ss: seq<(nat, nat)>, c: nat)
    requires Tile(a, rs, b) && Tile(b, ss, c)
    ensures Tile(a, rs + ss, c)
  {
    if ss == [] {
      assert rs + ss == rs;
    } else {
      var k := |ss| - 1;
      TileConcat(a, rs, b, ss[..k], ss[k].0);
      assert (rs + ss)[..|rs + ss| - 1] == rs + ss[..k];
    }
  }

  lemma {:induction false} RangesConcat(s: seq<Tx>, t: seq<Tx>, d: Address)
    ensures Ranges(s + t, d) == Ranges(s, d) + Ranges(t, d)
  {
    if t == [] {
      assert s + t == s;
    } else {
      var k := |t| - 1;
      assert (s + t)[..|s + t| - 1] == s + t[..k];
      RangesConcat(s, t[..k], d);
    }
  }

  lemma {:induction false} RangesAll(cfg: Config, l: Ledger, txs: seq<Tx>, h: nat, d: Address)
    requires Priced(l) && ApplyAll(cfg, l, txs, h).Some? && Versioned(txs, d)
    ensures Priced(ApplyAll(cfg, l, txs, h).value)
    ensures Tile(LastUpdated(l, d), Ranges(txs, d), LastUpdated(ApplyAll(cfg, l, txs, h).value, d))
  {
    if txs != [] {
      var k := |txs| - 1;
      RangesAll(cfg, l, txs[..k], h, d);
      var m := ApplyAll(cfg, l, txs[..k], h).value;
      StepRange(cfg, m, txs[k], h, d);
      if Bills(txs[k], d) {
        var one := [(txs[k].body.from, txs[k].body.to)];
        assert one[..0] == [] && Tile(LastUpdated(m, d), one, txs[k].body.to);
        TileConcat(LastUpdated(l, d), Ranges(txs[..k], d), LastUpdated(m, d), one, txs[k].body.to);
      } else {
        assert Ranges(txs[..k], d) + [] == Ranges(txs[..k], d);
      }
    }
  }

  /** Along every valid path whose bills for d are versioned, the accepted ranges tile what lies
      between the last update at genesis, or 0, and the last update now. */
  lemma {:induction false} RangesTile(cfg: Config, g: Ledger, n: Node, d: Address)
    requires WellFormed(n) && Priced(g) && LedgerAt(cfg, g, n).Some? && Versioned(TxsAfter(n, 0), d)
    ensures Priced(LedgerAt(cfg, g, n).value)
    ensures Tile(LastUpdated(g, d), Ranges(TxsAfter(n, 0), d), LastUpdated(LedgerAt(cfg, g, n).value, d))
  {
    if n.parent.Some? {
      var p := n.parent.value;
      var before := TxsAfter(p, 0);
      assert TxsAfter(n, 0) == before + n.block.txs;
      VersionedParts(before, n.block.txs, d);
      RangesTile(cfg, g, p, d);
      var m := LedgerAt(cfg, g, p).value;
      RangesAll(cfg, m, n.block.txs, n.Height(), d);
      RangesConcat(before, n.block.txs, d);
      TileConcat(LastUpdated(g, d), Ranges(before, d), LastUpdated(m, d), Ranges(n.block.txs, d),
                 LastUpdated(LedgerAt(cfg, g, n).value, d));
    }
  }

  lemma VersionedParts(s: seq<Tx>, t: seq<Tx>, d: Address)
    requires Versioned(s + t, d)
    ensures Versioned(s, d) && Versioned(t, d)
  {
    forall i | 0 <= i < |s| && Bills(s[i], d) ensures s[i].body.version > 0 { assert (s + t)[i] == s[i]; }
    forall i | 0 <= i < |t| && Bills(t[i], d) ensures t[i].body.version > 0 { assert (s + t)[|s| + i] == t[i]; }
  }

  /** No height is covered by two of the ranges, and every height in between by one. */
  lemma {:induction false} TileCovers(start: nat, rs: seq<(nat, nat)>, end: nat, h: nat)
    requires Tile(start, rs, end)
    ensures start <= end
    ensures start < h <= end <==> exists i :: 0 <= i < |rs| && rs[i].0 < h <= rs[i].1
    ensures forall i, j :: 0 <= i < j < |rs| ==> !(rs[i].0 < h <= rs[i].1 && rs[j].0 < h <= rs[j].1)
  {
    if rs != [] {
      var k := |rs| - 1;
      var init := rs[..k];
      TileCovers(start, init, rs[k].0, h);
      if start < h <= rs[k].0 {
        var i :| 0 <= i < |init| && init[i].0 < h <= init[i].1;
        assert rs[i] == init[i];
      }
    }
  }
}
