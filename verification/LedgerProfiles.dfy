/** What transactions leave alone in database profiles and providers. */
module LedgerProfiles {
  import opened LedgerTypes
  import opened Transactions

  /** The same databases, with the same prices, tokens and billing heights. */
  ghost predicate SameTerms(l: Ledger, m: Ledger) {
    && m.databases.Keys == l.databases.Keys
    && forall d :: d in l.databases ==>
         && m.databases[d].gasPrice == l.databases[d].gasPrice && m.databases[d].token == l.databases[d].token
         && m.databases[d].lastUpdated == l.databases[d].lastUpdated
  }

  lemma TransferTerms(cfg: Config, l: Ledger, key: nat, t: Body)
    requires t.Transfer?
    ensures SameTerms(l, TransferToDatabase(cfg, l, key, t).ledger)
    ensures TransferToDatabase(cfg, l, key, t).ledger.providers == l.providers
  {}

  lemma AccountTransferTerms(l: Ledger, key: nat, t: Body)
    requires t.Transfer?
    ensures TransferAccountToken(l, key, t).ledger.databases == l.databases
    ensures TransferAccountToken(l, key, t).ledger.providers == l.providers
  {}

  lemma ProviderTerms(cfg: Config, l: Ledger, key: nat, t: Body, height: nat)
    requires t.ProvideService?
    ensures var m := UpdateProviderList(cfg, l, key, t, height).ledger;
      m.databases == l.databases && forall a :: a in m.providers ==>
        m.providers[a].token.Particle? || (a in l.providers && m.providers[a] == l.providers[a])
  {}

  /** At most one new database, with a price, unbilled and in Particle. */
  lemma CreateTerms(cfg: Config, l: Ledger, key: nat, nonce: nat, t: Body)
    requires t.CreateDatabase?
    ensures var m := MatchProvidersWithUser(cfg, l, key, nonce, t).ledger;
      && (forall d :: d in l.databases ==> d in m.databases && m.databases[d] == l.databases[d])
      && (forall d :: d in m.databases && d !in l.databases ==>
            m.databases[d].gasPrice > 0 && m.databases[d].lastUpdated == 0 && m.databases[d].token.Particle?)
      && (forall a :: a in m.providers ==> a in l.providers && m.providers[a] == l.providers[a])
  {}

  lemma PermissionTerms(l: Ledger, key: nat, t: Body)
    requires t.UpdatePermission?
    ensures SameTerms(l, ApplyPermission(l, key, t).ledger) &&
      ApplyPermission(l, key, t).ledger.providers == l.providers
  {}

  /** Billing changes the height of the billed database only, and only if it takes effect. */
  lemma BillingTerms(l: Ledger, key: nat, t: Body)
    requires t.UpdateBilling?
    ensures var r := ApplyBilling(l, key, t);
      && r.ledger.providers == l.providers && r.ledger.databases.Keys == l.databases.Keys
      && (forall d :: d in l.databases ==>
            && r.ledger.databases[d].gasPrice == l.databases[d].gasPrice &&
              r.ledger.databases[d].token == l.databases[d].token
            && (d != t.billed ==> r.ledger.databases[d].lastUpdated == l.databases[d].lastUpdated))
      && (r.err.NoErr? ==>
            && t.billed in l.databases
            && (l.databases[t.billed].gasPrice > 0 ==> r.ledger.databases[t.billed].lastUpdated == t.to)
            && (t.version > 0 ==> t.from < t.to && t.from == l.databases[t.billed].lastUpdated))
  {}
}
