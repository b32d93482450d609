/** The duplicate-charge pair a refund rests on
    (backend/alembic_baseline/versions/i203_demo_truthful_refund.py).
    Amounts are cents, times are seconds, and the SHA-256 pair hash is modelled as
    an injective function: a digest is the record it was computed from. */
module RefundPair {
  import opened Options

  type Id = string
  type Time = int

  const WINDOW: int := 30 * 24 * 3600

  datatype Billing = Billing(
    tenantId: Id, customerId: Id, amount: int, currency: string, status: string,
    duplicateOf: Option<Id>, version: int, chargedAt: Time, periodStart: int, periodEnd: int)

  type Ledger = map<Id, Billing>

  /** The columns one row contributes to the hashed pair. */
  datatype Facts = Facts(
    id: Id, tenantId: Id, customerId: Id, amount: int, currency: string, status: string,
    version: int, chargedAt: Time, periodStart: int, periodEnd: int)

  datatype Digest = Digest(original: Facts, target: Facts, duplicateOf: Option<Id>)

  function FactsOf(id: Id, b: Billing): Facts {
    Facts(id, b.tenantId, b.customerId, b.amount, b.currency, b.status, b.version, b.chargedAt,
          b.periodStart, b.periodEnd)
  }

  datatype Snapshot = Snapshot(
    id: Id, version: int, originalId: Option<Id>, originalVersion: Option<int>, eligible: bool, hash: Option<Digest>)

  function Select(ledger: Ledger, tenantId: Id, customerId: Id, id: Id): Option<Billing> {
    if id in ledger && ledger[id].tenantId == tenantId && ledger[id].customerId == customerId
    then Some(ledger[id]) else None
  }

  /** The seven checks of the snapshot function. */
  predicate Eligible(targetId: Id, target: Billing, originalId: Id, original: Billing, asOf: Time) {
    // same_scope
    && target.tenantId == original.tenantId && target.customerId == original.customerId
    // explicit_relation
    && targetId != originalId && target.duplicateOf == Some(originalId)
    // both_charged
    && target.status == "charged" && original.status == "charged"
    // same_amount, same_currency
    && target.amount == original.amount && target.currency == original.currency
    // same_service_period
    && target.periodStart == original.periodStart && target.periodEnd == original.periodEnd
    && target.periodStart < target.periodEnd
    // within_application_window
    && original.chargedAt <= asOf && target.chargedAt <= asOf && asOf - target.chargedAt <= WINDOW
  }

  /** `supportguard_refund_pair_snapshot`. */
  function PairSnapshot(ledger: Ledger, tenantId: Id, customerId: Id, id: Id, asOf: Time): Option<Snapshot> {
    var target := Select(ledger, tenantId, customerId, id);
    if target.None? then None
    else
      var t := target.value;
      var original := if t.duplicateOf.Some? then Select(ledger, tenantId, customerId, t.duplicateOf.value) else None;
      if original.None? then Some(Snapshot(id, t.version, None, None, false, None))
      else
        var o, oid := original.value, t.duplicateOf.value;
        Some(Snapshot(id, t.version, Some(oid), Some(o.version), Eligible(id, t, oid, o, asOf),
                      Some(Digest(FactsOf(oid, o), FactsOf(id, t), t.duplicateOf))))
  }

  /** `supportguard_billing_refund_identity_guard`: what an UPDATE may not change. */
  predicate SameIdentity(old_: Billing, new_: Billing) {
    new_ == old_.(status := new_.status, version := new_.version)
  }

  /** `later` comes from `earlier` by guarded updates and insertions. */
  ghost predicate Evolves(earlier: Ledger, later: Ledger) {
    forall id :: id in earlier ==> id in later && SameIdentity(earlier[id], later[id])
  }

  lemma EvolvesTransitive(a: Ledger, b: Ledger, c: Ledger)
    requires Evolves(a, b) && Evolves(b, c)
    ensures Evolves(a, c)
  {
    forall id | id in a ensures id in c && SameIdentity(a[id], c[id]) {
      assert SameIdentity(a[id], b[id]) && SameIdentity(b[id], c[id]);
    }
  }

  // ----- the binding of a proposal -----

  datatype Binding = Binding(originalId: Option<Id>, originalVersion: Option<int>, hash: Option<Digest>)

  const UNBOUND := Binding(None, None, None)

  predicate Bound(b: Binding) {
    b.originalId.Some? && b.originalVersion.Some? && b.hash.Some?
  }

  function SnapshotBinding(s: Snapshot): Binding {
    Binding(s.originalId, s.originalVersion, s.hash)
  }

  /** The pair a snapshot was bound from is still there, unchanged, and in its window. */
  predicate SnapshotCurrent(ledger: Ledger, tenantId: Id, customerId: Id, id: Id, b: Binding, asOf: Time) {
    && Bound(b)
    && var s := PairSnapshot(ledger, tenantId, customerId, id, asOf);
       s.Some? && s.value.eligible && SnapshotBinding(s.value) == b
  }

  /** Statuses and versions of both rows are what they were at binding time. */
  predicate PairUntouched(earlier: Ledger, later: Ledger, id: Id, originalId: Id)
    requires id in earlier && id in later && originalId in earlier && originalId in later
  {
    && later[id].status == earlier[id].status && later[id].version == earlier[id].version
    && later[originalId].status == earlier[originalId].status
    && later[originalId].version == earlier[originalId].version
  }

  /** For a bound pair and any later time, the currentness check holds iff both
      rows' status and version are unchanged and the charge is at most 30 days old. */
  lemma CurrentIff(earlier: Ledger, later: Ledger, tenantId: Id, customerId: Id, id: Id, bound: Binding, then_: Time,
                   now: Time)
    requires SnapshotCurrent(earlier, tenantId, customerId, id, bound, then_)
    requires Evolves(earlier, later) && then_ <= now
    ensures id in earlier && id in later && bound.originalId.value in earlier && bound.originalId.value in later
    ensures SnapshotCurrent(later, tenantId, customerId, id, bound, now) <==>
      PairUntouched(earlier, later, id, bound.originalId.value) && now - earlier[id].chargedAt <= WINDOW
  {
    var oid := bound.originalId.value;
    assert SameIdentity(earlier[id], later[id]) && SameIdentity(earlier[oid], later[oid]);
  }

  /** Out of the window once, stale for ever. */
  lemma StaleForEver(earlier: Ledger, later: Ledger, latest: Ledger, tenantId: Id, customerId: Id, id: Id,
                     bound: Binding, then_: Time, now: Time, after: Time)
    requires SnapshotCurrent(earlier, tenantId, customerId, id, bound, then_)
    requires Evolves(earlier, later) && Evolves(later, latest) && then_ <= now <= after
    requires now - earlier[id].chargedAt > WINDOW
    ensures !SnapshotCurrent(later, tenantId, customerId, id, bound, now)
    ensures !SnapshotCurrent(latest, tenantId, customerId, id, bound, after)
  {
    EvolvesTransitive(earlier, later, latest);
    CurrentIff(earlier, later, tenantId, customerId, id, bound, then_, now);
    CurrentIff(earlier, latest, tenantId, customerId, id, bound, then_, after);
  }

  /** A current binding on the rows: the target names another charged row of the same customer,
      amount, currency and service period, both charged by then, the target at most thirty
      days ago, and the binding records that row's version and every fact of both. */
  lemma CurrentOnRows(ledger: Ledger, tenantId: Id, customerId: Id, id: Id, b: Binding, asOf: Time)
    ensures SnapshotCurrent(ledger, tenantId, customerId, id, b, asOf) <==>
      && id in ledger && ledger[id].duplicateOf.Some? && ledger[id].duplicateOf.value in ledger
      && var t, o := ledger[id], ledger[ledger[id].duplicateOf.value];
         && t.tenantId == o.tenantId == tenantId && t.customerId == o.customerId == customerId
         && t.duplicateOf != Some(id)
         && t.status == "charged" && o.status == "charged"
         && t.amount == o.amount && t.currency == o.currency
         && t.periodStart == o.periodStart && t.periodEnd == o.periodEnd && t.periodStart < t.periodEnd
         && o.chargedAt <= asOf && t.chargedAt <= asOf <= t.chargedAt + 2592000
         && b.originalId == t.duplicateOf && b.originalVersion == Some(o.version) && b.hash.Some?
         && var d := b.hash.value;
            && d.duplicateOf == t.duplicateOf && Records(d.target, id, t) && Records(d.original, t.duplicateOf.value, o)
  {
  }

  /** Every fact of a row that the digest covers. */
  predicate Records(f: Facts, id: Id, b: Billing) {
    && f.id == id && f.tenantId == b.tenantId && f.customerId == b.customerId
    && f.amount == b.amount && f.currency == b.currency && f.status == b.status && f.version == b.version
    && f.chargedAt == b.chargedAt && f.periodStart == b.periodStart && f.periodEnd == b.periodEnd
  }
}
