/** What every committed state of the commerce tables satisfies, step by step. */
module CommerceInvariant {
  import opened Outcomes
  import opened CommerceModel
  import T = Transitions
  import Json = JsonText
  import PriceHash

  // ----- Held stock ---------------------------------------------------------

  function Contribution(r: Reservation, offerId: string): int {
    if r.status == Held && r.offerId == offerId then r.quantity else 0
  }

  ghost function Pick(rs: map<string, Reservation>): string
    requires rs != map[]
    ensures Pick(rs) in rs
  {
    var k :| k in rs; k
  }

  /** The sum of all quantities held for an offer. */
  ghost function HeldFor(rs: map<string, Reservation>, offerId: string): int
    decreases |rs|
  {
    if rs == map[] then 0
    else Contribution(rs[Pick(rs)], offerId) + HeldFor(rs - {Pick(rs)}, offerId)
  }

  lemma {:induction false} HeldWithout(rs: map<string, Reservation>, k: string, offerId: string)
    requires k in rs
    ensures HeldFor(rs, offerId) == Contribution(rs[k], offerId) + HeldFor(rs - {k}, offerId)
    decreases |rs|
  {
    var p := Pick(rs);
    if p != k {
      HeldWithout(rs - {p}, k, offerId);
      HeldWithout(rs - {k}, p, offerId);
      assert rs - {p} - {k} == rs - {k} - {p};
    }
  }

  /** Writing one reservation changes the sum by exactly what that row contributes. */
  lemma HeldAfterWrite(rs: map<string, Reservation>, k: string, r: Reservation, offerId: string)
    ensures HeldFor(rs[k := r], offerId)
         == HeldFor(rs, offerId) - (if k in rs then Contribution(rs[k], offerId) else 0)
            + Contribution(r, offerId)
  {
    var after := rs[k := r];
    HeldWithout(after, k, offerId);
    if k in rs {
      HeldWithout(rs, k, offerId);
      assert after - {k} == rs - {k};
    } else {
      assert after - {k} == rs;
    }
  }

  // ----- Audit history ------------------------------------------------------

  /** The status changes of one checkout, oldest first. */
  function History(audit: seq<AuditEvent>, id: string): seq<AuditEvent> {
    if audit == [] then []
    else
      var e := audit[|audit| - 1];
      History(audit[..|audit| - 1], id)
        + (if e.StatusChanged? && e.checkoutId == id then [e] else [])
  }

  /** A rule allows this change, and allows it to this actor. */
  predicate Legal(e: AuditEvent)
    requires e.StatusChanged?
  {
    var rule := T.RuleFor(e.fromStatus, e.event);
    rule.Some? && rule.value.target == e.toStatus && e.actor in rule.value.actors
  }

  /** Changes that lead from `created` to a status, each starting where the last one ended. */
  predicate Chained(events: seq<AuditEvent>, status: T.Token) {
    && (forall i :: 0 <= i < |events| ==> events[i].StatusChanged? && Legal(events[i]))
    && (forall i :: 0 < i < |events| ==> events[i].fromStatus == events[i - 1].toStatus)
    && (events == [] ==> status == T.CheckoutCreated)
    && (events != [] ==> events[0].fromStatus == T.CheckoutCreated
                         && events[|events| - 1].toStatus == status)
  }

  lemma ChainGrows(events: seq<AuditEvent>, status: T.Token, e: AuditEvent)
    requires Chained(events, status) && e.StatusChanged? && Legal(e) && e.fromStatus == status
    ensures Chained(events + [e], e.toStatus)
  {
    hide Legal;
  }

  lemma HistoryOfOne(audit: seq<AuditEvent>, e: AuditEvent, id: string)
    ensures History(audit + [e], id)
         == History(audit, id) + (if e.StatusChanged? && e.checkoutId == id then [e] else [])
  {}

  /** An event that is not a change of this checkout leaves its history alone. */
  lemma HistoryIgnores(audit: seq<AuditEvent>, e: AuditEvent, id: string)
    requires !e.StatusChanged? || e.checkoutId != id
    ensures History(audit + [e], id) == History(audit, id)
  {}

  lemma PermitIsLegal(id: string, status: T.Token, event: T.Event, actor: T.Actor, now: int)
    requires T.Permit(status, event, T.ContextFor(actor, now)).Ok?
    ensures Legal(StatusChanged(id, event, actor, status,
                                T.Permit(status, event, T.ContextFor(actor, now)).value))
  {}

  // ----- The invariant ------------------------------------------------------

  predicate Active(t: T.Token) {
    t != T.Cancelled && t != T.CheckoutExpired
  }

  /** The stored snapshot repeats the row: eight of the nine factors, each under its own key. */
  predicate Repeats(w: World, row: Checkout) {
    && PriceHash.OfferId in row.snapshot && row.snapshot[PriceHash.OfferId] == Json.Str(row.offerId)
    && PriceHash.OfferVersion in row.snapshot && row.snapshot[PriceHash.OfferVersion] == Json.Num(row.offerVersion)
    && PriceHash.ShippingMinor in row.snapshot && row.snapshot[PriceHash.ShippingMinor] == Json.Num(row.shippingMinor)
    && PriceHash.TaxMinor in row.snapshot && row.snapshot[PriceHash.TaxMinor] == Json.Num(row.taxMinor)
    && PriceHash.DiscountMinor in row.snapshot && row.snapshot[PriceHash.DiscountMinor] == Json.Num(row.discountMinor)
    && PriceHash.Currency in row.snapshot && row.snapshot[PriceHash.Currency] == Json.Str(row.currency)
    && PriceHash.ExpiresAt in row.snapshot
    && row.snapshot[PriceHash.ExpiresAt] == Json.Str(w.isoformat(row.expiresAt))
    && PriceHash.ProductId in row.snapshot
  }

  /** The price a checkout was opened at is the price its hash and its total still state. */
  predicate Frozen(w: World, row: Checkout) {
    && row.priceHash == PriceHash.ComputePriceHash(row.snapshot, w.sha256)
    && PriceHash.UnitPriceMinor in row.snapshot && row.snapshot[PriceHash.UnitPriceMinor].Num?
    && PriceHash.Quantity in row.snapshot
    && row.snapshot[PriceHash.Quantity] == Json.Num(row.quantity)
    && row.totalMinor == row.snapshot[PriceHash.UnitPriceMinor].n * row.quantity
    && row.totalMinor >= 0 && row.subtotalMinor == row.totalMinor
    && row.shippingMinor == row.taxMinor == row.discountMinor == 0
    && Repeats(w, row)
  }

  /** The reservation matches, and is held exactly while neither cancelled nor expired. */
  predicate HoldFits(row: Checkout, hold: Reservation, offers: set<string>) {
    && row.quantity >= 1 && hold.quantity == row.quantity && hold.offerId == row.offerId
    && row.offerId in offers
    && hold.status == (if Active(row.status) then Held else Released)
  }

  /** The authorization repeats the checkout's terms. */
  predicate SameTerms(row: Checkout, auth: Authorization) {
    && auth.buyerId == row.buyerId && auth.merchantId == row.merchantId
    && auth.priceHash == row.priceHash && auth.ceilingMinor == row.totalMinor
    && auth.currency == row.currency
  }

  /**
   * `created` and `policy_checked` have none, pending is pending, authorized is approved, rejected
   * is cancelled. No modelled service writes `policy_checked`, but they all accept a row in it.
   */
  predicate AuthFits(row: Checkout, auth: Option<Authorization>) {
    match auth
    case None =>
      row.status == T.CheckoutCreated || row.status == T.PolicyChecked || !Active(row.status)
    case Some(a) =>
      && SameTerms(row, a)
      && (match a.status
          case Pending => row.status == T.AuthorizationPending || !Active(row.status)
          case Approved => row.status == T.Authorized || !Active(row.status)
          case Rejected => row.status == T.Cancelled
          case _ => false)
  }

  predicate RowFits(w: World, row: Checkout, hold: Reservation, auth: Option<Authorization>,
                    offers: set<string>)
  {
    Frozen(w, row) && HoldFits(row, hold, offers) && AuthFits(row, auth)
  }

  /** The authorization bound to a checkout. */
  function AuthOf(db: Db, c: string): Option<Authorization> {
    if c in db.byCheckout && db.byCheckout[c] in db.authorizations
    then Some(db.authorizations[db.byCheckout[c]]) else None
  }

  /** Every checkout has one reservation, and fits it and its authorization. */
  ghost predicate AllRows(w: World, db: Db) {
    && db.reservations.Keys == db.checkouts.Keys
    && forall c :: c in db.checkouts ==>
         RowFits(w, db.checkouts[c], db.reservations[c], AuthOf(db, c), db.stock.Keys)
  }

  /** At most one authorization for a checkout, and none without one. */
  ghost predicate Indexed(db: Db) {
    && (forall c :: c in db.byCheckout ==>
          && c in db.checkouts && db.byCheckout[c] in db.authorizations
          && db.authorizations[db.byCheckout[c]].checkoutId == c)
    && (forall a :: a in db.authorizations ==>
          && db.authorizations[a].checkoutId in db.byCheckout
          && db.byCheckout[db.authorizations[a].checkoutId] == a)
  }

  /** Counters equal the held sums and stay within what is available. */
  ghost predicate StockAdds(db: Db) {
    forall o :: o in db.stock ==>
      && db.stock[o].reserved == HeldFor(db.reservations, o)
      && 0 <= db.stock[o].reserved <= db.stock[o].available
  }

  ghost predicate AuditReplays(db: Db) {
    && (forall c :: c in db.checkouts ==> Chained(History(db.audit, c), db.checkouts[c].status))
    && (forall c :: c !in db.checkouts ==> History(db.audit, c) == [])
  }

  ghost predicate Inv(w: World, db: Db) {
    AllRows(w, db) && Indexed(db) && StockAdds(db) && AuditReplays(db)
  }

  /** No request has been served yet; any stock may be on sale. */
  predicate Initial(db: Db) {
    && db.checkouts == map[] && db.authorizations == map[] && db.byCheckout == map[]
    && db.reservations == map[] && db.audit == []
    && forall o :: o in db.stock ==> db.stock[o].reserved == 0 <= db.stock[o].available
  }

  lemma InitialHolds(w: World, db: Db)
    requires Initial(db)
    ensures Inv(w, db)
  {}
}
