/** Every operation keeps the invariant of the commerce tables. */
module CommerceSteps {
  import opened Outcomes
  import opened CommerceModel
  import opened CommerceInvariant
  import T = Transitions
  import PriceHash

  // ----- Which statuses an event accepts ------------------------------------

  lemma CreationRules(t: T.Token, decision: Decision, now: int)
    ensures var r := T.Permit(t, RequestEvent(decision), T.ContextFor(T.System, now));
            r.Ok? <==> t == T.CheckoutCreated || t == T.PolicyChecked
    ensures var r := T.Permit(t, RequestEvent(decision), T.ContextFor(T.System, now));
            r.Ok? ==> r.value == if decision == Allow then T.Authorized else T.AuthorizationPending
  {}

  lemma ApprovalRules(t: T.Token, now: int)
    ensures var r := T.Permit(t, T.ApproveAuthorization, T.ContextFor(T.Buyer, now));
            if t == T.AuthorizationPending then r == Ok(T.Authorized) else r.Err?
  {}

  lemma RejectionRules(t: T.Token, now: int)
    ensures var r := T.Permit(t, T.RejectAuthorization, T.ContextFor(T.Buyer, now));
            if t == T.CheckoutCreated || t == T.AuthorizationPending || t == T.Authorized
            then r == Ok(T.Cancelled) else r.Err?
  {}

  lemma CancellationRules(t: T.Token, now: int)
    ensures var r := T.Permit(t, T.CancelCheckout, T.ContextFor(T.Buyer, now));
            if t == T.CheckoutCreated || t == T.PolicyChecked || t == T.AuthorizationPending
               || t == T.Authorized
            then r == Ok(T.Cancelled) else r.Err?
  {}

  lemma ExpiryRules(t: T.Token, now: int)
    ensures var r := T.Permit(t, T.ExpireCheckout, T.ContextFor(T.System, now));
            if t == T.CheckoutCreated || t == T.AuthorizationPending || t == T.Authorized
            then r == Ok(T.CheckoutExpired) else r.Err?
  {}

  lemma CheckRules(t: T.Token, now: int)
    ensures var r := T.Permit(t, T.CheckPolicy, T.ContextFor(T.System, now));
            if t == T.CheckoutCreated then r == Ok(T.PolicyChecked) else r.Err?
  {}

  // ----- The audit log ------------------------------------------------------

  lemma QuietEventKeepsAudit(db: Db, e: AuditEvent, after: Db)
    requires AuditReplays(db) && !e.StatusChanged?
    requires after.checkouts == db.checkouts && after.audit == db.audit + [e]
    ensures AuditReplays(after)
  {
    hide History, Chained;
    forall c { HistoryIgnores(db.audit, e, c); }
  }

  lemma ChangeKeepsAudit(db: Db, c: string, e: AuditEvent, after: Db)
    requires AuditReplays(db) && c in db.checkouts
    requires e.StatusChanged? && e.checkoutId == c && e.fromStatus == db.checkouts[c].status && Legal(e)
    requires after.checkouts == db.checkouts[c := db.checkouts[c].(status := e.toStatus)]
    requires after.audit == db.audit + [e]
    ensures AuditReplays(after)
  {
    hide History, Chained, Legal;
    forall d | d != c { HistoryIgnores(db.audit, e, d); }
    HistoryOfOne(db.audit, e, c);
    ChainGrows(History(db.audit, c), db.checkouts[c].status, e);
  }

  // ----- One row at a time --------------------------------------------------

  /** An operation that touches one checkout only has to answer for that checkout. */
  lemma OneRowChanges(w: World, db: Db, after: Db, c: string)
    requires AllRows(w, db)
    requires after.checkouts.Keys == after.reservations.Keys == db.checkouts.Keys + {c}
    requires after.stock.Keys == db.stock.Keys
    requires forall d :: d in db.checkouts && d != c ==>
               && after.checkouts[d] == db.checkouts[d]
               && after.reservations[d] == db.reservations[d]
               && AuthOf(after, d) == AuthOf(db, d)
    requires RowFits(w, after.checkouts[c], after.reservations[c], AuthOf(after, c), db.stock.Keys)
    ensures AllRows(w, after)
  {}

  /** Writing the one authorization of a checkout keeps the index. */
  lemma AuthorizationWrite(db: Db, a: string, auth: Authorization, after: Db)
    requires Indexed(db) && auth.checkoutId in db.checkouts
    requires a in db.authorizations ==> db.authorizations[a].checkoutId == auth.checkoutId
    requires auth.checkoutId in db.byCheckout ==> db.byCheckout[auth.checkoutId] == a
    requires after.authorizations == db.authorizations[a := auth]
    requires after.byCheckout == db.byCheckout[auth.checkoutId := a]
    requires after.checkouts.Keys >= db.checkouts.Keys
    ensures Indexed(after)
  {}

  /** Writing the authorization of one checkout leaves the others' as they were. */
  lemma AuthorizationSeen(db: Db, a: string, auth: Authorization, after: Db)
    requires Indexed(db)
    requires a in db.authorizations ==> db.authorizations[a].checkoutId == auth.checkoutId
    requires after.authorizations == db.authorizations[a := auth]
    requires after.byCheckout == db.byCheckout[auth.checkoutId := a]
    ensures AuthOf(after, auth.checkoutId) == Some(auth)
    ensures forall d :: d != auth.checkoutId ==> AuthOf(after, d) == AuthOf(db, d)
  {}

  lemma RowOf(w: World, db: Db, c: string)
    requires AllRows(w, db) && c in db.checkouts
    ensures c in db.reservations
    ensures RowFits(w, db.checkouts[c], db.reservations[c], AuthOf(db, c), db.stock.Keys)
  {}

  lemma QuantitiesArePositive(w: World, db: Db)
    requires AllRows(w, db)
    ensures forall d :: d in db.reservations ==> db.reservations[d].quantity >= 1
  {}

  lemma RowsHaveKeys(w: World, db: Db)
    requires AllRows(w, db)
    ensures db.reservations.Keys == db.checkouts.Keys
  {}

  // ----- create_checkout ----------------------------------------------------

  lemma NewCheckoutIsFrozen(w: World, scope: Scope, offerId: string, quantity: int,
                            ttlMinutes: int, now: int)
    requires offerId in w.offers && w.offers[offerId].unitPriceMinor >= 0 && quantity >= 1
    ensures Frozen(w, NewCheckout(w, scope, offerId, quantity, ttlMinutes, now))
  {
    var offer := w.offers[offerId];
    var dict := PriceHash.ToCanonicalDict(
      SnapshotOf(w, offerId, offer, quantity, now + ttlMinutes * MINUTE));
    var row := NewCheckout(w, scope, offerId, quantity, ttlMinutes, now);
    PriceHash.ProductIdIsNotHashed(dict, row.snapshot[PriceHash.ProductId], w.sha256);
    hide PriceHash.ComputePriceHash;
    assert row.snapshot == dict[PriceHash.ProductId := row.snapshot[PriceHash.ProductId]];
    assert dict[PriceHash.UnitPriceMinor].n == offer.unitPriceMinor;
  }

  /** Holding stock for one more checkout keeps the counters equal to the sums. */
  lemma HoldKeepsStock(db: Db, c: string, offerId: string, quantity: int, after: Db)
    requires StockAdds(db) && c !in db.reservations && offerId in db.stock && quantity >= 1
    requires db.stock[offerId].available - db.stock[offerId].reserved >= quantity
    requires after.reservations == db.reservations[c := Reservation(offerId, quantity, Held)]
    requires after.stock == db.stock[offerId := db.stock[offerId].(
               reserved := db.stock[offerId].reserved + quantity,
               version := db.stock[offerId].version + 1)]
    ensures StockAdds(after)
  {
    hide HeldFor;
    forall o | o in after.stock
      ensures after.stock[o].reserved == HeldFor(after.reservations, o)
      ensures 0 <= after.stock[o].reserved <= after.stock[o].available
    {
      HeldAfterWrite(db.reservations, c, Reservation(offerId, quantity, Held), o);
    }
  }

  lemma CreateKeepsAudit(w: World, db: Db, id: string, scope: Scope, offerId: string,
                         quantity: int, ttl: int, now: int)
    requires AuditReplays(db)
    requires CreateRefusal(w, db, id, scope, offerId, quantity, now).None?
    ensures AuditReplays(Create(w, db, id, scope, offerId, quantity, ttl, now).0)
  {
    hide History, NewCheckout;
    var after := Create(w, db, id, scope, offerId, quantity, ttl, now).0;
    var row := NewCheckout(w, scope, offerId, quantity, ttl, now);
    NewCheckoutIsCreated(w, scope, offerId, quantity, ttl, now);
    var e, f := StockMoved(offerId, id, quantity, true), CheckoutOpened(id, row.totalMinor, row.priceHash);
    assert after.audit == (db.audit + [e]) + [f];
    forall c ensures History(after.audit, c) == History(db.audit, c) {
      HistoryIgnores(db.audit, e, c);
      HistoryIgnores(db.audit + [e], f, c);
    }
  }

  lemma NewCheckoutIsCreated(w: World, scope: Scope, offerId: string, quantity: int, ttl: int, now: int)
    requires offerId in w.offers
    ensures var row := NewCheckout(w, scope, offerId, quantity, ttl, now);
            row.status == T.CheckoutCreated && row.quantity == quantity && row.offerId == offerId
  {}

  lemma AcceptedOffer(w: World, db: Db, id: string, scope: Scope, offerId: string,
                      quantity: int, now: int)
    requires CreateRefusal(w, db, id, scope, offerId, quantity, now).None?
    ensures offerId in w.offers && w.offers[offerId].unitPriceMinor >= 0 && quantity >= 1
    ensures offerId in db.stock && id !in db.checkouts && id !in db.reservations
    ensures db.stock[offerId].available - db.stock[offerId].reserved >= quantity
  {}

  /** A fresh row with no authorization fits the hold that is made for it. */
  lemma FreshRowFits(w: World, row: Checkout, offers: set<string>)
    requires Frozen(w, row) && row.status == T.CheckoutCreated && row.quantity >= 1 && row.offerId in offers
    ensures RowFits(w, row, Reservation(row.offerId, row.quantity, Held), None, offers)
  {}

  lemma CreateKeepsStock(w: World, db: Db, id: string, scope: Scope, offerId: string,
                         quantity: int, ttl: int, now: int)
    requires StockAdds(db) && CreateRefusal(w, db, id, scope, offerId, quantity, now).None?
    ensures StockAdds(Create(w, db, id, scope, offerId, quantity, ttl, now).0)
  {
    AcceptedOffer(w, db, id, scope, offerId, quantity, now);
    hide CreateRefusal, NewCheckout, StockAdds;
    HoldKeepsStock(db, id, offerId, quantity, Create(w, db, id, scope, offerId, quantity, ttl, now).0);
  }

  lemma CheckoutAdded(w: World, db: Db, id: string, row: Checkout, hold: Reservation, after: Db)
    requires AllRows(w, db) && Indexed(db) && id !in db.checkouts
    requires after.checkouts == db.checkouts[id := row]
    requires after.reservations == db.reservations[id := hold]
    requires after.authorizations == db.authorizations && after.byCheckout == db.byCheckout
    requires after.stock.Keys == db.stock.Keys && RowFits(w, row, hold, None, db.stock.Keys)
    ensures AllRows(w, after) && Indexed(after)
  {
    hide RowFits, AllRows;
    assert AuthOf(after, id) == None;
    SameAuthorizations(db, after);
    RowsHaveKeys(w, db);
    hide AuthOf;
    OneRowChanges(w, db, after, id);
  }

  lemma CreateKeepsRows(w: World, db: Db, id: string, scope: Scope, offerId: string,
                        quantity: int, ttl: int, now: int)
    requires AllRows(w, db) && Indexed(db)
    requires CreateRefusal(w, db, id, scope, offerId, quantity, now).None?
    ensures AllRows(w, Create(w, db, id, scope, offerId, quantity, ttl, now).0)
    ensures Indexed(Create(w, db, id, scope, offerId, quantity, ttl, now).0)
  {
    hide CreateRefusal, NewCheckout, Frozen, RowFits, AllRows, Indexed;
    AcceptedOffer(w, db, id, scope, offerId, quantity, now);
    NewCheckoutIsFrozen(w, scope, offerId, quantity, ttl, now);
    NewCheckoutIsCreated(w, scope, offerId, quantity, ttl, now);
    var row := NewCheckout(w, scope, offerId, quantity, ttl, now);
    FreshRowFits(w, row, db.stock.Keys);
    CheckoutAdded(w, db, id, row, Reservation(offerId, quantity, Held),
                  Create(w, db, id, scope, offerId, quantity, ttl, now).0);
  }

  lemma SameAuthorizations(db: Db, after: Db)
    requires after.authorizations == db.authorizations && after.byCheckout == db.byCheckout
    ensures forall d :: AuthOf(after, d) == AuthOf(db, d)
  {}

  lemma CreateKeepsInv(w: World, db: Db, id: string, scope: Scope, offerId: string,
                       quantity: int, ttl: int, now: int)
    requires Inv(w, db)
    ensures Inv(w, Create(w, db, id, scope, offerId, quantity, ttl, now).0)
  {
    hide AllRows, Indexed, StockAdds, AuditReplays, CreateRefusal, NewCheckout;
    if CreateRefusal(w, db, id, scope, offerId, quantity, now).None? {
      CreateKeepsRows(w, db, id, scope, offerId, quantity, ttl, now);
      CreateKeepsStock(w, db, id, scope, offerId, quantity, ttl, now);
      CreateKeepsAudit(w, db, id, scope, offerId, quantity, ttl, now);
    }
  }

  // ----- Binding an authorization: request and approve -----------------------

  /** One more event in the log, and nothing else. */
  function Logged(db: Db, e: AuditEvent): Db {
    db.(audit := db.audit + [e])
  }

  /** An authorization is written for its checkout, whose status changes with it. */
  function Bound(db: Db, a: string, auth: Authorization, event: T.Event, actor: T.Actor,
                 target: T.Token): Db
    requires auth.checkoutId in db.checkouts
  {
    var c := auth.checkoutId;
    var row := db.checkouts[c];
    db.(checkouts := db.checkouts[c := row.(status := target)],
        authorizations := db.authorizations[a := auth],
        byCheckout := db.byCheckout[c := a],
        audit := db.audit + [StatusChanged(c, event, actor, row.status, target)])
  }

  lemma LoggedKeepsInv(w: World, db: Db, e: AuditEvent)
    requires Inv(w, db) && !e.StatusChanged?
    ensures Inv(w, Logged(db, e))
  {
    hide AllRows, Indexed, StockAdds, AuditReplays;
    QuietEventKeepsAudit(db, e, Logged(db, e));
    AuditIsNotInRows(w, db, Logged(db, e));
  }

  lemma BoundKeepsRows(w: World, db: Db, a: string, auth: Authorization, event: T.Event,
                       actor: T.Actor, target: T.Token)
    requires AllRows(w, db) && Indexed(db) && auth.checkoutId in db.checkouts
    requires a in db.authorizations ==> db.authorizations[a].checkoutId == auth.checkoutId
    requires auth.checkoutId in db.byCheckout ==> db.byCheckout[auth.checkoutId] == a
    requires auth.checkoutId in db.reservations
    requires RowFits(w, db.checkouts[auth.checkoutId].(status := target),
                     db.reservations[auth.checkoutId], Some(auth), db.stock.Keys)
    ensures AllRows(w, Bound(db, a, auth, event, actor, target))
    ensures Indexed(Bound(db, a, auth, event, actor, target))
  {
    hide RowFits, Indexed, AllRows;
    var after := Bound(db, a, auth, event, actor, target);
    AuthorizationWrite(db, a, auth, after);
    AuthorizationSeen(db, a, auth, after);
    RowsHaveKeys(w, db);
    hide AuthOf;
    OneRowChanges(w, db, after, auth.checkoutId);
  }

  lemma BoundKeepsInv(w: World, db: Db, a: string, auth: Authorization, event: T.Event,
                      actor: T.Actor, now: int, target: T.Token)
    requires Inv(w, db) && auth.checkoutId in db.checkouts
    requires T.Permit(db.checkouts[auth.checkoutId].status, event, T.ContextFor(actor, now)) == Ok(target)
    requires a in db.authorizations ==> db.authorizations[a].checkoutId == auth.checkoutId
    requires auth.checkoutId in db.byCheckout ==> db.byCheckout[auth.checkoutId] == a
    requires auth.checkoutId in db.reservations
    requires RowFits(w, db.checkouts[auth.checkoutId].(status := target),
                     db.reservations[auth.checkoutId], Some(auth), db.stock.Keys)
    ensures Inv(w, Bound(db, a, auth, event, actor, target))
  {
    hide T.Permit, Legal, AllRows, Indexed, StockAdds, AuditReplays, RowFits;
    var c := auth.checkoutId;
    var after := Bound(db, a, auth, event, actor, target);
    BoundKeepsRows(w, db, a, auth, event, actor, target);
    SameStockAdds(db, after);
    PermitIsLegal(c, db.checkouts[c].status, event, actor, now);
    ChangeKeepsAudit(db, c, StatusChanged(c, event, actor, db.checkouts[c].status, target), after);
  }

  lemma SameStockAdds(db: Db, after: Db)
    requires StockAdds(db) && after.stock == db.stock && after.reservations == db.reservations
    ensures StockAdds(after)
  {}

  lemma AuditIsNotInRows(w: World, db: Db, after: Db)
    requires AllRows(w, db) && Indexed(db) && StockAdds(db)
    requires after == db.(audit := after.audit)
    ensures AllRows(w, after) && Indexed(after) && StockAdds(after)
  {
    hide RowFits, HeldFor;
    SameAuthorizations(db, after);
  }

  // ----- A policy check, which no modelled service makes ---------------------

  lemma CheckedRowFits(w: World, row: Checkout, hold: Reservation, auth: Option<Authorization>,
                       offers: set<string>)
    requires RowFits(w, row, hold, auth, offers) && row.status == T.CheckoutCreated
    ensures RowFits(w, row.(status := T.PolicyChecked), hold, auth, offers)
  {}

  lemma CheckKeepsRows(w: World, db: Db, c: string, after: Db)
    requires AllRows(w, db) && Indexed(db) && c in db.checkouts && db.checkouts[c].status == T.CheckoutCreated
    requires after == db.(checkouts := db.checkouts[c := db.checkouts[c].(status := T.PolicyChecked)],
                          audit := after.audit)
    ensures AllRows(w, after) && Indexed(after)
  {
    hide RowFits, AllRows;
    RowOf(w, db, c);
    RowsHaveKeys(w, db);
    CheckedRowFits(w, db.checkouts[c], db.reservations[c], AuthOf(db, c), db.stock.Keys);
    SameAuthorizations(db, after);
    hide AuthOf;
    OneRowChanges(w, db, after, c);
  }

  /** The rules allow `created` to become `policy_checked`; the invariant allows it too. */
  lemma CheckKeepsInv(w: World, db: Db, c: string, now: int)
    requires Inv(w, db) && c in db.checkouts && db.checkouts[c].status == T.CheckoutCreated
    ensures ApplyTransition(db, c, T.CheckPolicy, T.System, now).Ok?
    ensures Inv(w, ApplyTransition(db, c, T.CheckPolicy, T.System, now).value)
  {
    hide T.Permit, Legal, AllRows, Indexed, StockAdds, AuditReplays;
    CheckRules(db.checkouts[c].status, now);
    var after := ApplyTransition(db, c, T.CheckPolicy, T.System, now).value;
    CheckKeepsRows(w, db, c, after);
    SameStockAdds(db, after);
    PermitIsLegal(c, db.checkouts[c].status, T.CheckPolicy, T.System, now);
    ChangeKeepsAudit(db, c, StatusChanged(c, T.CheckPolicy, T.System, db.checkouts[c].status, T.PolicyChecked), after);
  }

  // ----- request_authorization ----------------------------------------------

  lemma RequestedRowFits(w: World, row: Checkout, hold: Reservation, offers: set<string>, c: string,
                         scope: Scope, decision: Decision, ttl: int, now: int)
    requires RowFits(w, row, hold, None, offers) && Owns(scope, row.merchantId, row.buyerId)
    requires row.status == T.CheckoutCreated || row.status == T.PolicyChecked
    ensures RowFits(w, row.(status := if decision == Allow then T.Authorized else T.AuthorizationPending),
                    hold, Some(NewAuthorization(row, c, scope, decision, ttl, now)), offers)
  {}

  /** The guards a request passes before it writes anything. */
  lemma RequestGuards(db: Db, a: string, scope: Scope, c: string, decision: Decision, now: int)
    requires RequestRefusal(db, a, scope, c, decision, now).None? && Existing(db, scope, c).None?
    ensures c in db.checkouts && Owns(scope, db.checkouts[c].merchantId, db.checkouts[c].buyerId)
    ensures Active(db.checkouts[c].status)
    ensures T.Permit(db.checkouts[c].status, RequestEvent(decision), T.ContextFor(T.System, now)).Ok?
    ensures a !in db.authorizations && c !in db.byCheckout
  {}

  /** A request that goes through finds a checkout not yet asked about, with no authorization. */
  lemma RequestIsFresh(w: World, db: Db, a: string, scope: Scope, c: string, decision: Decision, now: int)
    requires AllRows(w, db)
    requires RequestRefusal(db, a, scope, c, decision, now).None? && Existing(db, scope, c).None?
    ensures c in db.checkouts
    ensures db.checkouts[c].status == T.CheckoutCreated || db.checkouts[c].status == T.PolicyChecked
    ensures AuthOf(db, c) == None
  {}

  /** A request that goes through logs the decision, binds the authorization and logs that. */
  lemma RequestBinds(db: Db, a: string, scope: Scope, c: string, decision: Decision, ttl: int, now: int)
    requires RequestRefusal(db, a, scope, c, decision, now).None? && Existing(db, scope, c).None?
    requires c in db.checkouts
    requires T.Permit(db.checkouts[c].status, RequestEvent(decision), T.ContextFor(T.System, now)).Ok?
    ensures NewAuthorization(db.checkouts[c], c, scope, decision, ttl, now).checkoutId == c
    ensures var auth := NewAuthorization(db.checkouts[c], c, scope, decision, ttl, now);
            var target :=
              T.Permit(db.checkouts[c].status, RequestEvent(decision), T.ContextFor(T.System, now)).value;
            Request(db, a, scope, c, decision, ttl, now).0
            == Logged(Bound(Logged(db, PolicyEvaluated(c, decision)), a, auth, RequestEvent(decision),
                            T.System, target),
                      if decision == Allow then AuthorizationGranted(a, c) else AuthorizationRequested(a, c))
  {}

  lemma RequestKeepsInv(w: World, db: Db, a: string, scope: Scope, c: string,
                        decision: Decision, ttl: int, now: int)
    requires Inv(w, db)
    ensures Inv(w, Request(db, a, scope, c, decision, ttl, now).0)
  {
    hide RequestRefusal, Existing, T.Permit, AllRows, Indexed, StockAdds, AuditReplays;
    if RequestRefusal(db, a, scope, c, decision, now).None? && Existing(db, scope, c).None? {
      RequestGuards(db, a, scope, c, decision, now);
      RequestIsFresh(w, db, a, scope, c, decision, now);
      RequestBinds(db, a, scope, c, decision, ttl, now);
      var row := db.checkouts[c];
      CreationRules(row.status, decision, now);
      RowOf(w, db, c);
      RequestedRowFits(w, row, db.reservations[c], db.stock.Keys, c, scope, decision, ttl, now);
      hide RowFits, Request, NewAuthorization;
      var target := T.Permit(row.status, RequestEvent(decision), T.ContextFor(T.System, now)).value;
      var auth := NewAuthorization(row, c, scope, decision, ttl, now);
      var d0 := Logged(db, PolicyEvaluated(c, decision));
      LoggedKeepsInv(w, db, PolicyEvaluated(c, decision));
      BoundKeepsInv(w, d0, a, auth, RequestEvent(decision), T.System, now, target);
      LoggedKeepsInv(w, Bound(d0, a, auth, RequestEvent(decision), T.System, target),
                     if decision == Allow then AuthorizationGranted(a, c) else AuthorizationRequested(a, c));
    }
  }

  // ----- approve_authorization ----------------------------------------------

  lemma ApprovedRowFits(w: World, row: Checkout, hold: Reservation, offers: set<string>, auth: Authorization)
    requires RowFits(w, row, hold, Some(auth), offers) && row.status == T.AuthorizationPending
    ensures RowFits(w, row.(status := T.Authorized), hold, Some(auth.(status := Approved)), offers)
  {}

  /** An effective approval finds its checkout waiting for it. */
  lemma ApprovalIsAwaited(db: Db, scope: Scope, a: string, now: int)
    requires Indexed(db)
    requires ApproveRefusal(db, scope, a, now).None? && db.authorizations[a].status != Approved
    ensures a in db.authorizations
    ensures var c := db.authorizations[a].checkoutId;
            && c in db.checkouts && db.checkouts[c].status == T.AuthorizationPending
            && c in db.byCheckout && db.byCheckout[c] == a
            && AuthOf(db, c) == Some(db.authorizations[a])
  {}

  lemma ApprovalBinds(db: Db, scope: Scope, a: string, now: int)
    requires Indexed(db)
    requires ApproveRefusal(db, scope, a, now).None? && db.authorizations[a].status != Approved
    ensures a in db.authorizations && db.authorizations[a].checkoutId in db.checkouts
    ensures var auth := db.authorizations[a].(status := Approved);
            Approve(db, scope, a, now).0
            == Logged(Bound(db, a, auth, T.ApproveAuthorization, T.Buyer, T.Authorized),
                      AuthorizationGranted(a, auth.checkoutId))
  {}

  lemma ApprovalIsVisible(db: Db, scope: Scope, a: string, now: int)
    ensures ApproveRefusal(db, scope, a, now).None? ==> VisibleAuthorization(db, scope, a)
  {}

  lemma ApproveKeepsInv(w: World, db: Db, scope: Scope, a: string, now: int)
    requires Inv(w, db)
    ensures Inv(w, Approve(db, scope, a, now).0)
  {
    ApprovalIsVisible(db, scope, a, now);
    hide ApproveRefusal, T.Permit, AllRows, Indexed, StockAdds, AuditReplays;
    if ApproveRefusal(db, scope, a, now).None? && db.authorizations[a].status != Approved {
      ApprovalIsAwaited(db, scope, a, now);
      ApprovalBinds(db, scope, a, now);
      var auth := db.authorizations[a];
      var c := auth.checkoutId;
      ApprovalRules(db.checkouts[c].status, now);
      RowOf(w, db, c);
      ApprovedRowFits(w, db.checkouts[c], db.reservations[c], db.stock.Keys, auth);
      hide RowFits, Approve, AuthOf;
      var granted := auth.(status := Approved);
      BoundKeepsInv(w, db, a, granted, T.ApproveAuthorization, T.Buyer, now, T.Authorized);
      LoggedKeepsInv(w, Bound(db, a, granted, T.ApproveAuthorization, T.Buyer, T.Authorized),
                     AuthorizationGranted(a, c));
    }
  }

  // ----- Closing a checkout: cancel, reject, expire --------------------------

  /** The tables once an active checkout is closed and its hold released. */
  function Closed(db: Db, c: string, event: T.Event, actor: T.Actor, target: T.Token): Db
    requires c in db.checkouts && c in db.reservations && db.reservations[c].offerId in db.stock
  {
    var row, hold := db.checkouts[c], db.reservations[c];
    var s := db.stock[hold.offerId];
    db.(checkouts := db.checkouts[c := row.(status := target)],
        reservations := db.reservations[c := hold.(status := Released)],
        stock := db.stock[hold.offerId := s.(reserved := s.reserved - hold.quantity,
                                             version := s.version + 1)],
        audit := db.audit + [StatusChanged(c, event, actor, row.status, target),
                             StockMoved(hold.offerId, c, hold.quantity, false)])
  }

  lemma {:induction false} HeldCoversPart(rs: map<string, Reservation>, k: string, offerId: string)
    requires k in rs && forall c :: c in rs ==> rs[c].quantity >= 0
    ensures HeldFor(rs, offerId) >= Contribution(rs[k], offerId)
  {
    HeldWithout(rs, k, offerId);
    HeldIsNonNegative(rs - {k}, offerId);
  }

  lemma {:induction false} HeldIsNonNegative(rs: map<string, Reservation>, offerId: string)
    requires forall c :: c in rs ==> rs[c].quantity >= 0
    ensures HeldFor(rs, offerId) >= 0
    decreases |rs|
  {
    if rs != map[] {
      HeldIsNonNegative(rs - {Pick(rs)}, offerId);
    }
  }

  /** Releasing after a permitted change of an active checkout always frees the hold. */
  lemma ReleaseClosesHold(w: World, db: Db, c: string, event: T.Event, actor: T.Actor, now: int,
                          target: T.Token)
    requires StockAdds(db) && c in db.checkouts && c in db.reservations
    requires HoldFits(db.checkouts[c], db.reservations[c], db.stock.Keys)
    requires forall d :: d in db.reservations ==> db.reservations[d].quantity >= 1
    requires Active(db.checkouts[c].status)
    requires T.Permit(db.checkouts[c].status, event, T.ContextFor(actor, now)) == Ok(target)
    ensures ApplyTransition(db, c, event, actor, now).Ok?
    ensures ReleaseStock(ApplyTransition(db, c, event, actor, now).value, c, db.checkouts[c].merchantId)
         == Ok(Closed(db, c, event, actor, target))
  {
    hide T.Permit, HeldFor;
    HeldCoversPart(db.reservations, c, db.reservations[c].offerId);
    var row, hold := db.checkouts[c], db.reservations[c];
    AppendTwo(db.audit, StatusChanged(c, event, actor, row.status, target),
              StockMoved(hold.offerId, c, hold.quantity, false));
  }

  lemma AppendTwo(audit: seq<AuditEvent>, e: AuditEvent, f: AuditEvent)
    ensures (audit + [e]) + [f] == audit + [e, f]
  {}

  lemma ClosedKeepsStock(db: Db, c: string, event: T.Event, actor: T.Actor, target: T.Token)
    requires StockAdds(db) && c in db.checkouts && c in db.reservations
    requires HoldFits(db.checkouts[c], db.reservations[c], db.stock.Keys)
    requires forall d :: d in db.reservations ==> db.reservations[d].quantity >= 1
    requires Active(db.checkouts[c].status)
    ensures StockAdds(Closed(db, c, event, actor, target))
  {
    hide HeldFor;
    var after := Closed(db, c, event, actor, target);
    var hold := db.reservations[c];
    forall o | o in after.stock
      ensures after.stock[o].reserved == HeldFor(after.reservations, o)
      ensures 0 <= after.stock[o].reserved <= after.stock[o].available
    {
      HeldAfterWrite(db.reservations, c, hold.(status := Released), o);
      HeldIsNonNegative(after.reservations, o);
    }
  }

  lemma ClosedKeepsAudit(db: Db, c: string, event: T.Event, actor: T.Actor, now: int)
    requires AuditReplays(db) && c in db.checkouts && c in db.reservations
    requires db.reservations[c].offerId in db.stock
    requires T.Permit(db.checkouts[c].status, event, T.ContextFor(actor, now)).Ok?
    ensures AuditReplays(Closed(db, c, event, actor,
                                T.Permit(db.checkouts[c].status, event, T.ContextFor(actor, now)).value))
  {
    var row, hold := db.checkouts[c], db.reservations[c];
    var target := T.Permit(row.status, event, T.ContextFor(actor, now)).value;
    hide History, AuditReplays, T.Permit, Legal;
    var after := Closed(db, c, event, actor, target);
    PermitIsLegal(c, row.status, event, actor, now);
    var e0 := StatusChanged(c, event, actor, row.status, target);
    var d0 := db.(checkouts := after.checkouts, audit := db.audit + [e0]);
    ChangeKeepsAudit(db, c, e0, d0);
    var e1 := StockMoved(hold.offerId, c, hold.quantity, false);
    assert after.audit == d0.audit + [e1];
    QuietEventKeepsAudit(d0, e1, after);
  }

  lemma ClosedRowFits(w: World, row: Checkout, hold: Reservation, auth: Option<Authorization>,
                      offers: set<string>, target: T.Token)
    requires RowFits(w, row, hold, auth, offers) && Active(row.status) && !Active(target)
    ensures RowFits(w, row.(status := target), hold.(status := Released), auth, offers)
  {}

  /** Closing one active checkout keeps the whole invariant. */
  lemma ClosedKeepsInv(w: World, db: Db, c: string, event: T.Event, actor: T.Actor, now: int,
                       target: T.Token)
    requires Inv(w, db) && c in db.checkouts && Active(db.checkouts[c].status) && !Active(target)
    requires T.Permit(db.checkouts[c].status, event, T.ContextFor(actor, now)) == Ok(target)
    ensures ApplyTransition(db, c, event, actor, now).Ok?
    ensures var after := ReleaseStock(ApplyTransition(db, c, event, actor, now).value, c,
                                      db.checkouts[c].merchantId);
            after.Ok? && Inv(w, after.value)
  {
    hide T.Permit;
    RowOf(w, db, c);
    QuantitiesArePositive(w, db);
    ClosedRowFits(w, db.checkouts[c], db.reservations[c], AuthOf(db, c), db.stock.Keys, target);
    ReleaseClosesHold(w, db, c, event, actor, now, target);
    ClosedKeepsStock(db, c, event, actor, target);
    ClosedKeepsAudit(db, c, event, actor, now);
    hide RowFits, StockAdds, AuditReplays, ReleaseStock, ApplyTransition;
    var after := Closed(db, c, event, actor, target);
    ClosedIsOneRow(w, db, c, event, actor, target);
  }

  lemma ClosedIsOneRow(w: World, db: Db, c: string, event: T.Event, actor: T.Actor, target: T.Token)
    requires AllRows(w, db) && Indexed(db) && c in db.checkouts && c in db.reservations
    requires db.reservations[c].offerId in db.stock
    requires RowFits(w, db.checkouts[c].(status := target), db.reservations[c].(status := Released),
                     AuthOf(db, c), db.stock.Keys)
    ensures AllRows(w, Closed(db, c, event, actor, target))
    ensures Indexed(Closed(db, c, event, actor, target))
  {
    hide RowFits;
    OneRowChanges(w, db, Closed(db, c, event, actor, target), c);
  }

  lemma CancelKeepsInv(w: World, db: Db, scope: Scope, checkoutId: string, now: int)
    requires Inv(w, db)
    ensures Inv(w, Cancel(db, scope, checkoutId, now).0)
  {
    if checkoutId in db.checkouts
       && Owns(scope, db.checkouts[checkoutId].merchantId, db.checkouts[checkoutId].buyerId) {
      var row := db.checkouts[checkoutId];
      CancellationRules(row.status, now);
      hide T.Permit, Inv, ReleaseStock;
      if Active(row.status) && T.Permit(row.status, T.CancelCheckout, T.ContextFor(T.Buyer, now)).Ok? {
        ClosedKeepsInv(w, db, checkoutId, T.CancelCheckout, T.Buyer, now, T.Cancelled);
      }
    }
  }

  lemma SweepRowKeepsInv(w: World, db: Db, id: string, now: int)
    requires Inv(w, db)
    ensures Inv(w, SweepRow(db, id, now))
  {
    hide T.Permit, Inv, ReleaseStock;
    if Sweepable(db, id, now) {
      var row := db.checkouts[id];
      ExpiryRules(row.status, now);
      if T.Permit(row.status, T.ExpireCheckout, T.ContextFor(T.System, now)).Ok? {
        ClosedKeepsInv(w, db, id, T.ExpireCheckout, T.System, now, T.CheckoutExpired);
      }
    }
  }

  lemma {:induction false} SweepKeepsInv(w: World, db: Db, batch: seq<string>, now: int)
    requires Inv(w, db)
    ensures Inv(w, Sweep(db, batch, now))
    decreases |batch|
  {
    hide Inv, SweepRow;
    if batch != [] {
      SweepKeepsInv(w, db, batch[..|batch| - 1], now);
      SweepRowKeepsInv(w, Sweep(db, batch[..|batch| - 1], now), batch[|batch| - 1], now);
    }
  }

  // ----- reject_authorization -----------------------------------------------

  function Marked(db: Db, a: string, status: AuthStatus): Db
    requires a in db.authorizations
  {
    db.(authorizations := db.authorizations[a := db.authorizations[a].(status := status)])
  }

  lemma RejectedRowFits(w: World, row: Checkout, hold: Reservation, auth: Authorization, offers: set<string>)
    requires RowFits(w, row, hold, Some(auth), offers) && Active(row.status)
    ensures RowFits(w, row.(status := T.Cancelled), hold.(status := Released),
                    Some(auth.(status := Rejected)), offers)
  {}

  /** An effective rejection finds an active checkout bound to the authorization. */
  lemma RejectionIsActive(w: World, db: Db, scope: Scope, a: string, now: int)
    requires Inv(w, db)
    requires RejectRefusal(db, scope, a, now).None? && db.authorizations[a].status != Rejected
    ensures a in db.authorizations && VisibleAuthorization(db, scope, a)
    ensures var c := db.authorizations[a].checkoutId;
            && c in db.checkouts && Active(db.checkouts[c].status)
            && c in db.byCheckout && db.byCheckout[c] == a
            && AuthOf(db, c) == Some(db.authorizations[a])
            && T.Permit(db.checkouts[c].status, T.RejectAuthorization, T.ContextFor(T.Buyer, now))
               == Ok(T.Cancelled)
  {
    hide AuditReplays, StockAdds, AllRows, ReleaseStock;
    RejectionRules(db.checkouts[db.authorizations[a].checkoutId].status, now);
    hide T.Permit;
  }

  /** What an effective rejection leaves: the closed checkout and the marked authorization. */
  lemma RejectionCloses(w: World, db: Db, scope: Scope, a: string, now: int)
    requires Inv(w, db)
    requires RejectRefusal(db, scope, a, now).None? && db.authorizations[a].status != Rejected
    ensures var c := db.authorizations[a].checkoutId;
            && c in db.checkouts && c in db.reservations && db.reservations[c].offerId in db.stock
            && RejectedDb(db, scope, a, now)
               == Ok(Closed(Marked(db, a, Rejected), c, T.RejectAuthorization, T.Buyer, T.Cancelled))
  {
    RejectionIsActive(w, db, scope, a, now);
    var c := db.authorizations[a].checkoutId;
    RowOf(w, db, c);
    QuantitiesArePositive(w, db);
    hide T.Permit, Frozen, HeldFor, History, Indexed, AllRows, RejectRefusal;
    SameStockAdds(db, Marked(db, a, Rejected));
    hide StockAdds;
    ReleaseClosesHold(w, Marked(db, a, Rejected), c, T.RejectAuthorization, T.Buyer, now, T.Cancelled);
    hide ReleaseStock, ApplyTransition;
  }

  lemma RejectionIsVisible(db: Db, scope: Scope, a: string, now: int)
    ensures RejectRefusal(db, scope, a, now).None? ==> VisibleAuthorization(db, scope, a)
  {}

  lemma RejectKeepsInv(w: World, db: Db, scope: Scope, a: string, now: int)
    requires Inv(w, db)
    ensures Inv(w, Reject(db, scope, a, now).0)
  {
    RejectionIsVisible(db, scope, a, now);
    hide RejectRefusal, T.Permit, AllRows, Indexed, StockAdds, AuditReplays, RejectedDb;
    if RejectRefusal(db, scope, a, now).None? && db.authorizations[a].status != Rejected {
      RejectionIsActive(w, db, scope, a, now);
      RejectionCloses(w, db, scope, a, now);
      var c := db.authorizations[a].checkoutId;
      RowOf(w, db, c);
      QuantitiesArePositive(w, db);
      RejectedRowFits(w, db.checkouts[c], db.reservations[c], db.authorizations[a], db.stock.Keys);
      hide Frozen, AuthFits, AuthOf;
      RejectedTables(w, db, a);
      var closed := Closed(Marked(db, a, Rejected), c, T.RejectAuthorization, T.Buyer, T.Cancelled);
      MarkKeepsAudit(db, a, Rejected);
      ClosedKeepsAudit(Marked(db, a, Rejected), c, T.RejectAuthorization, T.Buyer, now);
      LoggedKeepsInv(w, closed, AuthorizationRejected(a, c));
    }
  }

  /** The tables of a rejected and closed checkout, before the rejection is logged. */
  lemma RejectedTables(w: World, db: Db, a: string)
    requires AllRows(w, db) && Indexed(db) && StockAdds(db) && a in db.authorizations
    requires var c := db.authorizations[a].checkoutId;
             && c in db.checkouts && c in db.reservations && c in db.byCheckout && db.byCheckout[c] == a
             && Active(db.checkouts[c].status)
             && HoldFits(db.checkouts[c], db.reservations[c], db.stock.Keys)
             && RowFits(w, db.checkouts[c].(status := T.Cancelled), db.reservations[c].(status := Released),
                        Some(db.authorizations[a].(status := Rejected)), db.stock.Keys)
    requires forall d :: d in db.reservations ==> db.reservations[d].quantity >= 1
    ensures var c := db.authorizations[a].checkoutId;
            var closed := Closed(Marked(db, a, Rejected), c, T.RejectAuthorization, T.Buyer, T.Cancelled);
            AllRows(w, closed) && Indexed(closed) && StockAdds(closed)
  {
    hide RowFits, StockAdds, Indexed, AllRows;
    var c := db.authorizations[a].checkoutId;
    var marked := Marked(db, a, Rejected);
    SameStockAdds(db, marked);
    ClosedKeepsStock(marked, c, T.RejectAuthorization, T.Buyer, T.Cancelled);
    var closed := Closed(marked, c, T.RejectAuthorization, T.Buyer, T.Cancelled);
    assert db.byCheckout[c := a] == db.byCheckout;
    AuthorizationWrite(db, a, db.authorizations[a].(status := Rejected), closed);
    AuthorizationSeen(db, a, db.authorizations[a].(status := Rejected), closed);
    RowsHaveKeys(w, db);
    hide AuthOf, HoldFits;
    OneRowChanges(w, db, closed, c);
  }

  lemma MarkKeepsAudit(db: Db, a: string, status: AuthStatus)
    requires AuditReplays(db) && a in db.authorizations
    ensures AuditReplays(Marked(db, a, status))
  {}

  // ----- Every step ---------------------------------------------------------

  /** No operation of any caller, successful or rolled back, breaks the invariant. */
  lemma StepKeepsInv(w: World, db: Db, op: Op)
    requires Inv(w, db)
    ensures Inv(w, Step(w, db, op))
  {
    hide Inv;
    match op {
      case CreateOp(id, scope, offerId, quantity, ttl, now) =>
        CreateKeepsInv(w, db, id, scope, offerId, quantity, ttl, now);
      case RequestOp(a, scope, c, decision, ttl, now) =>
        RequestKeepsInv(w, db, a, scope, c, decision, ttl, now);
      case ApproveOp(scope, a, now) => ApproveKeepsInv(w, db, scope, a, now);
      case RejectOp(scope, a, now) => RejectKeepsInv(w, db, scope, a, now);
      case CancelOp(scope, c, now) => CancelKeepsInv(w, db, scope, c, now);
      case SweepOp(batch, now) => SweepKeepsInv(w, db, batch, now);
    }
  }
}
