/**
 * When each commerce operation succeeds and what it answers, said of the rows, the dates and
 * the amounts themselves.
 */
module CommerceAnswers {
  import opened Outcomes
  import opened CommerceModel
  import opened CommerceInvariant
  import opened CommerceSteps
  import opened CommerceRuns
  import T = Transitions
  import PriceHash

  // ----- create_checkout ----------------------------------------------------

  /** A checkout opens exactly for an own, active, unexpired offer with enough free stock. */
  lemma OpensIff(w: World, db: Db, id: string, scope: Scope, offerId: string, quantity: int, ttl: int, now: int)
    ensures Create(w, db, id, scope, offerId, quantity, ttl, now).1.Ok? <==>
            && offerId in w.offers && w.offers[offerId].merchantId == scope.merchantId
            && w.offers[offerId].active && now < w.offers[offerId].expiresAt
            && w.offers[offerId].unitPriceMinor >= 0
            && offerId in db.stock
            && 1 <= quantity <= db.stock[offerId].available - db.stock[offerId].reserved
            && id !in db.checkouts && id !in db.reservations
  {
    hide NewCheckout;
  }

  /** An opened checkout is the buyer's, at the offer's price and version, for the time asked. */
  lemma OpenedCheckout(w: World, db: Db, id: string, scope: Scope, offerId: string, quantity: int, ttl: int, now: int)
    requires Create(w, db, id, scope, offerId, quantity, ttl, now).1.Ok?
    ensures offerId in w.offers && offerId in db.stock
    ensures var (after, answer) := Create(w, db, id, scope, offerId, quantity, ttl, now);
            var row, offer := answer.value, w.offers[offerId];
            && after.checkouts == db.checkouts[id := row]
            && row.buyerId == scope.buyerId && row.merchantId == scope.merchantId
            && row.offerId == offerId && row.offerVersion == offer.version && row.status == T.CheckoutCreated
            && row.subtotalMinor == row.totalMinor == offer.unitPriceMinor * quantity
            && row.shippingMinor == row.taxMinor == row.discountMinor == 0
            && row.currency == offer.currency && row.quantity == quantity
            && row.createdAt == now && row.expiresAt == now + ttl * 60_000_000
            && after.reservations == db.reservations[id := Reservation(offerId, quantity, Held)]
            && after.stock == db.stock[offerId := db.stock[offerId].(
                 reserved := db.stock[offerId].reserved + quantity, version := db.stock[offerId].version + 1)]
            && after.authorizations == db.authorizations && after.byCheckout == db.byCheckout
            && after.audit == db.audit + [StockMoved(offerId, id, quantity, true),
                                          CheckoutOpened(id, row.totalMinor, row.priceHash)]
  {
    AcceptedOffer(w, db, id, scope, offerId, quantity, now);
    hide CreateRefusal, PriceHash.ComputePriceHash, PriceHash.ToCanonicalDict, SnapshotOf;
  }

  /** What refuses an opening, in order; a refusal changes nothing. */
  lemma OpeningRefusals(w: World, db: Db, id: string, scope: Scope, offerId: string, quantity: int, ttl: int, now: int)
    ensures var (after, answer) := Create(w, db, id, scope, offerId, quantity, ttl, now);
            var known := offerId in w.offers && offerId in db.stock && w.offers[offerId].merchantId == scope.merchantId;
            && (answer.Err? ==> after == db)
            && (!known ==> answer == Err(OfferNotFound))
            && (known && (!w.offers[offerId].active || w.offers[offerId].expiresAt <= now) ==>
                  answer == Err(OfferExpired))
            && (known && w.offers[offerId].active && now < w.offers[offerId].expiresAt
                && w.offers[offerId].unitPriceMinor >= 0 && id !in db.checkouts
                && quantity > db.stock[offerId].available - db.stock[offerId].reserved && quantity >= 1 ==>
                  answer == Err(InventoryUnavailable))
  {
    hide NewCheckout;
  }

  // ----- request_authorization ----------------------------------------------

  predicate Sees(scope: Scope, row: Checkout) {
    scope.merchantId == row.merchantId && scope.buyerId == row.buyerId
  }

  lemma OwnAuthorization(w: World, db: Db, scope: Scope, c: string)
    requires AllRows(w, db) && Indexed(db) && c in db.checkouts && Sees(scope, db.checkouts[c])
    ensures Existing(db, scope, c).Some? <==> AuthOf(db, c).Some?
    ensures Existing(db, scope, c).Some? ==>
              && Existing(db, scope, c).value in db.authorizations
              && AuthOf(db, c) == Some(db.authorizations[Existing(db, scope, c).value])
    ensures c in db.byCheckout <==> AuthOf(db, c).Some?
    ensures AuthFits(db.checkouts[c], AuthOf(db, c))
  {
    hide Frozen, HoldFits;
    RowOf(w, db, c);
    hide AllRows;
  }

  /** A request succeeds exactly on an own open checkout whose authorization is live, or which has none yet
      and is not blocked. */
  lemma RequestSucceedsIff(w: World, db: Db, a: string, scope: Scope, c: string, decision: Decision, ttl: int,
                           now: int)
    requires Inv(w, db)
    ensures Request(db, a, scope, c, decision, ttl, now).1.Ok? <==>
            && c in db.checkouts && Sees(scope, db.checkouts[c])
            && db.checkouts[c].status != T.Cancelled && db.checkouts[c].status != T.CheckoutExpired
            && (match AuthOf(db, c)
                case Some(auth) => (auth.status == Pending || auth.status == Approved) && now < auth.validUntil
                case None => decision != Block && a !in db.authorizations)
  {
    hide T.Permit, Existing, NewAuthorization, StockAdds, AuditReplays, AllRows, Indexed, AuthOf;
    if c in db.checkouts && Sees(scope, db.checkouts[c]) {
      OwnAuthorization(w, db, scope, c);
      CreationRules(db.checkouts[c].status, decision, now);
    }
  }

  /** A new authorization is for the checkout's own terms, approved outright only by ALLOW. */
  lemma RequestedAuthorization(db: Db, a: string, scope: Scope, c: string, decision: Decision, ttl: int, now: int)
    requires Request(db, a, scope, c, decision, ttl, now).1.Ok? && Existing(db, scope, c).None?
    ensures c in db.checkouts
    ensures var (after, answer) := Request(db, a, scope, c, decision, ttl, now);
            var row := db.checkouts[c];
            && answer.value == Authorization(c, scope.buyerId, scope.merchantId, row.totalMinor, row.currency,
                 row.priceHash, if decision == Allow then Approved else Pending, now + ttl * 60_000_000, now)
            && after.authorizations == db.authorizations[a := answer.value]
            && after.checkouts == db.checkouts[c := row.(status :=
                 if decision == Allow then T.Authorized else T.AuthorizationPending)]
            && after.reservations == db.reservations && after.stock == db.stock
            && after.byCheckout == db.byCheckout[c := a]
            && after.audit == db.audit + [
                 PolicyEvaluated(c, decision),
                 StatusChanged(c, if decision == Allow then T.UseExistingAuthorization else T.RequireApproval,
                               T.System, row.status,
                               if decision == Allow then T.Authorized else T.AuthorizationPending),
                 if decision == Allow then AuthorizationGranted(a, c) else AuthorizationRequested(a, c)]
  {
    RequestGuards(db, a, scope, c, decision, now);
    CreationRules(db.checkouts[c].status, decision, now);
    hide T.Permit, RequestRefusal, Existing;
  }

  /** A block, and an authorization past its date, are refused as what they are. */
  lemma RequestRefusals(w: World, db: Db, a: string, scope: Scope, c: string, decision: Decision, ttl: int, now: int)
    requires Inv(w, db) && c in db.checkouts && Sees(scope, db.checkouts[c]) && Active(db.checkouts[c].status)
    ensures AuthOf(db, c).None? && decision == Block ==>
              Request(db, a, scope, c, decision, ttl, now) == (db, Err(PolicyBlocked))
    ensures AuthOf(db, c).Some? && now >= AuthOf(db, c).value.validUntil ==>
              Request(db, a, scope, c, decision, ttl, now) == (db, Err(AuthorizationExpired))
  {
    hide T.Permit, Existing, NewAuthorization, StockAdds, AuditReplays, AllRows, Indexed, AuthOf;
    OwnAuthorization(w, db, scope, c);
  }

  /** A live authorization is answered again as it is; closed and unknown checkouts are refused. */
  lemma RequestAgain(w: World, db: Db, a: string, scope: Scope, c: string, decision: Decision, ttl: int, now: int)
    requires Inv(w, db)
    ensures var (after, answer) := Request(db, a, scope, c, decision, ttl, now);
            && (answer.Err? ==> after == db)
            && (c !in db.checkouts || !Sees(scope, db.checkouts[c]) ==> answer == Err(NotFound))
            && (c in db.checkouts && Sees(scope, db.checkouts[c]) && !Active(db.checkouts[c].status) ==>
                  answer == Err(CheckoutExpired))
            && (answer.Ok? && AuthOf(db, c).Some? ==> after == db && answer == Ok(AuthOf(db, c).value))
  {
    hide T.Permit, Existing, NewAuthorization, StockAdds, AuditReplays, AllRows, Indexed, AuthOf;
    if c in db.checkouts && Sees(scope, db.checkouts[c]) {
      OwnAuthorization(w, db, scope, c);
    }
  }

  // ----- approve, reject, cancel --------------------------------------------

  predicate SeesAuthorization(db: Db, scope: Scope, a: string) {
    && a in db.authorizations && scope.merchantId == db.authorizations[a].merchantId
    && scope.buyerId == db.authorizations[a].buyerId
  }

  /** What an authorization of a committed state is bound to. */
  lemma BoundCheckout(w: World, db: Db, a: string)
    requires AllRows(w, db) && Indexed(db) && a in db.authorizations
    ensures var auth := db.authorizations[a];
            && auth.checkoutId in db.checkouts
            && AuthFits(db.checkouts[auth.checkoutId], Some(auth))
  {
    RowOf(w, db, db.authorizations[a].checkoutId);
    hide Frozen, HoldFits, AllRows;
  }

  /** An approval succeeds exactly for its own buyer, while pending, in date and awaited, or once approved. */
  lemma ApproveSucceedsIff(w: World, db: Db, scope: Scope, a: string, now: int)
    requires Inv(w, db)
    ensures Approve(db, scope, a, now).1.Ok? <==>
            && SeesAuthorization(db, scope, a)
            && var auth := db.authorizations[a];
            && auth.checkoutId in db.checkouts
            && (auth.status == Approved
                || (auth.status == Pending && now < auth.validUntil
                    && db.checkouts[auth.checkoutId].status == T.AuthorizationPending))
  {
    hide T.Permit, StockAdds, AuditReplays, AllRows, Indexed;
    if SeesAuthorization(db, scope, a) {
      BoundCheckout(w, db, a);
      ApprovalRules(db.checkouts[db.authorizations[a].checkoutId].status, now);
    }
  }

  /** An approval that succeeds leaves the authorization approved and its checkout authorized, or as they were. */
  lemma ApprovedAnswer(w: World, db: Db, scope: Scope, a: string, now: int)
    requires Inv(w, db) && Approve(db, scope, a, now).1.Ok?
    ensures a in db.authorizations && db.authorizations[a].checkoutId in db.checkouts
    ensures var (after, answer) := Approve(db, scope, a, now);
            var auth := db.authorizations[a];
            && answer == Ok(auth.(status := Approved))
            && after.authorizations == db.authorizations[a := auth.(status := Approved)]
            && after.checkouts == (if auth.status == Approved then db.checkouts
                 else db.checkouts[auth.checkoutId := db.checkouts[auth.checkoutId].(status := T.Authorized)])
            && after.reservations == db.reservations && after.stock == db.stock
            && after.audit == db.audit + (if auth.status == Approved then [] else [
                 StatusChanged(auth.checkoutId, T.ApproveAuthorization, T.Buyer, T.AuthorizationPending, T.Authorized),
                 AuthorizationGranted(a, auth.checkoutId)])
  {
    hide T.Permit, StockAdds, AuditReplays, AllRows, Indexed;
    ApprovalIsVisible(db, scope, a, now);
    BoundCheckout(w, db, a);
    ApprovalRules(db.checkouts[db.authorizations[a].checkoutId].status, now);
    assert db.authorizations[a].status == Approved ==>
             db.authorizations[a := db.authorizations[a].(status := Approved)] == db.authorizations;
  }

  /** A cancellation succeeds exactly for its own buyer and tenant. */
  lemma CancelSucceedsIff(w: World, db: Db, scope: Scope, c: string, now: int)
    requires Inv(w, db)
    ensures Cancel(db, scope, c, now).1.Ok? <==> c in db.checkouts && Sees(scope, db.checkouts[c])
  {
    hide T.Permit, Inv, ApplyTransition, ReleaseStock;
    if c in db.checkouts && Sees(scope, db.checkouts[c]) && Active(db.checkouts[c].status) {
      OpenStatuses(w, db, c);
      CancellationRules(db.checkouts[c].status, now);
      CancelCloses(w, db, scope, c, now);
    }
  }

  lemma OpenStatuses(w: World, db: Db, c: string)
    requires Inv(w, db) && c in db.checkouts && Active(db.checkouts[c].status)
    ensures db.checkouts[c].status == T.CheckoutCreated || db.checkouts[c].status == T.PolicyChecked
         || db.checkouts[c].status == T.AuthorizationPending || db.checkouts[c].status == T.Authorized
  {
    hide Frozen, HoldFits, StockAdds, AuditReplays, Indexed, AuthOf;
    RowOf(w, db, c);
  }

  /** It closes an open checkout and gives its hold back; a closed one stays as it is. */
  lemma CancelledAnswer(w: World, db: Db, scope: Scope, c: string, now: int)
    requires Inv(w, db) && c in db.checkouts && Sees(scope, db.checkouts[c])
    ensures var row := db.checkouts[c];
            if row.status == T.Cancelled || row.status == T.CheckoutExpired
            then Cancel(db, scope, c, now) == (db, Ok(row))
            else Cancel(db, scope, c, now).1 == Ok(row.(status := T.Cancelled))
                 && ClosedAs(db, Cancel(db, scope, c, now).0, c, T.CancelCheckout, [])
  {
    hide T.Permit, Inv, ApplyTransition, ReleaseStock;
    if Active(db.checkouts[c].status) {
      OpenStatuses(w, db, c);
      CancellationRules(db.checkouts[c].status, now);
      CancelCloses(w, db, scope, c, now);
    }
  }

  /** A buyer closes one checkout: its hold is released, its stock is free again, and the log says so. */
  predicate ClosedAs(db: Db, after: Db, c: string, event: T.Event, last: seq<AuditEvent>) {
    && c in db.checkouts && c in db.reservations && db.reservations[c].offerId in db.stock
    && after.checkouts == db.checkouts[c := db.checkouts[c].(status := T.Cancelled)]
    && after.reservations == db.reservations[c := db.reservations[c].(status := Released)]
    && var hold := db.reservations[c];
    var s := db.stock[hold.offerId];
    && after.stock == db.stock[hold.offerId := s.(reserved := s.reserved - hold.quantity, version := s.version + 1)]
    && after.audit == db.audit + [StatusChanged(c, event, T.Buyer, db.checkouts[c].status, T.Cancelled),
                                  StockMoved(hold.offerId, c, hold.quantity, false)] + last
  }

  /** A rejection succeeds exactly for its own buyer, in date and on an open checkout, or once rejected. */
  lemma RejectSucceedsIff(w: World, db: Db, scope: Scope, a: string, now: int)
    requires Inv(w, db)
    ensures Reject(db, scope, a, now).1.Ok? <==>
            && SeesAuthorization(db, scope, a)
            && var auth := db.authorizations[a];
            && auth.checkoutId in db.checkouts
            && (auth.status == Rejected
                || (now < auth.validUntil && Active(db.checkouts[auth.checkoutId].status)))
  {
    hide T.Permit, StockAdds, AuditReplays, AllRows, Indexed, RejectedDb;
    if SeesAuthorization(db, scope, a) {
      BoundCheckout(w, db, a);
      if db.authorizations[a].status != Rejected && Active(db.checkouts[db.authorizations[a].checkoutId].status) {
        RejectableCloses(w, db, scope, a, now);
      }
    }
  }

  lemma RejectableCloses(w: World, db: Db, scope: Scope, a: string, now: int)
    requires Inv(w, db) && SeesAuthorization(db, scope, a) && db.authorizations[a].status != Rejected
    requires db.authorizations[a].checkoutId in db.checkouts
    requires Active(db.checkouts[db.authorizations[a].checkoutId].status)
    ensures var c := db.authorizations[a].checkoutId;
            && c in db.reservations && db.reservations[c].offerId in db.stock
            && RejectedDb(db, scope, a, now)
               == Ok(Closed(Marked(db, a, Rejected), c, T.RejectAuthorization, T.Buyer, T.Cancelled))
  {
    var c := db.authorizations[a].checkoutId;
    hide T.Permit, Frozen, HeldFor, History;
    BoundCheckout(w, db, a);
    RowOf(w, db, c);
    QuantitiesArePositive(w, db);
    RejectionRules(db.checkouts[c].status, now);
    SameStockAdds(db, Marked(db, a, Rejected));
    hide StockAdds, AllRows, Indexed, AuditReplays;
    ReleaseClosesHold(w, Marked(db, a, Rejected), c, T.RejectAuthorization, T.Buyer, now, T.Cancelled);
    hide ReleaseStock, ApplyTransition;
  }

  /** It marks the authorization and closes its checkout, or changes nothing when done before. */
  lemma RejectedAnswer(w: World, db: Db, scope: Scope, a: string, now: int)
    requires Inv(w, db) && Reject(db, scope, a, now).1.Ok?
    ensures a in db.authorizations
    ensures var (after, answer) := Reject(db, scope, a, now);
            var auth := db.authorizations[a];
            && answer == Ok(auth.(status := Rejected))
            && after.authorizations == db.authorizations[a := auth.(status := Rejected)]
            && if auth.status == Rejected then after == db
               else ClosedAs(db, after, auth.checkoutId, T.RejectAuthorization,
                             [AuthorizationRejected(a, auth.checkoutId)])
  {
    hide T.Permit, StockAdds, AuditReplays, AllRows, Indexed, RejectedDb;
    RejectSucceedsIff(w, db, scope, a, now);
    RejectionIsVisible(db, scope, a, now);
    if db.authorizations[a].status != Rejected {
      BoundCheckout(w, db, a);
      RejectableCloses(w, db, scope, a, now);
      hide RejectRefusal;
    } else {
      assert db.authorizations[a := db.authorizations[a].(status := Rejected)] == db.authorizations;
    }
  }

  /** What refuses an approval, a rejection or a cancellation; a refusal changes nothing. */
  lemma DecisionRefusals(w: World, db: Db, scope: Scope, a: string, now: int)
    requires Inv(w, db)
    ensures var (approved, yes) := Approve(db, scope, a, now);
            var (rejected, no) := Reject(db, scope, a, now);
            && (yes.Err? ==> approved == db) && (no.Err? ==> rejected == db)
            && (!SeesAuthorization(db, scope, a) ==> yes == no == Err(NotFound))
            && (SeesAuthorization(db, scope, a) ==>
                  var auth := db.authorizations[a];
                  && (auth.status == Rejected ==> yes == Err(Forbidden))
                  && (auth.status == Pending && auth.validUntil <= now ==>
                        yes == no == Err(AuthorizationExpired))
                  && (auth.status == Approved && auth.validUntil <= now ==> no == Err(AuthorizationExpired))
                  && (auth.status != Rejected && now < auth.validUntil && auth.checkoutId in db.checkouts
                      && !Active(db.checkouts[auth.checkoutId].status) ==>
                        no == Err(AlreadyFinalized) && (auth.status == Pending ==> yes.Err?)))
  {
    hide StockAdds, AuditReplays, AllRows, Indexed, RejectedDb;
    if SeesAuthorization(db, scope, a) {
      BoundCheckout(w, db, a);
      ApproveSucceedsIff(w, db, scope, a, now);
    }
    hide T.Permit;
  }

  /** A checkout of another buyer or tenant cannot be cancelled, nor told from one that is not there. */
  lemma CancellationRefusal(db: Db, scope: Scope, c: string, now: int)
    ensures c !in db.checkouts || !Sees(scope, db.checkouts[c]) ==>
              Cancel(db, scope, c, now) == (db, Err(NotFound))
    ensures Cancel(db, scope, c, now).1.Err? ==> Cancel(db, scope, c, now).0 == db
  {
    hide CancelledDb;
  }

  // ----- The expiry sweep ---------------------------------------------------

  lemma SweepRowKeepsOthers(w: World, db: Db, id: string, now: int, c: string)
    requires Inv(w, db) && c in db.checkouts && (id != c || now < db.checkouts[c].expiresAt)
    ensures c in db.reservations && c in SweepRow(db, id, now).reservations
    ensures SweepRow(db, id, now).reservations[c] == db.reservations[c]
  {
    hide Frozen, HoldFits, AuthFits, StockAdds, AuditReplays;
    HeldWhileActive(w, db, c);
    if Sweepable(db, id, now) {
      if db.checkouts[id].status == T.PolicyChecked {
        SweepSkipsPolicyChecked(db, id, now);
      } else {
        SweepRowCloses(w, db, id, now);
      }
      hide SweepRow, Inv;
    }
  }

  /** Nothing is swept early: a checkout that is not due keeps its row and its hold, whatever the batch. */
  lemma {:induction false} SweepSparesUndue(w: World, db: Db, batch: seq<string>, now: int, c: string)
    requires Inv(w, db) && c in db.checkouts && now < db.checkouts[c].expiresAt
    ensures var after := Sweep(db, batch, now);
            && c in after.checkouts && after.checkouts[c] == db.checkouts[c]
            && c in db.reservations && c in after.reservations && after.reservations[c] == db.reservations[c]
    decreases |batch|
  {
    HeldWhileActive(w, db, c);
    hide Inv, SweepRow;
    if batch != [] {
      var init, last := batch[..|batch| - 1], batch[|batch| - 1];
      SweepSparesUndue(w, db, init, now, c);
      SweepKeepsInv(w, db, init, now);
      SweepRowKeepsOthers(w, Sweep(db, init, now), last, now, c);
      SweepRowExpires(w, Sweep(db, init, now), last, now, c);
    }
  }

  /** What is due is swept: it expires and its hold is released. */
  lemma SweepTakesDue(w: World, db: Db, batch: seq<string>, now: int, c: string)
    requires Inv(w, db) && c in db.checkouts && c in batch && db.checkouts[c].expiresAt <= now
    requires db.checkouts[c].status == T.CheckoutCreated || db.checkouts[c].status == T.AuthorizationPending
          || db.checkouts[c].status == T.Authorized
    ensures var after := Sweep(db, batch, now);
            && c in after.checkouts && after.checkouts[c] == db.checkouts[c].(status := T.CheckoutExpired)
            && c in db.reservations && c in after.reservations
            && after.reservations[c] == db.reservations[c].(status := Released)
  {
    hide Inv, Sweep;
    SweepExpires(w, db, batch, now, c);
    SweepKeepsInv(w, db, batch, now);
    HoldOfRow(w, db, c);
    HoldOfRow(w, Sweep(db, batch, now), c);
  }

  lemma HoldOfRow(w: World, db: Db, c: string)
    requires Inv(w, db) && c in db.checkouts
    ensures c in db.reservations
    ensures var row := db.checkouts[c];
            db.reservations[c] == Reservation(row.offerId, row.quantity, if Active(row.status) then Held else Released)
  {
    hide Frozen, AuthFits, AuthOf, Indexed, StockAdds, AuditReplays;
    RowOf(w, db, c);
  }

  // ----- revalidate_for_payment ---------------------------------------------

  /** The gate opens exactly for an own, approved, unexpired authorization of this checkout at this very hash. */
  lemma GateOpensIff(db: Db, scope: Scope, a: string, c: string, hash: string, now: int)
    ensures Revalidate(db, scope, a, c, hash, now).Ok? <==>
            && SeesAuthorization(db, scope, a)
            && db.authorizations[a].checkoutId == c && db.authorizations[a].status == Approved
            && now < db.authorizations[a].validUntil && db.authorizations[a].priceHash == hash
    ensures Revalidate(db, scope, a, c, hash, now).Ok? ==>
              Revalidate(db, scope, a, c, hash, now).value == db.authorizations[a]
  {}

  /** What keeps it shut, in order. */
  lemma GateRefusals(db: Db, scope: Scope, a: string, c: string, hash: string, now: int)
    ensures var answer := Revalidate(db, scope, a, c, hash, now);
            if !SeesAuthorization(db, scope, a) then answer == Err(NotFound)
            else
              var auth := db.authorizations[a];
              && (auth.checkoutId != c <==> answer == Err(AuthorizationCheckoutMismatch))
              && (answer == Err(AuthorizationAlreadyConsumed) <==> auth.checkoutId == c && auth.status == Consumed)
              && (answer == Err(Forbidden) <==>
                    auth.checkoutId == c && auth.status != Consumed && auth.status != Approved)
              && (answer == Err(AuthorizationExpired) <==>
                    auth.checkoutId == c && auth.status == Approved && auth.validUntil <= now)
              && (answer == Err(PriceChanged) <==>
                    auth.checkoutId == c && auth.status == Approved && now < auth.validUntil && auth.priceHash != hash)
  {}

  /** In a reachable state that hash is the checkout's own, and any other is refused as a changed price. */
  lemma GateNeedsOwnHash(w: World, db: Db, scope: Scope, a: string, c: string, hash: string, now: int)
    requires Reachable(w, db)
    ensures Revalidate(db, scope, a, c, hash, now).Ok? ==>
              c in db.checkouts && hash == db.checkouts[c].priceHash
    ensures c in db.checkouts && hash != db.checkouts[c].priceHash
            && Revalidate(db, scope, a, c, db.checkouts[c].priceHash, now).Ok? ==>
              Revalidate(db, scope, a, c, hash, now) == Err(PriceChanged)
  {
    hide Inv, Reachable, Frozen;
    ReachableInv(w, db);
    if a in db.authorizations {
      BoundOnItsTerms(w, db, a);
    }
  }
}
