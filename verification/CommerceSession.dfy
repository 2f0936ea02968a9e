/**
 * The services over a database session: writes happen step by step, some of them before
 * a later check raises, and the unit of work commits or rolls back around each call.
 */
module CommerceSession {
  import opened Outcomes
  import opened CommerceModel
  import T = Transitions
  import Money
  import PriceHash

  /** Cancelling can only lead to CANCELLED. */
  lemma CancelTarget(t: T.Token, now: int)
    ensures var r := T.Permit(t, T.CancelCheckout, T.ContextFor(T.Buyer, now));
            r.Ok? ==> r.value == T.Cancelled
  {}

  /** Expiring one row selects or deselects no other. */
  lemma SweepRowIsLocal(db: Db, id: string, other: string, now: int)
    requires id != other
    ensures Sweepable(SweepRow(db, id, now), other, now) == Sweepable(db, other, now)
  {}

  /** The same row and the same hold on both sides. */
  predicate SameRow(db: Db, after: Db, c: string) {
    && c in db.checkouts && c in after.checkouts && after.checkouts[c] == db.checkouts[c]
    && (c in db.reservations <==> c in after.reservations)
    && (c in db.reservations ==> after.reservations[c] == db.reservations[c])
  }

  lemma SweepRowKeepsOther(db: Db, id: string, now: int, c: string)
    requires c in db.checkouts && id != c
    ensures SameRow(db, SweepRow(db, id, now), c)
  {
    hide T.Permit;
  }

  /** A sweep touches no row outside its batch. */
  lemma {:induction false} SweepKeepsOthers(db: Db, batch: seq<string>, now: int, c: string)
    requires c in db.checkouts && c !in batch
    ensures SameRow(db, Sweep(db, batch, now), c)
    decreases |batch|
  {
    hide SweepRow;
    if batch != [] {
      var n := |batch| - 1;
      SweepKeepsOthers(db, batch[..n], now, c);
      SweepRowKeepsOther(Sweep(db, batch[..n], now), batch[n], now, c);
    }
  }

  lemma UndueIsNotSelected(db: Db, batch: seq<string>, now: int, c: string)
    requires forall i :: 0 <= i < |batch| ==> Sweepable(db, batch[i], now)
    requires c in db.checkouts && now < db.checkouts[c].expiresAt
    ensures c !in batch
  {}

  class Session {
    const world: World

    /** What the last commit left. */
    var committed: Db

    // The session's working tables.
    var checkouts: map<string, Checkout>
    var authorizations: map<string, Authorization>
    var byCheckout: map<string, string>
    var reservations: map<string, Reservation>
    var stock: map<string, Stock>
    var audit: seq<AuditEvent>

    function Working(): Db
      reads this
    {
      Db(checkouts, authorizations, byCheckout, reservations, stock, audit)
    }

    /** No write is pending: the state between two units of work. */
    predicate Clean()
      reads this
    {
      Working() == committed
    }

    constructor (world: World, db: Db)
      ensures this.world == world && committed == db && Clean()
    {
      this.world := world;
      committed := db;
      checkouts, authorizations, byCheckout := db.checkouts, db.authorizations, db.byCheckout;
      reservations, stock, audit := db.reservations, db.stock, db.audit;
    }

    // ----- Commit, roll-back, savepoint -------------------------------------

    method Commit()
      modifies this`committed
      ensures committed == Working()
    {
      committed := Working();
    }

    /** Put the working tables back to an earlier state of them. */
    method Restore(db: Db)
      modifies this`checkouts, this`authorizations, this`byCheckout, this`reservations,
               this`stock, this`audit
      ensures Working() == db
    {
      checkouts, authorizations, byCheckout := db.checkouts, db.authorizations, db.byCheckout;
      reservations, stock, audit := db.reservations, db.stock, db.audit;
    }

    /** Leave the unit of work: commit on success, roll back on any error. */
    method Close(succeeded: bool)
      modifies this
      ensures Clean()
      ensures committed == if succeeded then old(Working()) else old(committed)
    {
      if succeeded { Commit(); } else { Restore(committed); }
    }

    // ----- Shared steps -----------------------------------------------------

    method TransitionCheckout(id: string, event: T.Event, actor: T.Actor, now: int)
      returns (r: Option<Error>)
      requires id in checkouts
      modifies this`checkouts, this`audit
      ensures match ApplyTransition(old(Working()), id, event, actor, now)
              case Err(e) => r == Some(e) && Working() == old(Working())
              case Ok(after) => r == None && Working() == after
    {
      hide T.Permit;
      var row := checkouts[id];
      var permitted := T.Permit(row.status, event, T.ContextFor(actor, now));
      if permitted.Err? { return Some(Refused(permitted.error)); }
      checkouts := checkouts[id := row.(status := permitted.value)];
      audit := audit + [StatusChanged(id, event, actor, row.status, permitted.value)];
      return None;
    }

    method Reserve(offerId: string, checkoutId: string, quantity: int) returns (r: Option<Error>)
      modifies this`stock, this`reservations, this`audit
      ensures match ReserveStock(old(Working()), offerId, checkoutId, quantity)
              case Err(e) => r == Some(e)
              case Ok(after) => r == None && Working() == after
    {
      if quantity < 1 { return Some(InventoryUnavailable); }
      if offerId !in stock || stock[offerId].available - stock[offerId].reserved < quantity {
        return Some(InventoryUnavailable);
      }
      var s := stock[offerId];
      stock := stock[offerId := s.(reserved := s.reserved + quantity, version := s.version + 1)];
      if checkoutId in reservations { return Some(IntegrityError); }
      reservations := reservations[checkoutId := Reservation(offerId, quantity, Held)];
      audit := audit + [StockMoved(offerId, checkoutId, quantity, true)];
      return None;
    }

    method Release(checkoutId: string, merchantId: string) returns (r: Option<Error>)
      modifies this`stock, this`reservations, this`audit
      ensures match ReleaseStock(old(Working()), checkoutId, merchantId)
              case Err(e) => r == Some(e) && Working() == old(Working())
              case Ok(after) => r == None && Working() == after
    {
      if checkoutId in checkouts && checkouts[checkoutId].merchantId != merchantId {
        return Some(Forbidden);
      }
      if checkoutId !in reservations || reservations[checkoutId].status != Held { return None; }
      var held := reservations[checkoutId];
      reservations := reservations[checkoutId := held.(status := Released)];
      if held.offerId in stock && stock[held.offerId].reserved >= held.quantity {
        var s := stock[held.offerId];
        stock := stock[held.offerId := s.(reserved := s.reserved - held.quantity, version := s.version + 1)];
        audit := audit + [StockMoved(held.offerId, checkoutId, held.quantity, false)];
      }
      return None;
    }

    // ----- Services: the bodies that run inside a unit of work ----------------

    method CreateCheckout(id: string, scope: Scope, offerId: string, quantity: int,
                          ttlMinutes: int, now: int) returns (r: Result<Checkout, Error>)
      requires Clean()
      modifies this
      ensures committed == old(committed)
      ensures var (after, outcome) := Create(world, committed, id, scope, offerId, quantity, ttlMinutes, now);
              r == outcome && (r.Ok? ==> Working() == after)
    {
      hide PriceHash.ToCanonicalDict, PriceHash.ComputePriceHash, SnapshotOf;
      if offerId !in world.offers || world.offers[offerId].merchantId != scope.merchantId
         || offerId !in stock {
        return Err(OfferNotFound);
      }
      var offer := world.offers[offerId];
      if !offer.active { return Err(OfferExpired); }
      if now >= offer.expiresAt { return Err(OfferExpired); }

      var total := Money.CalculateTotalMinor(offer.unitPriceMinor, quantity, 0, 0, 0);
      if total.Err? { return Err(BadMoney(total.error)); }

      var row := NewCheckout(world, scope, offerId, quantity, ttlMinutes, now);
      assert row.totalMinor == total.value;
      if id in checkouts { return Err(IntegrityError); }
      checkouts := checkouts[id := row];

      var reserved := Reserve(offerId, id, quantity);
      if reserved.Some? { return Err(reserved.value); }
      audit := audit + [CheckoutOpened(id, row.totalMinor, row.priceHash)];
      assert audit == committed.audit
        + [StockMoved(offerId, id, quantity, true), CheckoutOpened(id, row.totalMinor, row.priceHash)];
      return Ok(row);
    }

    method RequestAuthorization(authorizationId: string, scope: Scope, checkoutId: string,
                                decision: Decision, ttlMinutes: int, now: int)
      returns (r: Result<Authorization, Error>)
      requires Clean()
      modifies this
      ensures committed == old(committed)
      ensures var (after, outcome) :=
                Request(committed, authorizationId, scope, checkoutId, decision, ttlMinutes, now);
              r == outcome && (r.Ok? ==> Working() == after)
    {
      hide T.Permit;
      if checkoutId !in checkouts
         || !Owns(scope, checkouts[checkoutId].merchantId, checkouts[checkoutId].buyerId) {
        return Err(NotFound);
      }
      var row := checkouts[checkoutId];
      if row.status == T.Cancelled || row.status == T.CheckoutExpired { return Err(CheckoutExpired); }
      if row.status == T.Completed || row.status == T.PriceChanged { return Err(AlreadyFinalized); }

      var existing := Existing(Working(), scope, checkoutId);
      if existing.Some? {
        var auth := authorizations[existing.value];
        if auth.status == Approved || auth.status == Pending {
          if now >= auth.validUntil {
            authorizations := authorizations[existing.value := auth.(status := Expired)];
            return Err(AuthorizationExpired);
          }
          return Ok(auth);
        }
        if auth.status == Consumed { return Err(AuthorizationAlreadyConsumed); }
        return Err(Forbidden);
      }

      audit := audit + [PolicyEvaluated(checkoutId, decision)];
      if decision == Block { return Err(PolicyBlocked); }

      var status := if decision == Allow then Approved else Pending;
      var auth := Authorization(checkoutId, scope.buyerId, scope.merchantId, row.totalMinor,
                                row.currency, row.priceHash, status, now + ttlMinutes * MINUTE, now);
      // The new row is only checked against its keys when the session is flushed, below.
      var moved := TransitionCheckout(
        checkoutId,
        if status == Approved then T.UseExistingAuthorization else T.RequireApproval,
        T.System, now);
      if moved.Some? { return Err(moved.value); }
      if authorizationId in authorizations || checkoutId in byCheckout { return Err(IntegrityError); }
      authorizations := authorizations[authorizationId := auth];
      byCheckout := byCheckout[checkoutId := authorizationId];

      var last := if status == Pending then AuthorizationRequested(authorizationId, checkoutId)
                  else AuthorizationGranted(authorizationId, checkoutId);
      audit := audit + [last];
      assert audit == committed.audit
        + [PolicyEvaluated(checkoutId, decision),
           StatusChanged(checkoutId, RequestEvent(decision), T.System, row.status,
                         checkouts[checkoutId].status),
           last];
      return Ok(auth);
    }

    method ApproveAuthorization(scope: Scope, authorizationId: string, now: int)
      returns (r: Result<Authorization, Error>)
      requires Clean()
      modifies this
      ensures committed == old(committed)
      ensures var (after, outcome) := Approve(committed, scope, authorizationId, now);
              r == outcome && (r.Ok? ==> Working() == after)
    {
      hide T.Permit;
      if !VisibleAuthorization(Working(), scope, authorizationId) { return Err(NotFound); }
      var auth := authorizations[authorizationId];
      if auth.status == Approved { return Ok(auth); }
      if auth.status == Consumed { return Err(AuthorizationAlreadyConsumed); }
      if auth.status == Rejected || auth.status == Revoked { return Err(Forbidden); }
      if now >= auth.validUntil {
        authorizations := authorizations[authorizationId := auth.(status := Expired)];
        return Err(AuthorizationExpired);
      }

      // Written before the transition that may still raise.
      authorizations := authorizations[authorizationId := auth.(status := Approved)];
      if auth.checkoutId in checkouts {
        var moved := TransitionCheckout(auth.checkoutId, T.ApproveAuthorization, T.Buyer, now);
        if moved.Some? { return Err(moved.value); }
        ghost var row := committed.checkouts[auth.checkoutId];
        assert audit + [AuthorizationGranted(authorizationId, auth.checkoutId)]
            == committed.audit
               + [StatusChanged(auth.checkoutId, T.ApproveAuthorization, T.Buyer, row.status,
                                checkouts[auth.checkoutId].status),
                  AuthorizationGranted(authorizationId, auth.checkoutId)];
      }
      audit := audit + [AuthorizationGranted(authorizationId, auth.checkoutId)];
      return Ok(authorizations[authorizationId]);
    }

    method RejectAuthorization(scope: Scope, authorizationId: string, now: int)
      returns (r: Result<Authorization, Error>)
      requires Clean()
      modifies this
      ensures committed == old(committed)
      ensures var (after, outcome) := Reject(committed, scope, authorizationId, now);
              r == outcome && (r.Ok? ==> Working() == after)
    {
      hide T.Permit;
      if !VisibleAuthorization(Working(), scope, authorizationId) { return Err(NotFound); }
      var auth := authorizations[authorizationId];
      if auth.status == Rejected { return Ok(auth); }
      if auth.status == Consumed { return Err(AuthorizationAlreadyConsumed); }
      if auth.status == Revoked || auth.status == Expired { return Err(Forbidden); }
      if now >= auth.validUntil {
        authorizations := authorizations[authorizationId := auth.(status := Expired)];
        return Err(AuthorizationExpired);
      }
      if auth.checkoutId in checkouts && Final(checkouts[auth.checkoutId].status) {
        return Err(AlreadyFinalized);
      }

      authorizations := authorizations[authorizationId := auth.(status := Rejected)];
      if auth.checkoutId in checkouts {
        var moved := TransitionCheckout(auth.checkoutId, T.RejectAuthorization, T.Buyer, now);
        if moved.Some? { return Err(moved.value); }
        var released := Release(auth.checkoutId, scope.merchantId);
        if released.Some? { return Err(released.value); }
      }
      audit := audit + [AuthorizationRejected(authorizationId, auth.checkoutId)];
      return Ok(auth.(status := Rejected));
    }

    method CancelCheckout(scope: Scope, checkoutId: string, now: int)
      returns (r: Result<Checkout, Error>)
      requires Clean()
      modifies this
      ensures committed == old(committed)
      ensures var (after, outcome) := Cancel(committed, scope, checkoutId, now);
              r == outcome && (r.Ok? ==> Working() == after)
    {
      hide T.Permit;
      if checkoutId in checkouts { CancelTarget(checkouts[checkoutId].status, now); }
      if checkoutId !in checkouts
         || !Owns(scope, checkouts[checkoutId].merchantId, checkouts[checkoutId].buyerId) {
        return Err(NotFound);
      }
      var row := checkouts[checkoutId];
      if row.status == T.Cancelled || row.status == T.CheckoutExpired { return Ok(row); }
      // Transition first, release second: an illegal cancel leaves the hold alone.
      var moved := TransitionCheckout(checkoutId, T.CancelCheckout, T.Buyer, now);
      if moved.Some? { return Err(moved.value); }
      var released := Release(checkoutId, scope.merchantId);
      if released.Some? { return Err(released.value); }
      return Ok(checkouts[checkoutId]);
    }

    method RevalidateForPayment(scope: Scope, authorizationId: string, checkoutId: string,
                                currentHash: string, now: int)
      returns (r: Result<Authorization, Error>)
      requires Clean()
      modifies this
      ensures committed == old(committed)
      ensures r == Revalidate(committed, scope, authorizationId, checkoutId, currentHash, now)
      ensures r.Ok? <==>
                && authorizationId in committed.authorizations
                && var auth := committed.authorizations[authorizationId];
                && auth.merchantId == scope.merchantId && auth.buyerId == scope.buyerId
                && auth.checkoutId == checkoutId && auth.status == Approved && now < auth.validUntil
                && auth.priceHash == currentHash
      ensures r.Ok? ==> Working() == committed
    {
      if !VisibleAuthorization(Working(), scope, authorizationId) { return Err(NotFound); }
      var auth := authorizations[authorizationId];
      if auth.checkoutId != checkoutId { return Err(AuthorizationCheckoutMismatch); }
      if auth.status == Consumed { return Err(AuthorizationAlreadyConsumed); }
      if auth.status != Approved { return Err(Forbidden); }
      if now >= auth.validUntil {
        authorizations := authorizations[authorizationId := auth.(status := Expired)];
        return Err(AuthorizationExpired);
      }
      if auth.priceHash != currentHash { return Err(PriceChanged); }
      return Ok(auth);
    }

    // ----- Units of work ------------------------------------------------------

    /** Run one request as the facade and the routers do: service body, then close. */
    method Execute(op: Op) returns (succeeded: bool)
      requires Clean() && !op.SweepOp?
      modifies this
      ensures Clean()
      ensures committed == Step(world, old(committed), op)
      ensures !succeeded ==> committed == old(committed)
    {
      hide T.Permit;
      match op {
        case CreateOp(id, scope, offerId, quantity, ttl, now) =>
          var r := CreateCheckout(id, scope, offerId, quantity, ttl, now);
          succeeded := r.Ok?;
        case RequestOp(authorizationId, scope, checkoutId, decision, ttl, now) =>
          var r := RequestAuthorization(authorizationId, scope, checkoutId, decision, ttl, now);
          succeeded := r.Ok?;
        case ApproveOp(scope, authorizationId, now) =>
          var r := ApproveAuthorization(scope, authorizationId, now);
          succeeded := r.Ok?;
        case RejectOp(scope, authorizationId, now) =>
          var r := RejectAuthorization(scope, authorizationId, now);
          succeeded := r.Ok?;
        case CancelOp(scope, checkoutId, now) =>
          var r := CancelCheckout(scope, checkoutId, now);
          succeeded := r.Ok?;
      }
      Close(succeeded);
    }

    /** One item of the sweep in its own savepoint: an error undoes this row only. */
    method SweepItem(id: string, now: int)
      requires Sweepable(Working(), id, now)
      modifies this`checkouts, this`authorizations, this`byCheckout, this`reservations,
               this`stock, this`audit
      ensures Working() == SweepRow(old(Working()), id, now)
    {
      hide T.Permit;
      var savepoint := Working();
      var failed := TransitionCheckout(id, T.ExpireCheckout, T.System, now);
      if failed.None? {
        failed := Release(id, checkouts[id].merchantId);
      }
      if failed.Some? { Restore(savepoint); }
    }

    /** The worker's sweep: a batch of selected rows, and one commit at the end. */
    method SweepExpiredCheckouts(batch: seq<string>, now: int)
      requires Clean()
      requires forall i :: 0 <= i < |batch| ==> Sweepable(committed, batch[i], now)
      requires forall i, j :: 0 <= i < j < |batch| ==> batch[i] != batch[j]
      modifies this
      ensures Clean()
      ensures committed == Step(world, old(committed), SweepOp(batch, now))
      ensures forall c :: c in old(committed).checkouts && now < old(committed).checkouts[c].expiresAt ==>
                SameRow(old(committed), committed, c)
    {
      hide SweepRow, Sweepable, SameRow;
      forall c | c in committed.checkouts && now < committed.checkouts[c].expiresAt
        ensures SameRow(committed, Sweep(committed, batch, now), c)
      {
        UndueIsNotSelected(committed, batch, now, c);
        SweepKeepsOthers(committed, batch, now, c);
      }
      for k := 0 to |batch|
        invariant committed == old(committed)
        invariant Working() == Sweep(committed, batch[..k], now)
        invariant forall i :: k <= i < |batch| ==> Sweepable(Working(), batch[i], now)
      {
        ghost var before := Working();
        SweepItem(batch[k], now);
        forall i | k < i < |batch|
          ensures Sweepable(Working(), batch[i], now)
        {
          SweepRowIsLocal(before, batch[k], batch[i], now);
        }
        assert batch[..k + 1][..k] == batch[..k];
      }
      assert batch[..|batch|] == batch;
      Commit();
    }
  }
}
