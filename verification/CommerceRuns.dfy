/** Whole runs of the commerce operations, in any order, by any callers, at any times. */
module CommerceRuns {
  import opened Outcomes
  import opened CommerceModel
  import opened CommerceInvariant
  import opened CommerceSteps
  import T = Transitions
  import PriceHash
  import R = StatusRefinement

  lemma {:induction false} RunKeepsInv(w: World, db: Db, ops: seq<Op>)
    requires Inv(w, db)
    ensures Inv(w, Run(w, db, ops))
    decreases |ops|
  {
    hide Inv, Step;
    if ops != [] {
      RunKeepsInv(w, db, ops[..|ops| - 1]);
      StepKeepsInv(w, Run(w, db, ops[..|ops| - 1]), ops[|ops| - 1]);
    }
  }

  /** A committed state: what some run leaves of tables that start out empty. */
  ghost predicate Reachable(w: World, db: Db) {
    exists start, ops :: Initial(start) && Run(w, start, ops) == db
  }

  lemma ReachableInv(w: World, db: Db)
    requires Reachable(w, db)
    ensures Inv(w, db)
  {
    var start, ops :| Initial(start) && Run(w, start, ops) == db;
    InitialHolds(w, start);
    RunKeepsInv(w, start, ops);
  }

  // ----- Stock --------------------------------------------------------------

  /** Stock is conserved: one hold a checkout, kept while it is neither cancelled nor expired. */
  lemma StockIsConserved(w: World, db: Db)
    requires Reachable(w, db)
    ensures db.reservations.Keys == db.checkouts.Keys
    ensures forall c :: c in db.checkouts ==>
              && db.reservations[c].offerId == db.checkouts[c].offerId
              && db.reservations[c].quantity == db.checkouts[c].quantity >= 1
              && (db.reservations[c].status == Held <==> Active(db.checkouts[c].status))
    ensures forall o :: o in db.stock ==>
              && db.stock[o].reserved == HeldFor(db.reservations, o)
              && 0 <= db.stock[o].reserved <= db.stock[o].available
  {
    ReachableInv(w, db);
    hide Run, HeldFor, Frozen, AuthFits, AuditReplays, Indexed, AuthOf;
    RowsHaveKeys(w, db);
    forall c | c in db.checkouts
      ensures db.reservations[c].offerId == db.checkouts[c].offerId
      ensures db.reservations[c].quantity == db.checkouts[c].quantity >= 1
      ensures db.reservations[c].status == Held <==> Active(db.checkouts[c].status)
    {
      RowOf(w, db, c);
    }
  }

  // ----- Checkouts and their authorizations ---------------------------------

  /** An authorization of this checkout in this state, on the checkout's own terms. */
  predicate BoundAs(db: Db, c: string, status: AuthStatus)
    requires c in db.checkouts
  {
    var auth := AuthOf(db, c);
    auth.Some? && auth.value.status == status && SameTerms(db.checkouts[c], auth.value)
  }

  lemma FittedStates(db: Db, c: string)
    requires c in db.checkouts && AuthFits(db.checkouts[c], AuthOf(db, c))
    ensures match db.checkouts[c].status
            case CheckoutCreated => AuthOf(db, c).None?
            case PolicyChecked => AuthOf(db, c).None?
            case AuthorizationPending => BoundAs(db, c, Pending)
            case Authorized => BoundAs(db, c, Approved)
            case Cancelled => true
            case CheckoutExpired => true
            case _ => false
    ensures AuthOf(db, c).Some? ==>
              BoundAs(db, c, Pending) || BoundAs(db, c, Approved) || BoundAs(db, c, Rejected)
    ensures BoundAs(db, c, Rejected) ==> db.checkouts[c].status == T.Cancelled
  {}

  // ----- No modelled service writes `policy_checked` -------------------------

  ghost predicate NoneChecked(db: Db) {
    forall c :: c in db.checkouts ==> db.checkouts[c].status != T.PolicyChecked
  }

  lemma OnlyCheckPolicyChecks(t: T.Token, event: T.Event)
    requires event != T.CheckPolicy && T.RuleFor(t, event).Some?
    ensures T.RuleFor(t, event).value.target != T.PolicyChecked
  {}

  lemma PermitChecksNone(t: T.Token, event: T.Event, ctx: T.Context)
    requires event != T.CheckPolicy && T.Permit(t, event, ctx).Ok?
    ensures T.Permit(t, event, ctx).value != T.PolicyChecked
  {
    hide T.RuleFor;
    OnlyCheckPolicyChecks(t, event);
  }

  lemma TransitionChecksNone(db: Db, id: string, event: T.Event, actor: T.Actor, now: int)
    requires NoneChecked(db) && id in db.checkouts && event != T.CheckPolicy
    ensures var r := ApplyTransition(db, id, event, actor, now); r.Ok? ==> NoneChecked(r.value)
  {
    hide T.Permit;
    if T.Permit(db.checkouts[id].status, event, T.ContextFor(actor, now)).Ok? {
      PermitChecksNone(db.checkouts[id].status, event, T.ContextFor(actor, now));
    }
  }

  lemma ReleaseMovesNoCheckout(db: Db, c: string, merchantId: string)
    ensures var r := ReleaseStock(db, c, merchantId); r.Ok? ==> r.value.checkouts == db.checkouts
  {}

  lemma ClosingChecksNone(db: Db, c: string, event: T.Event, actor: T.Actor, now: int, merchantId: string)
    requires NoneChecked(db) && c in db.checkouts && event != T.CheckPolicy
    requires ApplyTransition(db, c, event, actor, now).Ok?
    ensures var r := ReleaseStock(ApplyTransition(db, c, event, actor, now).value, c, merchantId);
            r.Ok? ==> NoneChecked(r.value)
  {
    hide ApplyTransition, ReleaseStock;
    TransitionChecksNone(db, c, event, actor, now);
    ReleaseMovesNoCheckout(ApplyTransition(db, c, event, actor, now).value, c, merchantId);
  }

  lemma RequestChecksNone(db: Db, a: string, scope: Scope, c: string, decision: Decision, ttl: int, now: int)
    requires NoneChecked(db)
    ensures NoneChecked(Request(db, a, scope, c, decision, ttl, now).0)
  {
    hide RequestRefusal, Existing, NewAuthorization, T.Permit;
    if RequestRefusal(db, a, scope, c, decision, now).None? && Existing(db, scope, c).None? {
      RequestGuards(db, a, scope, c, decision, now);
      CreationRules(db.checkouts[c].status, decision, now);
    }
  }

  lemma ApproveChecksNone(db: Db, scope: Scope, a: string, now: int)
    requires NoneChecked(db)
    ensures NoneChecked(Approve(db, scope, a, now).0)
  {
    hide T.Permit;
    if a in db.authorizations && db.authorizations[a].checkoutId in db.checkouts {
      ApprovalRules(db.checkouts[db.authorizations[a].checkoutId].status, now);
    }
  }

  lemma RejectChecksNone(db: Db, scope: Scope, a: string, now: int)
    requires NoneChecked(db)
    ensures NoneChecked(Reject(db, scope, a, now).0)
  {
    RejectionIsVisible(db, scope, a, now);
    if RejectRefusal(db, scope, a, now).None? && db.authorizations[a].status != Rejected {
      hide ApplyTransition, ReleaseStock;
      var marked := Marked(db, a, Rejected);
      var c := db.authorizations[a].checkoutId;
      if c in db.checkouts {
        ClosingChecksNone(marked, c, T.RejectAuthorization, T.Buyer, now, scope.merchantId);
      }
    }
  }

  lemma CancelChecksNone(db: Db, scope: Scope, c: string, now: int)
    requires NoneChecked(db)
    ensures NoneChecked(Cancel(db, scope, c, now).0)
  {
    hide ApplyTransition, ReleaseStock;
    if c in db.checkouts && ApplyTransition(db, c, T.CancelCheckout, T.Buyer, now).Ok? {
      ClosingChecksNone(db, c, T.CancelCheckout, T.Buyer, now, scope.merchantId);
    }
  }

  lemma {:induction false} SweepChecksNone(db: Db, batch: seq<string>, now: int)
    requires NoneChecked(db)
    ensures NoneChecked(Sweep(db, batch, now))
    decreases |batch|
  {
    hide ApplyTransition, ReleaseStock, NoneChecked;
    if batch != [] {
      SweepChecksNone(db, batch[..|batch| - 1], now);
      var before, id := Sweep(db, batch[..|batch| - 1], now), batch[|batch| - 1];
      if id in before.checkouts && ApplyTransition(before, id, T.ExpireCheckout, T.System, now).Ok? {
        ClosingChecksNone(before, id, T.ExpireCheckout, T.System, now, before.checkouts[id].merchantId);
      }
    }
  }

  lemma CreateChecksNone(w: World, db: Db, id: string, scope: Scope, offerId: string, quantity: int,
                         ttl: int, now: int)
    requires NoneChecked(db)
    ensures NoneChecked(Create(w, db, id, scope, offerId, quantity, ttl, now).0)
  {
    if CreateRefusal(w, db, id, scope, offerId, quantity, now).None? {
      AcceptedOffer(w, db, id, scope, offerId, quantity, now);
      NewCheckoutIsCreated(w, scope, offerId, quantity, ttl, now);
      hide CreateRefusal, NewCheckout;
    }
  }

  lemma {:induction false} RunChecksNone(w: World, db: Db, ops: seq<Op>)
    requires NoneChecked(db)
    ensures NoneChecked(Run(w, db, ops))
    decreases |ops|
  {
    hide NoneChecked, Create, Request, Approve, Reject, Cancel, Sweep;
    if ops != [] {
      var before := Run(w, db, ops[..|ops| - 1]);
      RunChecksNone(w, db, ops[..|ops| - 1]);
      match ops[|ops| - 1] {
        case CreateOp(id, scope, offerId, quantity, ttl, now) =>
          CreateChecksNone(w, before, id, scope, offerId, quantity, ttl, now);
        case RequestOp(a, scope, c, decision, ttl, now) =>
          RequestChecksNone(before, a, scope, c, decision, ttl, now);
        case ApproveOp(scope, a, now) => ApproveChecksNone(before, scope, a, now);
        case RejectOp(scope, a, now) => RejectChecksNone(before, scope, a, now);
        case CancelOp(scope, c, now) => CancelChecksNone(before, scope, c, now);
        case SweepOp(batch, now) => SweepChecksNone(before, batch, now);
      }
    }
  }

  lemma ReachableChecksNone(w: World, db: Db)
    requires Reachable(w, db)
    ensures NoneChecked(db)
  {
    hide Run, NoneChecked;
    var start, ops :| Initial(start) && Run(w, start, ops) == db;
    EmptyChecksNone(start);
    RunChecksNone(w, start, ops);
  }

  lemma EmptyChecksNone(db: Db)
    requires Initial(db)
    ensures NoneChecked(db)
  {}

  /** The status of a checkout says which authorization it has, and the other way about. */
  lemma StatesAgree(w: World, db: Db, c: string)
    requires Reachable(w, db) && c in db.checkouts
    ensures match db.checkouts[c].status
            case CheckoutCreated => AuthOf(db, c).None?
            case AuthorizationPending => BoundAs(db, c, Pending)
            case Authorized => BoundAs(db, c, Approved)
            case Cancelled => true
            case CheckoutExpired => true
            case _ => false
    ensures AuthOf(db, c).Some? ==>
              BoundAs(db, c, Pending) || BoundAs(db, c, Approved) || BoundAs(db, c, Rejected)
    ensures BoundAs(db, c, Rejected) ==> db.checkouts[c].status == T.Cancelled
  {
    hide Reachable, Frozen, HoldFits, AuthFits, Indexed, StockAdds, AuditReplays, AllRows, AuthOf, BoundAs;
    ReachableInv(w, db);
    ReachableChecksNone(w, db);
    RowOf(w, db, c);
    FittedStates(db, c);
  }

  /** No checkout has two authorizations. */
  lemma OneAuthorization(w: World, db: Db, a: string, b: string)
    requires Reachable(w, db) && a in db.authorizations && b in db.authorizations
    ensures db.authorizations[a].checkoutId == db.authorizations[b].checkoutId ==> a == b
    ensures db.authorizations[a].checkoutId in db.checkouts
    ensures AuthOf(db, db.authorizations[a].checkoutId) == Some(db.authorizations[a])
  {
    ReachableInv(w, db);
    hide Run, AllRows, StockAdds, AuditReplays;
  }

  /** What a later state may differ in: statuses, new rows, and a longer log. */
  ghost predicate Extends(after: Db, db: Db) {
    && db.audit <= after.audit
    && (forall c :: c in db.checkouts ==>
          c in after.checkouts
          && after.checkouts[c] == db.checkouts[c].(status := after.checkouts[c].status))
    && (forall a :: a in db.authorizations ==>
          a in after.authorizations
          && after.authorizations[a] == db.authorizations[a].(status := after.authorizations[a].status))
    && after.stock.Keys == db.stock.Keys
    && (forall o :: o in db.stock ==> after.stock[o].available == db.stock[o].available)
  }

  lemma ExtendsIsTransitive(a: Db, b: Db, c: Db)
    requires Extends(b, a) && Extends(c, b)
    ensures Extends(c, a)
  {}

  lemma TransitionExtends(db: Db, id: string, event: T.Event, actor: T.Actor, now: int)
    requires id in db.checkouts
    ensures var r := ApplyTransition(db, id, event, actor, now); r.Ok? ==> Extends(r.value, db)
  {}

  lemma ReleaseExtends(db: Db, c: string, merchantId: string)
    ensures var r := ReleaseStock(db, c, merchantId); r.Ok? ==> Extends(r.value, db)
  {}

  lemma CreateExtends(w: World, db: Db, id: string, scope: Scope, offerId: string, quantity: int,
                      ttl: int, now: int)
    ensures Extends(Create(w, db, id, scope, offerId, quantity, ttl, now).0, db)
  {}

  lemma RequestExtends(db: Db, a: string, scope: Scope, c: string, decision: Decision, ttl: int, now: int)
    ensures Extends(Request(db, a, scope, c, decision, ttl, now).0, db)
  {
    if RequestRefusal(db, a, scope, c, decision, now).None? && Existing(db, scope, c).None? {
      RequestGuards(db, a, scope, c, decision, now);
      hide RequestRefusal, Existing, NewAuthorization, T.Permit;
    }
  }

  lemma ApproveExtends(db: Db, scope: Scope, a: string, now: int)
    ensures Extends(Approve(db, scope, a, now).0, db)
  {
    hide T.Permit, ApproveRefusal, Extends;
    ApprovalIsVisible(db, scope, a, now);
    if ApproveRefusal(db, scope, a, now).None? && db.authorizations[a].status != Approved {
      StatusWritesExtend(db, Approve(db, scope, a, now).0, a, db.authorizations[a].checkoutId);
    } else {
      ExtendsItself(db);
    }
  }

  lemma ExtendsItself(db: Db)
    ensures Extends(db, db)
  {}

  lemma StatusWritesExtend(db: Db, after: Db, a: string, c: string)
    requires a in db.authorizations && db.audit <= after.audit && after.stock == db.stock
    requires after.authorizations == db.authorizations[a := db.authorizations[a].(status := Approved)]
    requires c in db.checkouts ==>
               c in after.checkouts
               && after.checkouts == db.checkouts[c := db.checkouts[c].(status := after.checkouts[c].status)]
    requires c !in db.checkouts ==> after.checkouts == db.checkouts
    ensures Extends(after, db)
  {}

  lemma LogExtends(db: Db, e: AuditEvent)
    ensures Extends(Logged(db, e), db)
  {}

  lemma MarkExtends(db: Db, a: string, status: AuthStatus)
    requires a in db.authorizations
    ensures Extends(Marked(db, a, status), db)
  {}

  lemma RejectedDbExtends(db: Db, scope: Scope, a: string, now: int)
    requires a in db.authorizations && RejectedDb(db, scope, a, now).Ok?
    ensures Extends(RejectedDb(db, scope, a, now).value, db)
  {
    hide Extends, T.Permit, ApplyTransition, ReleaseStock;
    var c := db.authorizations[a].checkoutId;
    var marked := Marked(db, a, Rejected);
    MarkExtends(db, a, Rejected);
    if c in db.checkouts {
      ClosingExtends(marked, c, T.RejectAuthorization, T.Buyer, now, scope.merchantId);
      ExtendsIsTransitive(db, marked, RejectedDb(db, scope, a, now).value);
    }
  }

  lemma RejectExtends(db: Db, scope: Scope, a: string, now: int)
    ensures Extends(Reject(db, scope, a, now).0, db)
  {
    if RejectRefusal(db, scope, a, now).None? && db.authorizations[a].status != Rejected {
      hide RejectedDb;
      RejectedDbExtends(db, scope, a, now);
      hide RejectRefusal;
      var after := RejectedDb(db, scope, a, now).value;
      var e := AuthorizationRejected(a, db.authorizations[a].checkoutId);
      LogExtends(after, e);
      ExtendsIsTransitive(db, after, Logged(after, e));
      assert Reject(db, scope, a, now).0 == Logged(after, e);
    }
  }

  /** A permitted change of one checkout, followed by the release of its hold. */
  lemma ClosingExtends(db: Db, c: string, event: T.Event, actor: T.Actor, now: int, merchantId: string)
    requires c in db.checkouts && ApplyTransition(db, c, event, actor, now).Ok?
    ensures var r := ReleaseStock(ApplyTransition(db, c, event, actor, now).value, c, merchantId);
            r.Ok? ==> Extends(r.value, db)
  {
    hide ApplyTransition, ReleaseStock, Extends;
    TransitionExtends(db, c, event, actor, now);
    var moved := ApplyTransition(db, c, event, actor, now).value;
    ReleaseExtends(moved, c, merchantId);
    var r := ReleaseStock(moved, c, merchantId);
    if r.Ok? {
      ExtendsIsTransitive(db, moved, r.value);
    }
  }

  lemma CancelExtends(db: Db, scope: Scope, c: string, now: int)
    ensures Extends(Cancel(db, scope, c, now).0, db)
  {
    hide ApplyTransition, ReleaseStock, Extends;
    ExtendsItself(db);
    if c in db.checkouts && ApplyTransition(db, c, T.CancelCheckout, T.Buyer, now).Ok? {
      ClosingExtends(db, c, T.CancelCheckout, T.Buyer, now, scope.merchantId);
    }
  }

  lemma SweepRowExtends(db: Db, id: string, now: int)
    ensures Extends(SweepRow(db, id, now), db)
  {
    hide ApplyTransition, ReleaseStock, Extends;
    ExtendsItself(db);
    if id in db.checkouts && ApplyTransition(db, id, T.ExpireCheckout, T.System, now).Ok? {
      ClosingExtends(db, id, T.ExpireCheckout, T.System, now, db.checkouts[id].merchantId);
    }
  }

  lemma {:induction false} SweepExtends(db: Db, batch: seq<string>, now: int)
    ensures Extends(Sweep(db, batch, now), db)
    decreases |batch|
  {
    if batch != [] {
      var before := Sweep(db, batch[..|batch| - 1], now);
      SweepExtends(db, batch[..|batch| - 1], now);
      SweepRowExtends(before, batch[|batch| - 1], now);
      hide Extends, SweepRow;
      ExtendsIsTransitive(db, before, Sweep(db, batch, now));
    }
  }

  lemma StepExtends(w: World, db: Db, op: Op)
    ensures Extends(Step(w, db, op), db)
  {
    hide Extends;
    match op {
      case CreateOp(id, scope, offerId, quantity, ttl, now) =>
        CreateExtends(w, db, id, scope, offerId, quantity, ttl, now);
      case RequestOp(a, scope, c, decision, ttl, now) =>
        RequestExtends(db, a, scope, c, decision, ttl, now);
      case ApproveOp(scope, a, now) => ApproveExtends(db, scope, a, now);
      case RejectOp(scope, a, now) => RejectExtends(db, scope, a, now);
      case CancelOp(scope, c, now) => CancelExtends(db, scope, c, now);
      case SweepOp(batch, now) => SweepExtends(db, batch, now);
    }
  }

  /** From any state: no row disappears, and only statuses, holds and the end of the log change. */
  lemma {:induction false} RunFreezes(w: World, db: Db, ops: seq<Op>)
    ensures Extends(Run(w, db, ops), db)
    decreases |ops|
  {
    if ops != [] {
      var before := Run(w, db, ops[..|ops| - 1]);
      RunFreezes(w, db, ops[..|ops| - 1]);
      StepExtends(w, before, ops[|ops| - 1]);
      hide Extends, Step;
      ExtendsIsTransitive(db, before, Run(w, db, ops));
    }
  }

  /** Rehashing a stored snapshot, which also holds the product id, gives the stored hash. */
  lemma PricesStayFrozen(w: World, db: Db, c: string)
    requires Reachable(w, db) && c in db.checkouts
    ensures Frozen(w, db.checkouts[c])
  {
    ReachableInv(w, db);
    hide Run, Frozen;
    RowOf(w, db, c);
  }

  /** Every checkout's log replays the rules from `created` to its status, roll-backs included. */
  lemma AuditReplaysEveryRun(w: World, db: Db, c: string)
    requires Reachable(w, db)
    ensures if c in db.checkouts then Chained(History(db.audit, c), db.checkouts[c].status)
            else History(db.audit, c) == []
  {
    ReachableInv(w, db);
    hide Run, History, Chained;
  }

  /** A history that replays is short: each change uses up rank, and `created` has ten. */
  lemma {:induction false} ChainIsBounded(events: seq<AuditEvent>, status: T.Token)
    requires Chained(events, status)
    ensures |events| + R.Rank(status) <= R.Rank(T.CheckoutCreated) == 10
    decreases |events|
  {
    if events != [] {
      var n := |events| - 1;
      var e := events[n];
      R.RankDrops(e.fromStatus, e.event);
      hide R.Rank, T.RuleFor;
      assert Chained(events[..n], e.fromStatus) by {
        hide Legal;
      }
      ChainIsBounded(events[..n], e.fromStatus);
    }
  }

  // ----- The payment gate ---------------------------------------------------

  lemma BoundOnItsTerms(w: World, db: Db, a: string)
    requires Inv(w, db) && a in db.authorizations
    ensures db.authorizations[a].checkoutId in db.checkouts
    ensures SameTerms(db.checkouts[db.authorizations[a].checkoutId], db.authorizations[a])
    ensures Frozen(w, db.checkouts[db.authorizations[a].checkoutId])
  {
    hide Frozen, HoldFits, StockAdds, AuditReplays;
    RowOf(w, db, db.authorizations[a].checkoutId);
  }

  /** The ceiling is the frozen unit price times the quantity, in the checkout's currency. */
  predicate CoversPrice(row: Checkout, auth: Authorization) {
    && PriceHash.UnitPriceMinor in row.snapshot && row.snapshot[PriceHash.UnitPriceMinor].Num?
    && auth.ceilingMinor == row.snapshot[PriceHash.UnitPriceMinor].n * row.quantity
    && auth.currency == row.currency
  }

  lemma TermsCoverPrice(w: World, row: Checkout, auth: Authorization)
    requires SameTerms(row, auth) && Frozen(w, row)
    ensures CoversPrice(row, auth)
  {}

  lemma GateOnOwnHash(db: Db, scope: Scope, a: string, c: string, now: int)
    requires c in db.checkouts
    requires a in db.authorizations ==>
               && db.authorizations[a].checkoutId in db.checkouts
               && SameTerms(db.checkouts[db.authorizations[a].checkoutId], db.authorizations[a])
    ensures Revalidate(db, scope, a, c, db.checkouts[c].priceHash, now).Ok? <==>
              && VisibleAuthorization(db, scope, a)
              && db.authorizations[a].checkoutId == c
              && db.authorizations[a].status == Approved
              && now < db.authorizations[a].validUntil
    ensures Revalidate(db, scope, a, c, db.checkouts[c].priceHash, now).Ok? ==>
              Revalidate(db, scope, a, c, db.checkouts[c].priceHash, now).value == db.authorizations[a]
  {}

  /** With the checkout's own hash, the gate opens exactly for a live approval of that checkout. */
  lemma PaymentGate(w: World, db: Db, scope: Scope, a: string, c: string, now: int)
    requires Reachable(w, db) && c in db.checkouts
    ensures Revalidate(db, scope, a, c, db.checkouts[c].priceHash, now).Ok? <==>
              && VisibleAuthorization(db, scope, a)
              && db.authorizations[a].checkoutId == c
              && db.authorizations[a].status == Approved
              && now < db.authorizations[a].validUntil
    ensures Revalidate(db, scope, a, c, db.checkouts[c].priceHash, now).Ok? ==>
              CoversPrice(db.checkouts[c], Revalidate(db, scope, a, c, db.checkouts[c].priceHash, now).value)
  {
    hide Inv, Reachable, Frozen, SameTerms;
    ReachableInv(w, db);
    if a in db.authorizations {
      BoundOnItsTerms(w, db, a);
      TermsCoverPrice(w, db.checkouts[db.authorizations[a].checkoutId], db.authorizations[a]);
    }
    GateOnOwnHash(db, scope, a, c, now);
    hide CoversPrice;
  }

  /** The policy allowed this authorization outright, or its buyer approved it. */
  predicate Consent(before: Db, op: Op, after: Db, a: string) {
    && a in after.authorizations && after.authorizations[a].status == Approved
    && (match op
        case RequestOp(id, scope, c, decision, _, _) =>
          && id == a && decision == Allow && a !in before.authorizations
          && c == after.authorizations[a].checkoutId
          && Owns(scope, after.authorizations[a].merchantId, after.authorizations[a].buyerId)
        case ApproveOp(scope, id, _) =>
          && id == a && a in before.authorizations && before.authorizations[a].status != Approved
          && Owns(scope, after.authorizations[a].merchantId, after.authorizations[a].buyerId)
        case _ => false)
  }

  ghost predicate ApprovedIn(db: Db, a: string) {
    a in db.authorizations && db.authorizations[a].status == Approved
  }

  lemma RequestNeedsAllow(db: Db, id: string, scope: Scope, c: string, decision: Decision, ttl: int,
                          now: int, a: string)
    requires !ApprovedIn(db, a) && ApprovedIn(Request(db, id, scope, c, decision, ttl, now).0, a)
    ensures Consent(db, RequestOp(id, scope, c, decision, ttl, now),
                    Request(db, id, scope, c, decision, ttl, now).0, a)
  {}

  lemma ApproveNeedsBuyer(db: Db, scope: Scope, id: string, now: int, a: string)
    requires !ApprovedIn(db, a) && ApprovedIn(Approve(db, scope, id, now).0, a)
    ensures Consent(db, ApproveOp(scope, id, now), Approve(db, scope, id, now).0, a)
  {}

  lemma ReleaseApprovesNothing(db: Db, c: string, merchantId: string)
    ensures var r := ReleaseStock(db, c, merchantId);
            r.Ok? ==> r.value.authorizations == db.authorizations
  {}

  lemma RejectApprovesNothing(db: Db, scope: Scope, id: string, now: int, a: string)
    requires ApprovedIn(Reject(db, scope, id, now).0, a)
    ensures ApprovedIn(db, a)
  {}

  lemma CancelApprovesNothing(db: Db, scope: Scope, c: string, now: int)
    ensures Cancel(db, scope, c, now).0.authorizations == db.authorizations
  {}

  lemma {:induction false} SweepApprovesNothing(db: Db, batch: seq<string>, now: int)
    ensures Sweep(db, batch, now).authorizations == db.authorizations
    decreases |batch|
  {
    hide T.Permit, ReleaseStock;
    if batch != [] {
      SweepApprovesNothing(db, batch[..|batch| - 1], now);
      var before, id := Sweep(db, batch[..|batch| - 1], now), batch[|batch| - 1];
      if Sweepable(before, id, now) && ApplyTransition(before, id, T.ExpireCheckout, T.System, now).Ok? {
        ReleaseApprovesNothing(ApplyTransition(before, id, T.ExpireCheckout, T.System, now).value, id,
                               before.checkouts[id].merchantId);
      }
    }
  }

  lemma ApprovalNeedsConsent(w: World, db: Db, op: Op, a: string)
    requires !ApprovedIn(db, a) && ApprovedIn(Step(w, db, op), a)
    ensures Consent(db, op, Step(w, db, op), a)
  {
    hide Request, Approve, Reject, Cancel, Sweep, Consent;
    match op {
      case CreateOp(id, scope, offerId, quantity, ttl, now) =>
      case RequestOp(id, scope, c, decision, ttl, now) =>
        RequestNeedsAllow(db, id, scope, c, decision, ttl, now, a);
      case ApproveOp(scope, id, now) => ApproveNeedsBuyer(db, scope, id, now, a);
      case RejectOp(scope, id, now) => RejectApprovesNothing(db, scope, id, now, a);
      case CancelOp(scope, c, now) => CancelApprovesNothing(db, scope, c, now);
      case SweepOp(batch, now) => SweepApprovesNothing(db, batch, now);
    }
  }

  lemma {:induction false} ApprovedAfterConsent(w: World, db0: Db, ops: seq<Op>, a: string)
    returns (i: nat)
    requires db0.authorizations == map[] && ApprovedIn(Run(w, db0, ops), a)
    ensures i < |ops| && Consent(Run(w, db0, ops[..i]), ops[i], Run(w, db0, ops[..i + 1]), a)
    decreases |ops|
  {
    hide Step, Consent;
    assert ops != [];
    var n := |ops| - 1;
    var init := ops[..n];
    if ApprovedIn(Run(w, db0, init), a) {
      i := ApprovedAfterConsent(w, db0, init, a);
      assert init[..i] == ops[..i] && init[..i + 1] == ops[..i + 1];
    } else {
      i := n;
      assert ops[..n + 1] == ops;
      ApprovalNeedsConsent(w, Run(w, db0, init), ops[n], a);
    }
  }

  /** The gate never opens unless the policy allowed the checkout or its buyer approved it. */
  lemma NoPaymentWithoutConsent(w: World, db0: Db, ops: seq<Op>, scope: Scope, a: string, c: string,
                                hash: string, now: int)
    requires Initial(db0) && Revalidate(Run(w, db0, ops), scope, a, c, hash, now).Ok?
    ensures exists i :: 0 <= i < |ops|
              && Consent(Run(w, db0, ops[..i]), ops[i], Run(w, db0, ops[..i + 1]), a)
              && Run(w, db0, ops[..i + 1]).authorizations[a].checkoutId == c
              && Owns(scope, Run(w, db0, ops[..i + 1]).authorizations[a].merchantId,
                      Run(w, db0, ops[..i + 1]).authorizations[a].buyerId)
  {
    var i := ApprovedAfterConsent(w, db0, ops, a);
    RunInTwo(w, db0, ops, i + 1);
    RunFreezes(w, Run(w, db0, ops[..i + 1]), ops[i + 1..]);
    hide Run;
  }

  lemma {:induction false} RunInTwo(w: World, db: Db, ops: seq<Op>, k: nat)
    requires k <= |ops|
    ensures Run(w, db, ops) == Run(w, Run(w, db, ops[..k]), ops[k..])
    decreases |ops|
  {
    hide Step;
    if k == |ops| {
      assert ops[..k] == ops;
    } else {
      var n := |ops| - 1;
      RunInTwo(w, db, ops[..n], k);
      assert ops[..n][..k] == ops[..k] && ops[..n][k..] == ops[k..][..n - k];
    }
  }

  /** A cancellation of an active checkout by its buyer closes it. */
  lemma CancelCloses(w: World, db: Db, scope: Scope, c: string, now: int)
    requires Inv(w, db) && c in db.checkouts && Active(db.checkouts[c].status)
    requires Owns(scope, db.checkouts[c].merchantId, db.checkouts[c].buyerId)
    requires T.Permit(db.checkouts[c].status, T.CancelCheckout, T.ContextFor(T.Buyer, now)) == Ok(T.Cancelled)
    ensures c in db.reservations && db.reservations[c].offerId in db.stock
    ensures Cancel(db, scope, c, now)
         == (Closed(db, c, T.CancelCheckout, T.Buyer, T.Cancelled),
             Ok(db.checkouts[c].(status := T.Cancelled)))
  {
    hide T.Permit, Frozen, AuthFits, HeldFor;
    RowOf(w, db, c);
    QuantitiesArePositive(w, db);
    ReleaseClosesHold(w, db, c, T.CancelCheckout, T.Buyer, now, T.Cancelled);
    hide ApplyTransition, ReleaseStock, Inv, HoldFits;
  }

  lemma GateReadsNoCheckout(db: Db, after: Db, scope: Scope, a: string, c: string, hash: string, now: int)
    requires after.authorizations == db.authorizations
    ensures Revalidate(after, scope, a, c, hash, now) == Revalidate(db, scope, a, c, hash, now)
  {}

  // ----- What a sweep does --------------------------------------------------

  /** `policy_checked` is swept for, but has no expiry rule, so the row is left as it is. */
  lemma SweepSkipsPolicyChecked(db: Db, id: string, now: int)
    requires id in db.checkouts && db.checkouts[id].status == T.PolicyChecked
    ensures SweepRow(db, id, now) == db
  {}

  /** The sweep closes every other row it selects. */
  lemma SweepRowCloses(w: World, db: Db, id: string, now: int)
    requires Inv(w, db) && Sweepable(db, id, now) && db.checkouts[id].status != T.PolicyChecked
    ensures id in db.reservations && db.reservations[id].offerId in db.stock
    ensures SweepRow(db, id, now) == Closed(db, id, T.ExpireCheckout, T.System, T.CheckoutExpired)
  {
    hide T.Permit, Frozen, AuthFits, HeldFor, Indexed, AuditReplays;
    ExpiryRules(db.checkouts[id].status, now);
    RowOf(w, db, id);
    QuantitiesArePositive(w, db);
    ReleaseClosesHold(w, db, id, T.ExpireCheckout, T.System, now, T.CheckoutExpired);
    hide ApplyTransition, ReleaseStock, Inv, HoldFits;
  }

  lemma SweepRowExpires(w: World, db: Db, id: string, now: int, c: string)
    requires Inv(w, db) && c in db.checkouts
    ensures c in SweepRow(db, id, now).checkouts
    ensures SweepRow(db, id, now).checkouts[c]
         == if id == c && Sweepable(db, c, now) && db.checkouts[c].status != T.PolicyChecked
            then db.checkouts[c].(status := T.CheckoutExpired) else db.checkouts[c]
  {
    hide Frozen, HoldFits, AuthFits, StockAdds, AuditReplays;
    if Sweepable(db, id, now) {
      if db.checkouts[id].status == T.PolicyChecked {
        SweepSkipsPolicyChecked(db, id, now);
      } else {
        SweepRowCloses(w, db, id, now);
      }
      hide SweepRow, Inv;
    }
  }

  /** Of the rows it selected, a sweep expires every one but `policy_checked`; it touches no other. */
  lemma {:induction false} SweepExpires(w: World, db: Db, batch: seq<string>, now: int, c: string)
    requires Inv(w, db) && c in db.checkouts
    ensures c in Sweep(db, batch, now).checkouts
    ensures Sweep(db, batch, now).checkouts[c]
         == if c in batch && Sweepable(db, c, now) && db.checkouts[c].status != T.PolicyChecked
            then db.checkouts[c].(status := T.CheckoutExpired) else db.checkouts[c]
    decreases |batch|
  {
    hide Inv, SweepRow;
    if batch != [] {
      var init, last := batch[..|batch| - 1], batch[|batch| - 1];
      assert batch == init + [last];
      SweepExpires(w, db, init, now, c);
      SweepKeepsInv(w, db, init, now);
      SweepRowExpires(w, Sweep(db, init, now), last, now, c);
    }
  }

  /** The row a policy check would leave: swept for, never expired, and so holding its stock for good. */
  lemma CheckedRowIsNeverSwept(w: World, db: Db, c: string, checkedAt: int, batch: seq<string>, now: int)
    requires Inv(w, db) && c in db.checkouts && db.checkouts[c].status == T.CheckoutCreated
    requires db.checkouts[c].expiresAt <= now
    ensures var checked := ApplyTransition(db, c, T.CheckPolicy, T.System, checkedAt);
            && checked.Ok? && Inv(w, checked.value) && Sweepable(checked.value, c, now)
            && var after := Sweep(checked.value, batch, now);
            && c in after.checkouts && after.checkouts[c].status == T.PolicyChecked
            && c in after.reservations && after.reservations[c].status == Held
  {
    hide Inv, Sweep, Frozen, AuthFits, T.Permit;
    CheckRules(db.checkouts[c].status, checkedAt);
    CheckKeepsInv(w, db, c, checkedAt);
    var checked := ApplyTransition(db, c, T.CheckPolicy, T.System, checkedAt).value;
    SweepExpires(w, checked, batch, now, c);
    SweepKeepsInv(w, checked, batch, now);
    HeldWhileActive(w, Sweep(checked, batch, now), c);
  }

  lemma HeldWhileActive(w: World, db: Db, c: string)
    requires Inv(w, db) && c in db.checkouts
    ensures c in db.reservations && (db.reservations[c].status == Held <==> Active(db.checkouts[c].status))
  {
    hide Frozen, AuthFits, AuthOf, Indexed, StockAdds, AuditReplays;
    RowOf(w, db, c);
  }

  // ----- Open gates on closed checkouts -------------------------------------

  /** An open gate is a payable checkout exactly while the checkout is neither cancelled nor expired. */
  lemma OpenGateIsPayableIff(w: World, db: Db, scope: Scope, a: string, c: string, hash: string, now: int)
    requires Reachable(w, db) && Revalidate(db, scope, a, c, hash, now).Ok?
    ensures c in db.checkouts
    ensures db.checkouts[c].status == T.Authorized <==>
            db.checkouts[c].status != T.Cancelled && db.checkouts[c].status != T.CheckoutExpired
  {
    hide Reachable, Run, Frozen, HoldFits, SameTerms, StockAdds, AuditReplays;
    ReachableInv(w, db);
    BoundOnItsTerms(w, db, a);
    RowOf(w, db, c);
  }

  /** Cancelling leaves the gate open: it does not look at the checkout's status. */
  lemma CancellationLeavesGateOpen(w: World, db: Db, scope: Scope, a: string, c: string,
                                   later: int, hash: string, now: int)
    requires Inv(w, db) && c in db.checkouts && db.checkouts[c].status == T.Authorized
    requires Revalidate(db, scope, a, c, hash, now).Ok?
    ensures var after := Cancel(db, scope, c, later).0;
            && c in after.checkouts && after.checkouts[c].status == T.Cancelled
            && Revalidate(after, scope, a, c, hash, now).Ok?
  {
    hide Inv, T.Permit, Cancel, Frozen;
    CancellationRules(db.checkouts[c].status, later);
    BoundOnItsTerms(w, db, a);
    CancelCloses(w, db, scope, c, later);
    GateReadsNoCheckout(db, Cancel(db, scope, c, later).0, scope, a, c, hash, now);
  }

  /** So does expiring an authorized checkout in a sweep. */
  lemma ExpiryLeavesGateOpen(w: World, db: Db, scope: Scope, a: string, c: string, batch: seq<string>,
                             later: int, hash: string, now: int)
    requires Inv(w, db) && c in db.checkouts && db.checkouts[c].status == T.Authorized
    requires db.checkouts[c].expiresAt <= later && c in batch
    requires Revalidate(db, scope, a, c, hash, now).Ok?
    ensures var after := Sweep(db, batch, later);
            && c in after.checkouts && after.checkouts[c].status == T.CheckoutExpired
            && Revalidate(after, scope, a, c, hash, now).Ok?
  {
    hide Inv, Sweep, Frozen;
    SweepExpires(w, db, batch, later, c);
    SweepApprovesNothing(db, batch, later);
    GateReadsNoCheckout(db, Sweep(db, batch, later), scope, a, c, hash, now);
  }

  /** An offer of this merchant that can be bought now. */
  predicate OnSale(w: World, db: Db, scope: Scope, offerId: string, quantity: int, now: int) {
    && offerId in w.offers && offerId in db.stock
    && w.offers[offerId].merchantId == scope.merchantId && w.offers[offerId].active
    && now < w.offers[offerId].expiresAt && w.offers[offerId].unitPriceMinor >= 0
    && 1 <= quantity <= db.stock[offerId].available - db.stock[offerId].reserved
  }

  lemma OnSaleIsOpened(w: World, db: Db, id: string, scope: Scope, offerId: string, quantity: int, now: int)
    requires OnSale(w, db, scope, offerId, quantity, now) && id !in db.checkouts && id !in db.reservations
    ensures CreateRefusal(w, db, id, scope, offerId, quantity, now).None?
  {}

  lemma FreshIsAllowed(db: Db, a: string, scope: Scope, c: string, now: int)
    requires c in db.checkouts && Owns(scope, db.checkouts[c].merchantId, db.checkouts[c].buyerId)
    requires db.checkouts[c].status == T.CheckoutCreated && c !in db.byCheckout && a !in db.authorizations
    ensures RequestRefusal(db, a, scope, c, Allow, now).None? && Existing(db, scope, c).None?
  {
    CreationRules(db.checkouts[c].status, Allow, now);
    hide T.Permit;
  }

  /** Opening a checkout and having it allowed: the gate opens. */
  function Bought(id: string, a: string, scope: Scope, offerId: string, quantity: int, ttl: int, t0: int,
                  authTtl: int, t1: int): seq<Op>
  {
    [CreateOp(id, scope, offerId, quantity, ttl, t0), RequestOp(a, scope, id, Allow, authTtl, t1)]
  }

  lemma RunStep(w: World, db: Db, ops: seq<Op>, op: Op)
    ensures Run(w, db, ops + [op]) == Step(w, Run(w, db, ops), op)
  {
    assert (ops + [op])[..|ops|] == ops;
  }

  lemma OpenedRow(w: World, db: Db, id: string, scope: Scope, offerId: string, quantity: int, ttl: int, now: int)
    requires Initial(db) && OnSale(w, db, scope, offerId, quantity, now)
    ensures var after := Create(w, db, id, scope, offerId, quantity, ttl, now).0;
            && id in after.checkouts && after.checkouts[id].status == T.CheckoutCreated
            && Owns(scope, after.checkouts[id].merchantId, after.checkouts[id].buyerId)
            && after.checkouts[id].expiresAt == now + ttl * MINUTE
            && after.byCheckout == map[] && after.authorizations == map[]
  {
    OnSaleIsOpened(w, db, id, scope, offerId, quantity, now);
    hide CreateRefusal, PriceHash.ComputePriceHash, PriceHash.ToCanonicalDict, SnapshotOf;
  }

  lemma AllowedRow(db: Db, a: string, scope: Scope, c: string, ttl: int, t: int, now: int)
    requires c in db.checkouts && Owns(scope, db.checkouts[c].merchantId, db.checkouts[c].buyerId)
    requires db.checkouts[c].status == T.CheckoutCreated && c !in db.byCheckout && a !in db.authorizations
    requires now < t + ttl * MINUTE
    ensures var after := Request(db, a, scope, c, Allow, ttl, t).0;
            && c in after.checkouts && after.checkouts[c] == db.checkouts[c].(status := T.Authorized)
            && Revalidate(after, scope, a, c, after.checkouts[c].priceHash, now).Ok?
  {
    hide RequestRefusal, Existing, T.Permit, Request;
    FreshIsAllowed(db, a, scope, c, t);
    CreationRules(db.checkouts[c].status, Allow, t);
    RequestBinds(db, a, scope, c, Allow, ttl, t);
  }

  lemma BoughtOpensGate(w: World, db: Db, id: string, a: string, scope: Scope, offerId: string, quantity: int,
                        ttl: int, t0: int, authTtl: int, t1: int, now: int)
    requires Initial(db) && OnSale(w, db, scope, offerId, quantity, t0) && now < t1 + authTtl * MINUTE
    ensures var after := Run(w, db, Bought(id, a, scope, offerId, quantity, ttl, t0, authTtl, t1));
            && Inv(w, after) && id in after.checkouts && after.checkouts[id].status == T.Authorized
            && after.checkouts[id].expiresAt == t0 + ttl * MINUTE
            && Revalidate(after, scope, a, id, after.checkouts[id].priceHash, now).Ok?
  {
    hide Create, Request, Inv;
    var open, ask := CreateOp(id, scope, offerId, quantity, ttl, t0), RequestOp(a, scope, id, Allow, authTtl, t1);
    assert [] + [open] == [open] && [open] + [ask] == [open, ask];
    RunStep(w, db, [], open);
    RunStep(w, db, [open], ask);
    assert Run(w, db, []) == db;
    hide Run;
    OpenedRow(w, db, id, scope, offerId, quantity, ttl, t0);
    AllowedRow(Run(w, db, [open]), a, scope, id, authTtl, t1, now);
    InitialHolds(w, db);
    RunKeepsInv(w, db, [open, ask]);
  }

  /** Both ways happen: for anything on sale, a run ends with an open gate on a closed checkout. */
  lemma ClosedCheckoutsPassTheGate(w: World, db: Db, id: string, a: string, scope: Scope, offerId: string,
                                   quantity: int, ttl: int, t0: int, authTtl: int, t1: int, t2: int, now: int)
    requires Initial(db) && OnSale(w, db, scope, offerId, quantity, t0) && now < t1 + authTtl * MINUTE
    ensures var bought := Bought(id, a, scope, offerId, quantity, ttl, t0, authTtl, t1);
            var after := Run(w, db, bought + [CancelOp(scope, id, t2)]);
            && id in after.checkouts && after.checkouts[id].status == T.Cancelled
            && Revalidate(after, scope, a, id, Run(w, db, bought).checkouts[id].priceHash, now).Ok?
    ensures t0 + ttl * MINUTE <= t2 ==>
            var bought := Bought(id, a, scope, offerId, quantity, ttl, t0, authTtl, t1);
            var after := Run(w, db, bought + [SweepOp([id], t2)]);
            && id in after.checkouts && after.checkouts[id].status == T.CheckoutExpired
            && Revalidate(after, scope, a, id, Run(w, db, bought).checkouts[id].priceHash, now).Ok?
  {
    hide Run, Inv, Cancel, Sweep, Revalidate;
    var bought := Bought(id, a, scope, offerId, quantity, ttl, t0, authTtl, t1);
    BoughtOpensGate(w, db, id, a, scope, offerId, quantity, ttl, t0, authTtl, t1, now);
    var hash := Run(w, db, bought).checkouts[id].priceHash;
    RunStep(w, db, bought, CancelOp(scope, id, t2));
    CancellationLeavesGateOpen(w, Run(w, db, bought), scope, a, id, t2, hash, now);
    RunStep(w, db, bought, SweepOp([id], t2));
    if t0 + ttl * MINUTE <= t2 {
      ExpiryLeavesGateOpen(w, Run(w, db, bought), scope, a, id, [id], t2, hash, now);
    }
  }

  // ----- What one call undoes -----------------------------------------------

  /** Cancelling a checkout gives back exactly the stock that opening it took. */
  lemma CancelUndoesCreate(w: World, db: Db, id: string, scope: Scope, offerId: string,
                           quantity: int, ttl: int, now: int, later: int)
    requires Inv(w, db) && CreateRefusal(w, db, id, scope, offerId, quantity, now).None?
    ensures offerId in db.stock
    ensures var begun := Create(w, db, id, scope, offerId, quantity, ttl, now).0;
            var (after, result) := Cancel(begun, scope, id, later);
            && result.Ok? && result.value.status == T.Cancelled
            && after.stock == db.stock[offerId := db.stock[offerId].(version := db.stock[offerId].version + 2)]
  {
    hide Inv, CreateRefusal, NewCheckout, T.Permit, Cancel;
    CreateKeepsInv(w, db, id, scope, offerId, quantity, ttl, now);
    AcceptedOffer(w, db, id, scope, offerId, quantity, now);
    NewCheckoutIsCreated(w, scope, offerId, quantity, ttl, now);
    NewCheckoutIsOwned(w, scope, offerId, quantity, ttl, now);
    var begun := Create(w, db, id, scope, offerId, quantity, ttl, now).0;
    CancellationRules(begun.checkouts[id].status, later);
    CancelCloses(w, begun, scope, id, later);
  }

  lemma NewCheckoutIsOwned(w: World, scope: Scope, offerId: string, quantity: int, ttl: int, now: int)
    requires offerId in w.offers
    ensures var row := NewCheckout(w, scope, offerId, quantity, ttl, now);
            Owns(scope, row.merchantId, row.buyerId)
  {}
}
