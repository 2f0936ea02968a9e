/**
 * The checkout, authorization and reservation tables, and what each operation does to
 * them as a whole: every check first, then every write, or no change at all.
 * CommerceSession proves that the step-by-step services, with their early writes and
 * their roll-backs, do exactly this.
 */
module CommerceModel {
  import opened Outcomes
  import T = Transitions
  import Json = JsonText
  import Money
  import PriceHash

  // ----- Rows ---------------------------------------------------------------

  /** Times are microseconds. */
  const MINUTE: int := 60_000_000

  datatype Offer = Offer(merchantId: string, productId: string, active: bool, version: int,
                         unitPriceMinor: int, currency: string, expiresAt: int)

  /** What the services read but never write: the offers, and two library functions. */
  datatype World = World(offers: map<string, Offer>,
                         sha256: string -> string, isoformat: int -> string)

  datatype Checkout = Checkout(
    buyerId: string, merchantId: string, offerId: string, offerVersion: int, status: T.Token,
    subtotalMinor: int, shippingMinor: int, taxMinor: int, discountMinor: int, totalMinor: int,
    currency: string, priceHash: string, snapshot: PriceHash.Dict, quantity: int,
    expiresAt: int, createdAt: int)

  datatype AuthStatus = Pending | Approved | Consumed | Rejected | Revoked | Expired

  datatype Authorization = Authorization(
    checkoutId: string, buyerId: string, merchantId: string, ceilingMinor: int, currency: string,
    priceHash: string, status: AuthStatus, validUntil: int, createdAt: int)

  datatype HoldStatus = Held | Released | Committed

  /** Reservations are keyed by their unique checkout id. */
  datatype Reservation = Reservation(offerId: string, quantity: int, status: HoldStatus)

  datatype Stock = Stock(available: int, reserved: int, version: int)

  datatype Decision = Allow | RequireApproval | Block

  datatype AuditEvent =
    | StatusChanged(checkoutId: string, event: T.Event, actor: T.Actor,
                    fromStatus: T.Token, toStatus: T.Token)
    | CheckoutOpened(checkoutId: string, totalMinor: int, priceHash: string)
    | PolicyEvaluated(checkoutId: string, decision: Decision)
    | AuthorizationRequested(authorizationId: string, checkoutId: string)
    | AuthorizationGranted(authorizationId: string, checkoutId: string)
    | AuthorizationRejected(authorizationId: string, checkoutId: string)
    | StockMoved(offerId: string, checkoutId: string, quantity: int, held: bool)

  /** The database. `byCheckout` is the unique index on an authorization's checkout. */
  datatype Db = Db(
    checkouts: map<string, Checkout>,
    authorizations: map<string, Authorization>,
    byCheckout: map<string, string>,
    reservations: map<string, Reservation>,
    stock: map<string, Stock>,
    audit: seq<AuditEvent>)

  /** The tenant and the buyer a request runs as. */
  datatype Scope = Scope(merchantId: string, buyerId: string)

  datatype Error =
    | NotFound | Forbidden | CheckoutExpired | AlreadyFinalized | OfferNotFound | OfferExpired
    | InventoryUnavailable | BadMoney(money: Money.Error) | IntegrityError | PolicyBlocked
    | AuthorizationExpired | AuthorizationAlreadyConsumed | AuthorizationCheckoutMismatch
    | PriceChanged | Refused(reason: T.Error)

  // ----- Shared steps -------------------------------------------------------

  /** A status change on one checkout row, with its audit event. */
  function ApplyTransition(db: Db, id: string, event: T.Event, actor: T.Actor, now: int)
    : Result<Db, Error>
    requires id in db.checkouts
  {
    var row := db.checkouts[id];
    match T.Permit(row.status, event, T.ContextFor(actor, now))
    case Err(e) => Err(Refused(e))
    case Ok(target) =>
      Ok(db.(checkouts := db.checkouts[id := row.(status := target)],
             audit := db.audit + [StatusChanged(id, event, actor, row.status, target)]))
  }

  function ReserveStock(db: Db, offerId: string, checkoutId: string, quantity: int)
    : Result<Db, Error>
  {
    if quantity < 1 || offerId !in db.stock
       || db.stock[offerId].available - db.stock[offerId].reserved < quantity
    then Err(InventoryUnavailable)
    else if checkoutId in db.reservations then Err(IntegrityError)
    else
      var s := db.stock[offerId];
      Ok(db.(stock := db.stock[offerId := s.(reserved := s.reserved + quantity, version := s.version + 1)],
             reservations := db.reservations[checkoutId := Reservation(offerId, quantity, Held)],
             audit := db.audit + [StockMoved(offerId, checkoutId, quantity, true)]))
  }

  /** Idempotent: only a held reservation is released. */
  function ReleaseStock(db: Db, checkoutId: string, merchantId: string): Result<Db, Error> {
    if checkoutId in db.checkouts && db.checkouts[checkoutId].merchantId != merchantId then
      Err(Forbidden)
    else if checkoutId !in db.reservations || db.reservations[checkoutId].status != Held then
      Ok(db)
    else
      var r := db.reservations[checkoutId];
      var released := db.(reservations := db.reservations[checkoutId := r.(status := Released)]);
      if r.offerId !in db.stock || db.stock[r.offerId].reserved < r.quantity then Ok(released)
      else
        var s := db.stock[r.offerId];
        Ok(released.(
          stock := db.stock[r.offerId := s.(reserved := s.reserved - r.quantity, version := s.version + 1)],
          audit := db.audit + [StockMoved(r.offerId, checkoutId, r.quantity, false)]))
  }

  // ----- create_checkout ----------------------------------------------------

  function CreateRefusal(w: World, db: Db, id: string, scope: Scope, offerId: string,
                         quantity: int, now: int): Option<Error>
  {
    if offerId !in w.offers || w.offers[offerId].merchantId != scope.merchantId
       || offerId !in db.stock
    then Some(OfferNotFound)
    else
      var offer := w.offers[offerId];
      if !offer.active || now >= offer.expiresAt then Some(OfferExpired)
      else
        match Money.CalculateTotalMinor(offer.unitPriceMinor, quantity, 0, 0, 0)
        case Err(e) => Some(BadMoney(e))
        case Ok(_) =>
          if id in db.checkouts then Some(IntegrityError)
          else
            match ReserveStock(db, offerId, id, quantity)
            case Err(e) => Some(e)
            case Ok(_) => None
  }

  function SnapshotOf(w: World, offerId: string, offer: Offer, quantity: int, expiresAt: int)
    : PriceHash.PriceSnapshot
  {
    PriceHash.PriceSnapshot(offerId, offer.version, offer.unitPriceMinor, quantity, 0, 0, 0,
                            offer.currency, w.isoformat(expiresAt))
  }

  function NewCheckout(w: World, scope: Scope, offerId: string, quantity: int,
                       ttlMinutes: int, now: int): Checkout
    requires offerId in w.offers
  {
    var offer := w.offers[offerId];
    var expiresAt := now + ttlMinutes * MINUTE;
    var dict := PriceHash.ToCanonicalDict(SnapshotOf(w, offerId, offer, quantity, expiresAt));
    var total := offer.unitPriceMinor * quantity;
    Checkout(scope.buyerId, scope.merchantId, offerId, offer.version, T.CheckoutCreated,
             total, 0, 0, 0, total, offer.currency, PriceHash.ComputePriceHash(dict, w.sha256),
             dict[PriceHash.ProductId := Json.Str(offer.productId)], quantity, expiresAt, now)
  }

  function Create(w: World, db: Db, id: string, scope: Scope, offerId: string,
                  quantity: int, ttlMinutes: int, now: int): (Db, Result<Checkout, Error>)
  {
    var refusal := CreateRefusal(w, db, id, scope, offerId, quantity, now);
    if refusal.Some? then (db, Err(refusal.value))
    else
      var row := NewCheckout(w, scope, offerId, quantity, ttlMinutes, now);
      var s := db.stock[offerId];
      (db.(checkouts := db.checkouts[id := row],
           stock := db.stock[offerId := s.(reserved := s.reserved + quantity, version := s.version + 1)],
           reservations := db.reservations[id := Reservation(offerId, quantity, Held)],
           audit := db.audit + [StockMoved(offerId, id, quantity, true),
                                CheckoutOpened(id, row.totalMinor, row.priceHash)]),
       Ok(row))
  }

  // ----- request_authorization ----------------------------------------------

  predicate Owns(scope: Scope, merchantId: string, buyerId: string) {
    scope.merchantId == merchantId && scope.buyerId == buyerId
  }

  /** The authorization already bound to a checkout of this tenant and buyer. */
  function Existing(db: Db, scope: Scope, checkoutId: string): Option<string> {
    if checkoutId in db.byCheckout && db.byCheckout[checkoutId] in db.authorizations
       && Owns(scope, db.authorizations[db.byCheckout[checkoutId]].merchantId,
               db.authorizations[db.byCheckout[checkoutId]].buyerId)
    then Some(db.byCheckout[checkoutId])
    else None
  }

  function RequestEvent(decision: Decision): T.Event {
    if decision == Allow then T.UseExistingAuthorization else T.RequireApproval
  }

  function RequestRefusal(db: Db, authorizationId: string, scope: Scope, checkoutId: string,
                          decision: Decision, now: int): Option<Error>
  {
    if checkoutId !in db.checkouts
       || !Owns(scope, db.checkouts[checkoutId].merchantId, db.checkouts[checkoutId].buyerId)
    then Some(NotFound)
    else
      var row := db.checkouts[checkoutId];
      var existing := Existing(db, scope, checkoutId);
      if row.status == T.Cancelled || row.status == T.CheckoutExpired then Some(CheckoutExpired)
      else if row.status == T.Completed || row.status == T.PriceChanged then Some(AlreadyFinalized)
      else if existing.Some? then
        var auth := db.authorizations[existing.value];
        match auth.status
        case Approved => if now >= auth.validUntil then Some(AuthorizationExpired) else None
        case Pending => if now >= auth.validUntil then Some(AuthorizationExpired) else None
        case Consumed => Some(AuthorizationAlreadyConsumed)
        case _ => Some(Forbidden)
      else if decision == Block then Some(PolicyBlocked)
      else
        match T.Permit(row.status, RequestEvent(decision), T.ContextFor(T.System, now))
        case Err(e) => Some(Refused(e))
        case Ok(_) =>
          if authorizationId in db.authorizations || checkoutId in db.byCheckout
          then Some(IntegrityError) else None
  }

  function NewAuthorization(row: Checkout, checkoutId: string, scope: Scope, decision: Decision,
                            ttlMinutes: int, now: int): Authorization
  {
    Authorization(checkoutId, scope.buyerId, scope.merchantId, row.totalMinor, row.currency,
                  row.priceHash, if decision == Allow then Approved else Pending,
                  now + ttlMinutes * MINUTE, now)
  }

  function Request(db: Db, authorizationId: string, scope: Scope, checkoutId: string,
                   decision: Decision, ttlMinutes: int, now: int): (Db, Result<Authorization, Error>)
  {
    var refusal := RequestRefusal(db, authorizationId, scope, checkoutId, decision, now);
    if refusal.Some? then (db, Err(refusal.value))
    else if Existing(db, scope, checkoutId).Some? then
      (db, Ok(db.authorizations[Existing(db, scope, checkoutId).value]))
    else
      var row := db.checkouts[checkoutId];
      var event := RequestEvent(decision);
      var target := T.Permit(row.status, event, T.ContextFor(T.System, now)).value;
      var auth := NewAuthorization(row, checkoutId, scope, decision, ttlMinutes, now);
      (db.(checkouts := db.checkouts[checkoutId := row.(status := target)],
           authorizations := db.authorizations[authorizationId := auth],
           byCheckout := db.byCheckout[checkoutId := authorizationId],
           audit := db.audit
             + [PolicyEvaluated(checkoutId, decision),
                StatusChanged(checkoutId, event, T.System, row.status, target),
                if decision == Allow then AuthorizationGranted(authorizationId, checkoutId)
                else AuthorizationRequested(authorizationId, checkoutId)]),
       Ok(auth))
  }

  // ----- approve_authorization and reject_authorization ---------------------

  predicate VisibleAuthorization(db: Db, scope: Scope, authorizationId: string) {
    authorizationId in db.authorizations
    && Owns(scope, db.authorizations[authorizationId].merchantId,
            db.authorizations[authorizationId].buyerId)
  }

  function ApproveRefusal(db: Db, scope: Scope, authorizationId: string, now: int): Option<Error> {
    if !VisibleAuthorization(db, scope, authorizationId) then Some(NotFound)
    else
      var auth := db.authorizations[authorizationId];
      match auth.status
      case Approved => None
      case Consumed => Some(AuthorizationAlreadyConsumed)
      case Rejected => Some(Forbidden)
      case Revoked => Some(Forbidden)
      case _ =>
        if now >= auth.validUntil then Some(AuthorizationExpired)
        else if auth.checkoutId !in db.checkouts then None
        else
          match T.Permit(db.checkouts[auth.checkoutId].status, T.ApproveAuthorization,
                         T.ContextFor(T.Buyer, now))
          case Err(e) => Some(Refused(e))
          case Ok(_) => None
  }

  function Approve(db: Db, scope: Scope, authorizationId: string, now: int)
    : (Db, Result<Authorization, Error>)
  {
    var refusal := ApproveRefusal(db, scope, authorizationId, now);
    if refusal.Some? then (db, Err(refusal.value))
    else
      var auth := db.authorizations[authorizationId];
      var granted := auth.(status := Approved);
      if auth.status == Approved then (db, Ok(auth))
      else if auth.checkoutId !in db.checkouts then
        (db.(authorizations := db.authorizations[authorizationId := granted],
             audit := db.audit + [AuthorizationGranted(authorizationId, auth.checkoutId)]),
         Ok(granted))
      else
        var row := db.checkouts[auth.checkoutId];
        var target := T.Permit(row.status, T.ApproveAuthorization, T.ContextFor(T.Buyer, now)).value;
        (db.(checkouts := db.checkouts[auth.checkoutId := row.(status := target)],
             authorizations := db.authorizations[authorizationId := granted],
             audit := db.audit
               + [StatusChanged(auth.checkoutId, T.ApproveAuthorization, T.Buyer, row.status, target),
                  AuthorizationGranted(authorizationId, auth.checkoutId)]),
         Ok(granted))
  }

  /** The database once an authorization is marked rejected and its checkout cancelled. */
  function RejectedDb(db: Db, scope: Scope, authorizationId: string, now: int): Result<Db, Error>
    requires authorizationId in db.authorizations
  {
    var auth := db.authorizations[authorizationId];
    var marked := db.(authorizations := db.authorizations[authorizationId := auth.(status := Rejected)]);
    if auth.checkoutId !in db.checkouts then Ok(marked)
    else
      match ApplyTransition(marked, auth.checkoutId, T.RejectAuthorization, T.Buyer, now)
      case Err(e) => Err(e)
      case Ok(moved) => ReleaseStock(moved, auth.checkoutId, scope.merchantId)
  }

  function RejectRefusal(db: Db, scope: Scope, authorizationId: string, now: int): Option<Error> {
    if !VisibleAuthorization(db, scope, authorizationId) then Some(NotFound)
    else
      var auth := db.authorizations[authorizationId];
      match auth.status
      case Rejected => None
      case Consumed => Some(AuthorizationAlreadyConsumed)
      case Revoked => Some(Forbidden)
      case Expired => Some(Forbidden)
      case _ =>
        if now >= auth.validUntil then Some(AuthorizationExpired)
        else if auth.checkoutId in db.checkouts && Final(db.checkouts[auth.checkoutId].status) then
          Some(AlreadyFinalized)
        else
          match RejectedDb(db, scope, authorizationId, now)
          case Err(e) => Some(e)
          case Ok(_) => None
  }

  predicate Final(t: T.Token) {
    t == T.Completed || t == T.PriceChanged || t == T.Cancelled || t == T.CheckoutExpired
  }

  function Reject(db: Db, scope: Scope, authorizationId: string, now: int)
    : (Db, Result<Authorization, Error>)
  {
    var refusal := RejectRefusal(db, scope, authorizationId, now);
    if refusal.Some? then (db, Err(refusal.value))
    else
      var auth := db.authorizations[authorizationId];
      if auth.status == Rejected then (db, Ok(auth))
      else
        var after := RejectedDb(db, scope, authorizationId, now).value;
        (after.(audit := after.audit + [AuthorizationRejected(authorizationId, auth.checkoutId)]),
         Ok(auth.(status := Rejected)))
  }

  // ----- cancel_checkout ----------------------------------------------------

  function CancelledDb(db: Db, scope: Scope, checkoutId: string, now: int): Result<Db, Error>
    requires checkoutId in db.checkouts
  {
    match ApplyTransition(db, checkoutId, T.CancelCheckout, T.Buyer, now)
    case Err(e) => Err(e)
    case Ok(moved) => ReleaseStock(moved, checkoutId, scope.merchantId)
  }

  function Cancel(db: Db, scope: Scope, checkoutId: string, now: int): (Db, Result<Checkout, Error>) {
    if checkoutId !in db.checkouts
       || !Owns(scope, db.checkouts[checkoutId].merchantId, db.checkouts[checkoutId].buyerId)
    then (db, Err(NotFound))
    else
      var row := db.checkouts[checkoutId];
      if row.status == T.Cancelled || row.status == T.CheckoutExpired then (db, Ok(row))
      else
        match CancelledDb(db, scope, checkoutId, now)
        case Err(e) => (db, Err(e))
        case Ok(after) => (after, Ok(row.(status := T.Cancelled)))
  }

  // ----- the expiry sweep ---------------------------------------------------

  /** The rows the sweep selects. */
  predicate Sweepable(db: Db, id: string, now: int) {
    && id in db.checkouts
    && db.checkouts[id].expiresAt <= now
    && (var t := db.checkouts[id].status;
        t == T.CheckoutCreated || t == T.PolicyChecked || t == T.AuthorizationPending
        || t == T.Authorized)
  }

  /** One row in its own savepoint: both writes, or neither. */
  function SweepRow(db: Db, id: string, now: int): Db {
    if !Sweepable(db, id, now) then db
    else
      match ApplyTransition(db, id, T.ExpireCheckout, T.System, now)
      case Err(_) => db
      case Ok(moved) =>
        match ReleaseStock(moved, id, db.checkouts[id].merchantId)
        case Err(_) => db
        case Ok(after) => after
  }

  function Sweep(db: Db, batch: seq<string>, now: int): Db {
    if batch == [] then db
    else SweepRow(Sweep(db, batch[..|batch| - 1], now), batch[|batch| - 1], now)
  }

  // ----- revalidate_for_payment ---------------------------------------------

  function Revalidate(db: Db, scope: Scope, authorizationId: string, checkoutId: string,
                      currentHash: string, now: int): Result<Authorization, Error>
  {
    if !VisibleAuthorization(db, scope, authorizationId) then Err(NotFound)
    else
      var auth := db.authorizations[authorizationId];
      if auth.checkoutId != checkoutId then Err(AuthorizationCheckoutMismatch)
      else if auth.status == Consumed then Err(AuthorizationAlreadyConsumed)
      else if auth.status != Approved then Err(Forbidden)
      else if now >= auth.validUntil then Err(AuthorizationExpired)
      else if auth.priceHash != currentHash then Err(PriceChanged)
      else Ok(auth)
  }

  // ----- Operations as data -------------------------------------------------

  /** One committed or rolled-back operation of any caller, at any time. */
  datatype Op =
    | CreateOp(id: string, scope: Scope, offerId: string, quantity: int, ttlMinutes: int, now: int)
    | RequestOp(authorizationId: string, scope: Scope, checkoutId: string, decision: Decision,
                ttlMinutes: int, now: int)
    | ApproveOp(scope: Scope, authorizationId: string, now: int)
    | RejectOp(scope: Scope, authorizationId: string, now: int)
    | CancelOp(scope: Scope, checkoutId: string, now: int)
    | SweepOp(batch: seq<string>, now: int)

  function Step(w: World, db: Db, op: Op): Db {
    match op
    case CreateOp(id, scope, offerId, quantity, ttl, now) =>
      Create(w, db, id, scope, offerId, quantity, ttl, now).0
    case RequestOp(authorizationId, scope, checkoutId, decision, ttl, now) =>
      Request(db, authorizationId, scope, checkoutId, decision, ttl, now).0
    case ApproveOp(scope, authorizationId, now) => Approve(db, scope, authorizationId, now).0
    case RejectOp(scope, authorizationId, now) => Reject(db, scope, authorizationId, now).0
    case CancelOp(scope, checkoutId, now) => Cancel(db, scope, checkoutId, now).0
    case SweepOp(batch, now) => Sweep(db, batch, now)
  }

  /** The database after a run, in any interleaving of operations. */
  function Run(w: World, db: Db, ops: seq<Op>): Db {
    if ops == [] then db else Step(w, Run(w, db, ops[..|ops| - 1]), ops[|ops| - 1])
  }
}
