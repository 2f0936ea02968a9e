/** The validated state-change path of services/checkout/transitions.py. */
module Transitions {
  import opened Outcomes
  import Text

  // ----- Vocabulary ---------------------------------------------------------

  /** A canonical rule token. `Other` is a status text that no rule mentions. */
  datatype Token =
    | Discovered | OfferSelected | CheckoutCreated | PolicyChecked | AuthorizationPending
    | Authorized | PolicyBlocked | Cancelled | CheckoutExpired | AuthorizationExpired
    | PriceChanged | InventoryChanged | PaymentCreated | PaymentPending | PaymentVerified
    | PaymentFailed | PaymentTimeout | PaymentUnknown | ManualReview | OrderConfirmed
    | Completed | Consumed | Other(text: string)

  datatype Event =
    | SelectOffer | CreateCheckout | CheckPolicy | RequireApproval | UseExistingAuthorization
    | BlockPolicy | ApproveAuthorization | RejectAuthorization | ExpireAuthorization
    | CreatePayment | DetectPriceChange | DetectInventoryChange | ExpireCheckout
    | CancelCheckout | ProviderOrderCreated | VerifyPayment | FailPayment | TimeoutPayment
    | MarkUnknown | VerifyUnknown | FailUnknown | ExhaustUnknown | ConfirmOrder | CompleteOrder

  datatype Actor = Buyer | Agent | System | Provider | Stranger(actorType: string)

  datatype Kind = CheckoutKind | PaymentKind | AuthorizationKind | OtherKind

  datatype Error =
    | AlreadyFinalized | IllegalTransition | ValidationError(missing: set<string>)
    | PriceHasChanged | AuthorizationAlreadyConsumed | AuthorizationHasExpired
    | CheckoutHasExpired | Forbidden

  datatype Rule = Rule(target: Token, actors: set<Actor>, required: set<string>,
                       checksPrice: bool, checksAuthorization: bool, checksExpiry: bool)

  datatype Context = Context(
    actor: Actor,
    fields: set<string>,
    suppliedHash: Option<string>,
    persistedHash: Option<string>,
    authorizationValid: bool,
    authorizationConsumed: bool,
    expiresAt: Option<int>,
    now: int)

  /** The context the services build: an actor, and every other field at its default. */
  function ContextFor(actor: Actor, now: int): Context {
    Context(actor, {}, None, None, true, false, None, now)
  }

  // ----- The rule table -----------------------------------------------------

  function Plain(target: Token, actors: set<Actor>): Option<Rule> {
    Some(Rule(target, actors, {}, false, false, false))
  }

  function Bound(target: Token, actors: set<Actor>): Option<Rule> {
    Some(Rule(target, actors, {}, false, true, false))
  }

  function Timed(target: Token, actors: set<Actor>): Option<Rule> {
    Some(Rule(target, actors, {}, false, false, true))
  }

  /** RULES: the one rule for a source token and an event, if there is one. */
  function RuleFor(source: Token, event: Event): Option<Rule> {
    match source
    case Discovered => (
      match event
      case SelectOffer => Plain(OfferSelected, {Buyer, Agent})
      case _ => None)
    case OfferSelected => (
      match event
      case CreateCheckout =>
        Some(Rule(CheckoutCreated, {Buyer, Agent}, {"quantity"}, false, false, false))
      case _ => None)
    case CheckoutCreated => (
      match event
      case CheckPolicy => Plain(PolicyChecked, {System})
      case RequireApproval => Plain(AuthorizationPending, {System, Buyer})
      case UseExistingAuthorization => Bound(Authorized, {System, Buyer})
      case BlockPolicy => Plain(PolicyBlocked, {System})
      case CancelCheckout => Plain(Cancelled, {Buyer, System})
      case RejectAuthorization => Plain(Cancelled, {Buyer, System})
      case ExpireCheckout => Timed(CheckoutExpired, {System})
      case _ => None)
    case PolicyChecked => (
      match event
      case RequireApproval => Plain(AuthorizationPending, {System})
      case UseExistingAuthorization => Bound(Authorized, {System})
      case BlockPolicy => Plain(PolicyBlocked, {System})
      case CancelCheckout => Plain(Cancelled, {Buyer, System})
      case _ => None)
    case AuthorizationPending => (
      match event
      case ApproveAuthorization => Bound(Authorized, {Buyer})
      case RejectAuthorization => Plain(Cancelled, {Buyer, System})
      case CancelCheckout => Plain(Cancelled, {Buyer, System})
      case BlockPolicy => Plain(PolicyBlocked, {System})
      case ExpireAuthorization => Timed(AuthorizationExpired, {System})
      case ExpireCheckout => Timed(CheckoutExpired, {System})
      case _ => None)
    case Authorized => (
      match event
      case CreatePayment => Some(Rule(PaymentCreated, {Buyer, Agent}, {}, true, true, true))
      case DetectPriceChange => Plain(PriceChanged, {System})
      case DetectInventoryChange => Plain(InventoryChanged, {System})
      case ExpireCheckout => Timed(CheckoutExpired, {System})
      case CompleteOrder => Plain(Completed, {System})
      case ConfirmOrder => Plain(OrderConfirmed, {System})
      case FailPayment => Plain(PaymentFailed, {System, Provider})
      case CancelCheckout => Plain(Cancelled, {Buyer, System})
      case RejectAuthorization => Plain(Cancelled, {Buyer, System})
      case _ => None)
    case PaymentCreated => (
      match event
      case ProviderOrderCreated => Plain(PaymentPending, {System, Provider})
      case FailPayment => Plain(PaymentFailed, {System, Provider})
      case _ => None)
    case PaymentPending => (
      match event
      case VerifyPayment => Plain(PaymentVerified, {System, Provider})
      case FailPayment => Plain(PaymentFailed, {System, Provider})
      case TimeoutPayment => Plain(PaymentTimeout, {System})
      case _ => None)
    case PaymentTimeout => (
      match event
      case MarkUnknown => Plain(PaymentUnknown, {System})
      case _ => None)
    case PaymentUnknown => (
      match event
      case VerifyUnknown => Plain(PaymentVerified, {System, Provider})
      case FailUnknown => Plain(PaymentFailed, {System, Provider})
      case ExhaustUnknown => Plain(ManualReview, {System})
      case _ => None)
    case PaymentVerified => (
      match event
      case ConfirmOrder => Plain(OrderConfirmed, {System})
      case _ => None)
    case OrderConfirmed => (
      match event
      case CompleteOrder => Plain(Completed, {System})
      case _ => None)
    case _ => None
  }

  predicate Terminal(t: Token) {
    || t.PriceChanged? || t.InventoryChanged? || t.PolicyBlocked? || t.CheckoutExpired?
    || t.AuthorizationExpired? || t.Cancelled? || t.PaymentFailed? || t.ManualReview?
    || t.Completed?
  }

  predicate PriceHashesMatch(supplied: Option<string>, persisted: Option<string>) {
    supplied == persisted
  }

  /** The checks of `transition`, in order, on canonical tokens: the target or the error. */
  function Permit(source: Token, event: Event, ctx: Context): Result<Token, Error> {
    match RuleFor(source, event)
    case None => Err(if Terminal(source) then AlreadyFinalized else IllegalTransition)
    case Some(rule) =>
      if rule.required - ctx.fields != {} then
        Err(ValidationError(rule.required - ctx.fields))
      else if rule.checksPrice && !PriceHashesMatch(ctx.suppliedHash, ctx.persistedHash) then
        Err(PriceHasChanged)
      else if rule.checksAuthorization && ctx.authorizationConsumed then
        Err(AuthorizationAlreadyConsumed)
      else if rule.checksAuthorization && !ctx.authorizationValid then
        Err(AuthorizationHasExpired)
      else if rule.checksExpiry && ctx.expiresAt.Some? && ctx.now >= ctx.expiresAt.value then
        Err(CheckoutHasExpired)
      else if ctx.actor !in rule.actors then
        Err(Forbidden)
      else
        Ok(rule.target)
  }

  // ----- Status text --------------------------------------------------------

  /** The rule token's own spelling. */
  function Name(t: Token): string {
    match t
    case Discovered => "DISCOVERED"
    case OfferSelected => "OFFER_SELECTED"
    case CheckoutCreated => "CHECKOUT_CREATED"
    case PolicyChecked => "POLICY_CHECKED"
    case AuthorizationPending => "AUTHORIZATION_PENDING"
    case Authorized => "AUTHORIZED"
    case PolicyBlocked => "POLICY_BLOCKED"
    case Cancelled => "CANCELLED"
    case CheckoutExpired => "CHECKOUT_EXPIRED"
    case AuthorizationExpired => "AUTHORIZATION_EXPIRED"
    case PriceChanged => "PRICE_CHANGED"
    case InventoryChanged => "INVENTORY_CHANGED"
    case PaymentCreated => "PAYMENT_CREATED"
    case PaymentPending => "PAYMENT_PENDING"
    case PaymentVerified => "PAYMENT_VERIFIED"
    case PaymentFailed => "PAYMENT_FAILED"
    case PaymentTimeout => "PAYMENT_TIMEOUT"
    case PaymentUnknown => "PAYMENT_UNKNOWN"
    case ManualReview => "MANUAL_REVIEW"
    case OrderConfirmed => "ORDER_CONFIRMED"
    case Completed => "COMPLETED"
    case Consumed => "CONSUMED"
    case Other(text) => text
  }

  /** _NORMALIZE_STATUS, its keys grouped by length; any other text names itself. */
  function Alias(u: string): Token {
    match |u|
    case 6 => if u == "FAILED" then PaymentFailed else Other(u)
    case 7 => Alias7(u)
    case 8 => Alias8(u)
    case 9 => if u == "CANCELLED" then Cancelled else if u == "COMPLETED" then Completed else Other(u)
    case 10 => if u == "DISCOVERED" then Discovered else if u == "AUTHORIZED" then Authorized else Other(u)
    case 13 => if u == "PRICE_CHANGED" then PriceChanged else if u == "MANUAL_REVIEW" then ManualReview else Other(u)
    case 14 => Alias14(u)
    case 15 => Alias15(u)
    case 16 => Alias16(u)
    case 17 =>
      if u == "REQUIRES_APPROVAL" then AuthorizationPending
      else if u == "INVENTORY_CHANGED" then InventoryChanged else Other(u)
    case 21 =>
      if u == "AUTHORIZATION_PENDING" then AuthorizationPending
      else if u == "AUTHORIZATION_EXPIRED" then AuthorizationExpired else Other(u)
    case _ => Other(u)
  }

  function Alias7(u: string): Token {
    if u == "CREATED" then CheckoutCreated
    else if u == "EXPIRED" then CheckoutExpired
    else if u == "PENDING" then PaymentPending
    else if u == "TIMEOUT" then PaymentTimeout
    else if u == "UNKNOWN" then PaymentUnknown
    else Other(u)
  }

  function Alias8(u: string): Token {
    if u == "VERIFIED" then PaymentVerified
    else if u == "APPROVED" then Authorized
    else if u == "REJECTED" then Cancelled
    else if u == "CONSUMED" then Consumed
    else Other(u)
  }

  function Alias14(u: string): Token {
    if u == "OFFER_SELECTED" then OfferSelected
    else if u == "POLICY_CHECKED" then PolicyChecked
    else if u == "POLICY_BLOCKED" then PolicyBlocked
    else if u == "PAYMENT_FAILED" then PaymentFailed
    else Other(u)
  }

  function Alias15(u: string): Token {
    if u == "PAYMENT_CREATED" then PaymentCreated
    else if u == "PAYMENT_PENDING" then PaymentPending
    else if u == "PAYMENT_TIMEOUT" then PaymentTimeout
    else if u == "PAYMENT_UNKNOWN" then PaymentUnknown
    else if u == "ORDER_CONFIRMED" then OrderConfirmed
    else Other(u)
  }

  function Alias16(u: string): Token {
    if u == "CHECKOUT_CREATED" then CheckoutCreated
    else if u == "CHECKOUT_EXPIRED" then CheckoutExpired
    else if u == "PAYMENT_VERIFIED" then PaymentVerified
    else Other(u)
  }

  /** normalize_source_status: the canonical token of a stored status text. */
  function Normalize(kind: Kind, status: string): Token {
    var u := Text.Upper(status);
    match kind
    case PaymentKind =>
      if u == "CREATED" || u == "PAYMENT_CREATED" then PaymentCreated
      else if u == "PENDING" || u == "PAYMENT_PENDING" then PaymentPending
      else if u == "VERIFIED" || u == "PAYMENT_VERIFIED" then PaymentVerified
      else if u == "FAILED" || u == "PAYMENT_FAILED" then PaymentFailed
      else if u == "TIMEOUT" || u == "PAYMENT_TIMEOUT" then PaymentTimeout
      else if u == "UNKNOWN" || u == "PAYMENT_UNKNOWN" then PaymentUnknown
      else Alias(u)
    case AuthorizationKind =>
      if u == "PENDING" || u == "AUTHORIZATION_PENDING" then AuthorizationPending
      else if u == "APPROVED" || u == "AUTHORIZED" then Authorized
      else if u == "REJECTED" || u == "CANCELLED" then Cancelled
      else if u == "EXPIRED" || u == "AUTHORIZATION_EXPIRED" then AuthorizationExpired
      else Alias(u)
    case CheckoutKind =>
      if u == "CREATED" || u == "CHECKOUT_CREATED" then CheckoutCreated
      else if u == "REQUIRES_APPROVAL" || u == "AUTHORIZATION_PENDING" then AuthorizationPending
      else if u == "AUTHORIZED" then Authorized
      else if u == "EXPIRED" || u == "CHECKOUT_EXPIRED" then CheckoutExpired
      else if u == "CANCELLED" then Cancelled
      else Alias(u)
    case OtherKind => Alias(u)
  }

  /** The domain spelling of a rule target on a lower-case aggregate. */
  function DomainText(kind: Kind, target: Token): string {
    match kind
    case CheckoutKind => (
      match target
      case CheckoutCreated => "created"
      case CheckoutExpired => "expired"
      case _ => Text.Lower(Name(target)))
    case PaymentKind => (
      match target
      case PaymentCreated => "created"
      case PaymentPending => "pending"
      case PaymentVerified => "verified"
      case OrderConfirmed => "verified"
      case PaymentFailed => "failed"
      case PaymentTimeout => "timeout"
      case PaymentUnknown => "unknown"
      case _ => Text.Lower(Name(target)))
    case AuthorizationKind => (
      match target
      case AuthorizationPending => "pending"
      case Authorized => "approved"
      case Cancelled => "rejected"
      case AuthorizationExpired => "expired"
      case _ => Text.Lower(Name(target)))
    case OtherKind => Text.Lower(Name(target))
  }

  /** format_target_status: keep the casing the aggregate already had. */
  function FormatTarget(kind: Kind, target: Token, original: string): string {
    if Text.IsLowerCase(original) then DomainText(kind, target) else Name(target)
  }

  // ----- The mutating step --------------------------------------------------

  /** An aggregate whose status only `Transition` writes. */
  class Aggregate {
    const kind: Kind
    const id: string
    var status: string

    constructor (kind: Kind, id: string, status: string)
      ensures this.kind == kind && this.id == id && this.status == status
    {
      this.kind := kind;
      this.id := id;
      this.status := status;
    }
  }

  datatype AuditEvent = AuditEvent(id: string, event: Event, actor: Actor,
                                   fromStatus: string, toStatus: string)

  /** The append-only audit table. */
  class AuditLog {
    var events: seq<AuditEvent>

    constructor ()
      ensures events == []
    {
      events := [];
    }
  }

  /** What `transition` leaves in the status field: the new text, or the old one on an error. */
  function TextStep(kind: Kind, status: string, event: Event, ctx: Context): string {
    match Permit(Normalize(kind, status), event, ctx)
    case Ok(target) => FormatTarget(kind, target, status)
    case Err(_) => status
  }

  method Transition(aggregate: Aggregate, event: Event, ctx: Context, log: AuditLog)
    returns (r: Result<(string, string), Error>)
    modifies aggregate, log
    ensures aggregate.status == TextStep(aggregate.kind, old(aggregate.status), event, ctx)
    ensures match Permit(Normalize(aggregate.kind, old(aggregate.status)), event, ctx)
            case Err(e) => r == Err(e) && log.events == old(log.events)
            case Ok(_) =>
              && r == Ok((old(aggregate.status), aggregate.status))
              && log.events == old(log.events)
                   + [AuditEvent(aggregate.id, event, ctx.actor,
                                 old(aggregate.status), aggregate.status)]
  {
    var source := Normalize(aggregate.kind, aggregate.status);
    var found := RuleFor(source, event);
    if found.None? {
      if Terminal(source) { return Err(AlreadyFinalized); }
      return Err(IllegalTransition);
    }
    var rule := found.value;
    var missing := rule.required - ctx.fields;
    if missing != {} { return Err(ValidationError(missing)); }
    if rule.checksPrice && !PriceHashesMatch(ctx.suppliedHash, ctx.persistedHash) {
      return Err(PriceHasChanged);
    }
    if rule.checksAuthorization {
      if ctx.authorizationConsumed { return Err(AuthorizationAlreadyConsumed); }
      if !ctx.authorizationValid { return Err(AuthorizationHasExpired); }
    }
    if rule.checksExpiry && ctx.expiresAt.Some? && ctx.now >= ctx.expiresAt.value {
      return Err(CheckoutHasExpired);
    }
    if ctx.actor !in rule.actors { return Err(Forbidden); }

    var previous := aggregate.status;
    aggregate.status := FormatTarget(aggregate.kind, rule.target, previous);
    log.events := log.events
      + [AuditEvent(aggregate.id, event, ctx.actor, previous, aggregate.status)];
    return Ok((previous, aggregate.status));
  }
}
