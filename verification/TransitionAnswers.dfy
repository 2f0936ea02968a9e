/**
 * Who may do what, and when, across the whole rule table, with events, actors and statuses
 * written out; and which status texts read as which token.
 */
module TransitionAnswers {
  import opened Outcomes
  import opened Transitions
  import opened StatusRefinement
  import Text

  // ----- Payments -------------------------------------------------------------

  /**
   * A payment is created exactly from AUTHORIZED, at the persisted price hash, under a valid and
   * unconsumed authorization, in time, by the buyer or its agent.
   */
  lemma PaymentCreationIff(source: Token, ctx: Context)
    ensures Permit(source, CreatePayment, ctx).Ok? <==>
            && source == Authorized && ctx.suppliedHash == ctx.persistedHash
            && ctx.authorizationValid && !ctx.authorizationConsumed
            && (ctx.expiresAt.None? || ctx.now < ctx.expiresAt.value)
            && (ctx.actor == Buyer || ctx.actor == Agent)
    ensures Permit(source, CreatePayment, ctx).Ok? ==>
              Permit(source, CreatePayment, ctx) == Ok(PaymentCreated)
  {}

  /** Another hash is refused as a changed price, whoever asks and whatever else is wrong. */
  lemma ChangedPriceIsRefused(ctx: Context)
    ensures Permit(Authorized, CreatePayment, ctx) == Err(PriceHasChanged) <==>
            ctx.suppliedHash != ctx.persistedHash
  {}

  /** At the same hash, what is refused next, in order. */
  lemma PaymentRefusals(ctx: Context)
    requires ctx.suppliedHash == ctx.persistedHash
    ensures Permit(Authorized, CreatePayment, ctx)
         == if ctx.authorizationConsumed then Err(AuthorizationAlreadyConsumed)
            else if !ctx.authorizationValid then Err(AuthorizationHasExpired)
            else if ctx.expiresAt.Some? && ctx.now >= ctx.expiresAt.value then Err(CheckoutHasExpired)
            else if ctx.actor != Buyer && ctx.actor != Agent then Err(Forbidden)
            else Ok(PaymentCreated)
  {}

  /** A payment becomes verified, or an order confirmed or completed, at nobody's word but the platform's. */
  lemma MoneyMovesByPlatform(source: Token, event: Event, ctx: Context)
    requires Permit(source, event, ctx).Ok?
    ensures var target := Permit(source, event, ctx).value;
            && (target == PaymentVerified ==>
                  (source == PaymentPending || source == PaymentUnknown)
                  && (ctx.actor == System || ctx.actor == Provider))
            && (target == OrderConfirmed ==>
                  (source == PaymentVerified || source == Authorized) && ctx.actor == System)
            && (target == Completed ==>
                  (source == OrderConfirmed || source == Authorized) && ctx.actor == System)
  {}

  // ----- Authorization ----------------------------------------------------------

  /** Only a buyer approves, and only what awaits approval; the price of a policy's ALLOW is the system's or buyer's. */
  lemma AuthorizedIff(source: Token, event: Event, ctx: Context)
    ensures Permit(source, event, ctx) == Ok(Authorized) <==>
            && ctx.authorizationValid && !ctx.authorizationConsumed
            && ((event == ApproveAuthorization && source == AuthorizationPending && ctx.actor == Buyer)
                || (event == UseExistingAuthorization && source == CheckoutCreated
                    && (ctx.actor == System || ctx.actor == Buyer))
                || (event == UseExistingAuthorization && source == PolicyChecked && ctx.actor == System))
  {}

  /** Approval is asked for by the system, or by the buyer of a checkout no policy has checked. */
  lemma PendingIff(source: Token, event: Event, ctx: Context)
    ensures Permit(source, event, ctx) == Ok(AuthorizationPending) <==>
            && event == RequireApproval
            && ((source == CheckoutCreated && (ctx.actor == System || ctx.actor == Buyer))
                || (source == PolicyChecked && ctx.actor == System))
  {}

  /** A checkout is cancelled by its buyer or the system, and never once a payment was created. */
  lemma CancelledIff(source: Token, event: Event, ctx: Context)
    ensures Permit(source, event, ctx) == Ok(Cancelled) <==>
            && (ctx.actor == Buyer || ctx.actor == System)
            && ((event == CancelCheckout
                 && source in {CheckoutCreated, PolicyChecked, AuthorizationPending, Authorized})
                || (event == RejectAuthorization
                    && source in {CheckoutCreated, AuthorizationPending, Authorized}))
  {}

  /** A checkout expires at the system's word, not from POLICY_CHECKED, and not past a date the caller gives. */
  lemma ExpiredIff(source: Token, event: Event, ctx: Context)
    ensures Permit(source, event, ctx) == Ok(CheckoutExpired) <==>
            && event == ExpireCheckout && source in {CheckoutCreated, AuthorizationPending, Authorized}
            && ctx.actor == System && (ctx.expiresAt.None? || ctx.now < ctx.expiresAt.value)
  {}

  // ----- Actors -----------------------------------------------------------------

  /** An agent selects, opens and pays; a provider reports on payments; nobody else acts. */
  lemma ActorsKeepToTheirEvents(source: Token, event: Event, ctx: Context)
    requires Permit(source, event, ctx).Ok?
    ensures ctx.actor == Agent ==> event in {SelectOffer, CreateCheckout, CreatePayment}
    ensures ctx.actor == Provider ==>
              event in {ProviderOrderCreated, VerifyPayment, FailPayment, VerifyUnknown, FailUnknown}
    ensures ctx.actor == Buyer ==>
              event in {SelectOffer, CreateCheckout, RequireApproval, UseExistingAuthorization,
                        ApproveAuthorization, RejectAuthorization, CancelCheckout, CreatePayment}
    ensures ctx.actor == System || ctx.actor == Agent || ctx.actor == Provider || ctx.actor == Buyer
  {}

  /** A checkout is opened by a buyer or an agent who names a quantity. */
  lemma OpenedIff(source: Token, event: Event, ctx: Context)
    ensures Permit(source, event, ctx) == Ok(CheckoutCreated) <==>
            && event == CreateCheckout && source == OfferSelected && "quantity" in ctx.fields
            && (ctx.actor == Buyer || ctx.actor == Agent)
    ensures Permit(OfferSelected, CreateCheckout, ctx) == Err(ValidationError({"quantity"})) <==>
            "quantity" !in ctx.fields
  {
    if "quantity" in ctx.fields {
      assert {"quantity"} - ctx.fields == {};
    } else {
      assert {"quantity"} - ctx.fields == {"quantity"};
    }
  }

  // ----- Status texts -------------------------------------------------------------

  /** A text that reads as a token on every kind of aggregate, without being its name. */
  predicate SharedAlias(t: Token, u: string) {
    || (t == AuthorizationPending && u == "REQUIRES_APPROVAL") || (t == Authorized && u == "APPROVED")
    || (t == Cancelled && u == "REJECTED") || (t == PaymentVerified && u == "VERIFIED")
    || (t == PaymentFailed && u == "FAILED")
    || (t == PaymentTimeout && u == "TIMEOUT") || (t == PaymentUnknown && u == "UNKNOWN")
  }

  /** One that reads as another token on another kind. */
  predicate OwnAlias(kind: Kind, t: Token, u: string) {
    || (u == "CREATED" && t == if kind == PaymentKind then PaymentCreated else CheckoutCreated)
    || (u == "PENDING" && t == if kind == AuthorizationKind then AuthorizationPending else PaymentPending)
    || (u == "EXPIRED" && t == if kind == AuthorizationKind then AuthorizationExpired else CheckoutExpired)
  }

  predicate Spells(kind: Kind, t: Token, u: string) {
    u == Name(t) || SharedAlias(t, u) || OwnAlias(kind, t, u)
  }

  lemma ShortAliasSpells(u: string)
    requires |u| == 7 || |u| == 8
    ensures !Alias(u).Other? ==> Spells(OtherKind, Alias(u), u)
  {}

  lemma LongAliasSpells(u: string)
    requires |u| == 14 || |u| == 15 || |u| == 16
    ensures !Alias(u).Other? ==> u == Name(Alias(u))
  {}

  lemma AliasSpells(u: string)
    ensures !Alias(u).Other? ==> Spells(OtherKind, Alias(u), u)
  {
    hide Alias7, Alias8, Alias14, Alias15, Alias16, OwnAlias;
    if |u| == 7 || |u| == 8 {
      ShortAliasSpells(u);
    } else if |u| == 14 || |u| == 15 || |u| == 16 {
      LongAliasSpells(u);
    }
  }

  lemma SevenLettersSpell(kind: Kind, s: string)
    requires |s| == 7 && !Normalize(kind, s).Other?
    ensures Spells(kind, Normalize(kind, s), Text.Upper(s))
  {
    hide Name;
    ShortAliasSpells(Text.Upper(s));
  }

  lemma SevenLettersRead(kind: Kind, s: string)
    ensures Text.Upper(s) == "CREATED" ==> OwnAlias(kind, Normalize(kind, s), "CREATED")
    ensures Text.Upper(s) == "PENDING" ==> OwnAlias(kind, Normalize(kind, s), "PENDING")
    ensures Text.Upper(s) == "EXPIRED" ==> OwnAlias(kind, Normalize(kind, s), "EXPIRED")
  {}

  lemma FailuresRead(kind: Kind, s: string)
    ensures Text.Upper(s) == "TIMEOUT" ==> Normalize(kind, s) == PaymentTimeout
    ensures Text.Upper(s) == "UNKNOWN" ==> Normalize(kind, s) == PaymentUnknown
  {}

  lemma AliasesRead(kind: Kind, s: string, t: Token)
    requires SharedAlias(t, Text.Upper(s)) || OwnAlias(kind, t, Text.Upper(s))
    ensures Normalize(kind, s) == t
  {
    hide Normalize, Alias;
    SevenLettersRead(kind, s);
    FailuresRead(kind, s);
    AliasOfShortKeys();
    if |s| != 7 {
      SharedTableDecides(kind, s);
    }
  }

  /** A status text reads as a token exactly when its upper case spells that token on this kind of aggregate. */
  lemma ReadsIff(kind: Kind, s: string, t: Token)
    requires !t.Other?
    ensures Normalize(kind, s) == t <==> Spells(kind, t, Text.Upper(s))
  {
    hide Alias, Normalize, Name, SharedAlias, OwnAlias;
    var u := Text.Upper(s);
    if Spells(kind, t, u) {
      if u == Name(t) { ReadsName(kind, t, s); } else { AliasesRead(kind, s, t); }
    }
    if Normalize(kind, s) == t {
      if |s| == 7 {
        SevenLettersSpell(kind, s);
      } else {
        SharedTableDecides(kind, s);
        LongSpells(kind, u);
      }
    }
  }

  lemma LongSpells(kind: Kind, u: string)
    requires |u| != 7
    ensures !Alias(u).Other? ==> Spells(kind, Alias(u), u)
  {
    hide Alias, Name;
    AliasSpells(u);
  }

  /** Any other text names itself. */
  lemma OtherTextsStay(kind: Kind, s: string)
    requires Normalize(kind, s).Other?
    ensures Normalize(kind, s).text == Text.Upper(s)
  {}
}
