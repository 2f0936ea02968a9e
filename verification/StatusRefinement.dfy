/** Runs of `transition` on status text simulate the canonical rule machine. */
module StatusRefinement {
  import opened Outcomes
  import opened Transitions
  import Text

  datatype Move = Move(event: Event, ctx: Context)

  // ----- The two machines ---------------------------------------------------

  /** One attempt on the canonical machine: an illegal one leaves the token alone. */
  function TokenStep(t: Token, m: Move): Token {
    match Permit(t, m.event, m.ctx)
    case Ok(target) => target
    case Err(_) => t
  }

  /** All tokens visited by a run, the start included. */
  function TokenRun(t: Token, moves: seq<Move>): seq<Token>
    decreases |moves|
  {
    if moves == [] then [t] else [t] + TokenRun(TokenStep(t, moves[0]), moves[1..])
  }

  /** All status texts visited by a run, the start included. */
  function TextRun(kind: Kind, s: string, moves: seq<Move>): seq<string>
    decreases |moves|
  {
    if moves == [] then [s]
    else [s] + TextRun(kind, TextStep(kind, s, moves[0].event, moves[0].ctx), moves[1..])
  }

  /** The outcome of every attempt of a run on status text. */
  function TextOutcomes(kind: Kind, s: string, moves: seq<Move>): seq<Result<Token, Error>>
    decreases |moves|
  {
    if moves == [] then []
    else
      [Permit(Normalize(kind, s), moves[0].event, moves[0].ctx)]
      + TextOutcomes(kind, TextStep(kind, s, moves[0].event, moves[0].ctx), moves[1..])
  }

  function TokenOutcomes(t: Token, moves: seq<Move>): seq<Result<Token, Error>>
    decreases |moves|
  {
    if moves == [] then []
    else
      [Permit(t, moves[0].event, moves[0].ctx)] + TokenOutcomes(TokenStep(t, moves[0]), moves[1..])
  }

  function NormalizeAll(kind: Kind, run: seq<string>): seq<Token> {
    seq(|run|, i requires 0 <= i < |run| => Normalize(kind, run[i]))
  }

  // ----- Text and token agree on one step -----------------------------------

  // Reading a token's own spelling back, a few tokens at a time.

  lemma AliasOfFrontNames()
    ensures Alias("DISCOVERED") == Discovered && Alias("OFFER_SELECTED") == OfferSelected
    ensures Alias("CHECKOUT_CREATED") == CheckoutCreated && Alias("POLICY_CHECKED") == PolicyChecked
    ensures Alias("AUTHORIZATION_PENDING") == AuthorizationPending && Alias("AUTHORIZED") == Authorized
  {}

  lemma AliasOfStopNames()
    ensures Alias("POLICY_BLOCKED") == PolicyBlocked && Alias("CANCELLED") == Cancelled
    ensures Alias("CHECKOUT_EXPIRED") == CheckoutExpired
    ensures Alias("AUTHORIZATION_EXPIRED") == AuthorizationExpired
    ensures Alias("PRICE_CHANGED") == PriceChanged && Alias("INVENTORY_CHANGED") == InventoryChanged
  {}

  lemma AliasOfPaymentNames()
    ensures Alias("PAYMENT_CREATED") == PaymentCreated && Alias("PAYMENT_PENDING") == PaymentPending
    ensures Alias("PAYMENT_VERIFIED") == PaymentVerified && Alias("PAYMENT_FAILED") == PaymentFailed
    ensures Alias("PAYMENT_TIMEOUT") == PaymentTimeout && Alias("PAYMENT_UNKNOWN") == PaymentUnknown
  {}

  lemma AliasOfFinalNames()
    ensures Alias("MANUAL_REVIEW") == ManualReview && Alias("ORDER_CONFIRMED") == OrderConfirmed
    ensures Alias("COMPLETED") == Completed && Alias("CONSUMED") == Consumed
  {}

  lemma AliasOfName(t: Token)
    requires !t.Other?
    ensures Alias(Name(t)) == t
  {
    hide Alias;
    AliasOfFrontNames();
    AliasOfStopNames();
    AliasOfPaymentNames();
    AliasOfFinalNames();
  }

  lemma AliasOfShortKeys()
    ensures Alias("FAILED") == PaymentFailed && Alias("TIMEOUT") == PaymentTimeout
    ensures Alias("UNKNOWN") == PaymentUnknown && Alias("VERIFIED") == PaymentVerified
    ensures Alias("APPROVED") == Authorized && Alias("REJECTED") == Cancelled
    ensures Alias("REQUIRES_APPROVAL") == AuthorizationPending
  {}

  /** The per-type table overrides the shared one only for three keys of seven letters. */
  lemma SharedTableDecides(kind: Kind, s: string)
    requires |s| != 7
    ensures Normalize(kind, s) == Alias(Text.Upper(s))
  {
    hide Alias;
    AliasOfShortKeys();
    AliasOfFrontNames();
    AliasOfStopNames();
    AliasOfPaymentNames();
  }

  lemma NamesAreLong(t: Token)
    requires !t.Other?
    ensures |Name(t)| >= 8
  {}

  lemma ReadsName(kind: Kind, t: Token, s: string)
    requires !t.Other? && Text.Upper(s) == Name(t)
    ensures Normalize(kind, s) == t
  {
    hide Alias, Normalize, Name;
    NamesAreLong(t);
    AliasOfName(t);
    SharedTableDecides(kind, s);
  }

  /** Every rule spelling has letters, all of them capitals. */
  predicate AllCapitals(s: string) {
    && (forall i :: 0 <= i < |s| ==> !('a' <= s[i] <= 'z'))
    && 0 < |s| && 'A' <= s[0] <= 'Z'
  }

  lemma FrontNamesAreCapitals(t: Token)
    requires BeforeAuthorization(t)
    ensures AllCapitals(Name(t))
  {}

  lemma StoppedNamesAreCapitals(t: Token)
    requires Stopped(t)
    ensures AllCapitals(Name(t))
  {}

  lemma PaidNamesAreCapitals(t: Token)
    requires Paid(t)
    ensures AllCapitals(Name(t))
  {}

  lemma NamesAreCapitals(t: Token)
    requires !t.Other?
    ensures AllCapitals(Name(t))
  {
    if BeforeAuthorization(t) {
      FrontNamesAreCapitals(t);
    } else if Stopped(t) {
      StoppedNamesAreCapitals(t);
    } else if Paid(t) {
      PaidNamesAreCapitals(t);
    }
  }

  lemma UpperOfCapitals(s: string)
    requires AllCapitals(s)
    ensures Text.Upper(s) == s && Text.Upper(Text.Lower(s)) == s
  {}

  lemma NameNormalizes(kind: Kind, t: Token)
    requires !t.Other?
    ensures Normalize(kind, Name(t)) == t
    ensures Normalize(kind, Text.Lower(Name(t))) == t
  {
    hide Normalize;
    NamesAreCapitals(t);
    UpperOfCapitals(Name(t));
    ReadsName(kind, t, Name(t));
    ReadsName(kind, t, Text.Lower(Name(t)));
  }

  lemma UpperTexts()
    ensures Text.Upper("created") == "CREATED" && Text.Upper("pending") == "PENDING"
    ensures Text.Upper("expired") == "EXPIRED" && Text.Upper("verified") == "VERIFIED"
    ensures Text.Upper("approved") == "APPROVED" && Text.Upper("rejected") == "REJECTED"
  {}

  lemma UpperFailureTexts()
    ensures Text.Upper("failed") == "FAILED" && Text.Upper("timeout") == "TIMEOUT"
    ensures Text.Upper("unknown") == "UNKNOWN"
  {}

  lemma ReadsCheckoutTexts()
    ensures Normalize(CheckoutKind, "created") == CheckoutCreated
    ensures Normalize(CheckoutKind, "expired") == CheckoutExpired
  {
    hide Alias;
    UpperTexts();
  }

  lemma ReadsAuthorizationTexts()
    ensures Normalize(AuthorizationKind, "pending") == AuthorizationPending
    ensures Normalize(AuthorizationKind, "approved") == Authorized
    ensures Normalize(AuthorizationKind, "rejected") == Cancelled
    ensures Normalize(AuthorizationKind, "expired") == AuthorizationExpired
  {
    hide Alias;
    UpperTexts();
  }

  lemma ReadsPaymentTexts()
    ensures Normalize(PaymentKind, "created") == PaymentCreated
    ensures Normalize(PaymentKind, "pending") == PaymentPending
    ensures Normalize(PaymentKind, "verified") == PaymentVerified
  {
    hide Alias;
    UpperTexts();
  }

  lemma ReadsFailedPaymentTexts()
    ensures Normalize(PaymentKind, "failed") == PaymentFailed
    ensures Normalize(PaymentKind, "timeout") == PaymentTimeout
    ensures Normalize(PaymentKind, "unknown") == PaymentUnknown
  {
    hide Alias;
    UpperFailureTexts();
  }

  /** Writing a target and reading it back is lossless, except for one payment status. */
  lemma FormatThenNormalize(kind: Kind, target: Token, original: string)
    requires !target.Other?
    ensures Normalize(kind, FormatTarget(kind, target, original)) == target
       <==> !(kind == PaymentKind && target == OrderConfirmed && Text.IsLowerCase(original))
  {
    hide Normalize;
    NameNormalizes(kind, target);
    if Text.IsLowerCase(original) {
      ReadsCheckoutTexts();
      ReadsAuthorizationTexts();
      ReadsPaymentTexts();
      ReadsFailedPaymentTexts();
    }
  }

  lemma TargetIsNamed(source: Token, event: Event)
    requires RuleFor(source, event).Some?
    ensures !RuleFor(source, event).value.target.Other?
  {}

  /** One step on text is one step on tokens, exactly when it does not confirm a lower-case payment. */
  lemma StepSimulates(kind: Kind, s: string, m: Move)
    ensures Normalize(kind, TextStep(kind, s, m.event, m.ctx)) == TokenStep(Normalize(kind, s), m)
       <==> !(kind == PaymentKind && Text.IsLowerCase(s)
              && Permit(Normalize(kind, s), m.event, m.ctx) == Ok(OrderConfirmed))
  {
    hide Normalize;
    var t := Normalize(kind, s);
    match Permit(t, m.event, m.ctx)
    case Ok(target) =>
      TargetIsNamed(t, m.event);
      FormatThenNormalize(kind, target, s);
    case Err(_) =>
  }

  /** Aggregates whose every status text is faithful: all but lower-case payments. */
  predicate Faithful(kind: Kind, s: string) {
    kind != PaymentKind || !Text.IsLowerCase(s)
  }

  lemma FaithfulIsKept(kind: Kind, s: string, m: Move)
    requires Faithful(kind, s)
    ensures Faithful(kind, TextStep(kind, s, m.event, m.ctx))
  {
    hide Normalize;
    var t := Normalize(kind, s);
    match Permit(t, m.event, m.ctx)
    case Ok(target) =>
      TargetIsNamed(t, m.event);
      if kind == PaymentKind {
        NamesAreCapitals(target);
        Text.NotLowerCase(Name(target));
      }
    case Err(_) =>
  }

  // ----- Whole runs ---------------------------------------------------------

  lemma NormalizeCons(kind: Kind, s: string, rest: seq<string>)
    ensures NormalizeAll(kind, [s] + rest) == [Normalize(kind, s)] + NormalizeAll(kind, rest)
  {}

  /** A run on status text, in any casing, visits the texts of the token run, with its outcomes. */
  lemma {:induction false} RunSimulates(kind: Kind, s: string, moves: seq<Move>)
    requires Faithful(kind, s)
    ensures NormalizeAll(kind, TextRun(kind, s, moves)) == TokenRun(Normalize(kind, s), moves)
    ensures TextOutcomes(kind, s, moves) == TokenOutcomes(Normalize(kind, s), moves)
    decreases |moves|
  {
    hide Normalize, Permit;
    if moves != [] {
      var next := TextStep(kind, s, moves[0].event, moves[0].ctx);
      StepSimulates(kind, s, moves[0]);
      FaithfulIsKept(kind, s, moves[0]);
      RunSimulates(kind, next, moves[1..]);
      NormalizeCons(kind, s, TextRun(kind, next, moves[1..]));
    }
  }

  lemma PaymentTextIsLower(target: Token)
    requires !target.Other?
    ensures Text.IsLowerCase(DomainText(PaymentKind, target))
  {
    NamesAreCapitals(target);
    Text.LowerIsLowerCase(Name(target));
    hide Name, Text.Lower;
    assert 'a' <= "created"[0] <= 'z' && 'a' <= "pending"[0] <= 'z' && 'a' <= "verified"[0] <= 'z';
    assert 'a' <= "failed"[0] <= 'z' && 'a' <= "timeout"[0] <= 'z' && 'a' <= "unknown"[0] <= 'z';
  }

  lemma LowerIsKept(s: string, m: Move)
    requires Text.IsLowerCase(s)
    ensures Text.IsLowerCase(TextStep(PaymentKind, s, m.event, m.ctx))
  {
    hide Normalize, DomainText, RuleFor;
    var t := Normalize(PaymentKind, s);
    if Permit(t, m.event, m.ctx).Ok? {
      TargetIsNamed(t, m.event);
      PaymentTextIsLower(Permit(t, m.event, m.ctx).value);
    }
  }

  lemma NormalizeFirst(kind: Kind, s: string, moves: seq<Move>)
    ensures NormalizeAll(kind, TextRun(kind, s, moves)) != [] && TokenRun(Normalize(kind, s), moves) != []
    ensures NormalizeAll(kind, TextRun(kind, s, moves))[0] == Normalize(kind, s)
  {
    hide Normalize;
  }

  lemma ConsOutcome(outcome: Result<Token, Error>, rest: seq<Result<Token, Error>>)
    ensures Ok(OrderConfirmed) in [outcome] + rest <==> outcome == Ok(OrderConfirmed) || Ok(OrderConfirmed) in rest
  {}

  /** A lower-case payment simulates the token machine exactly in the runs that confirm no order. */
  lemma {:induction false} PaymentRunSimulates(s: string, moves: seq<Move>)
    requires Text.IsLowerCase(s)
    ensures NormalizeAll(PaymentKind, TextRun(PaymentKind, s, moves)) == TokenRun(Normalize(PaymentKind, s), moves)
       <==> Ok(OrderConfirmed) !in TokenOutcomes(Normalize(PaymentKind, s), moves)
    ensures Ok(OrderConfirmed) in TextOutcomes(PaymentKind, s, moves)
       <==> Ok(OrderConfirmed) in TokenOutcomes(Normalize(PaymentKind, s), moves)
    ensures Ok(OrderConfirmed) !in TextOutcomes(PaymentKind, s, moves) ==>
              TextOutcomes(PaymentKind, s, moves) == TokenOutcomes(Normalize(PaymentKind, s), moves)
    decreases |moves|
  {
    hide Normalize, Permit;
    if moves != [] {
      var t := Normalize(PaymentKind, s);
      var next := TextStep(PaymentKind, s, moves[0].event, moves[0].ctx);
      var token := TokenStep(t, moves[0]);
      var outcome := Permit(t, moves[0].event, moves[0].ctx);
      StepSimulates(PaymentKind, s, moves[0]);
      LowerIsKept(s, moves[0]);
      PaymentRunSimulates(next, moves[1..]);
      NormalizeCons(PaymentKind, s, TextRun(PaymentKind, next, moves[1..]));
      ConsOutcome(outcome, TextOutcomes(PaymentKind, next, moves[1..]));
      ConsOutcome(outcome, TokenOutcomes(token, moves[1..]));
      RunsDiverge(t, NormalizeAll(PaymentKind, TextRun(PaymentKind, next, moves[1..])), TokenRun(token, moves[1..]));
      NormalizeFirst(PaymentKind, next, moves[1..]);
      if outcome == Ok(OrderConfirmed) {
        assert TokenRun(token, moves[1..])[0] == token;
      }
    }
  }

  lemma RunsDiverge(t: Token, a: seq<Token>, b: seq<Token>)
    ensures [t] + a == [t] + b <==> a == b
  {
    assert ([t] + a)[1..] == a && ([t] + b)[1..] == b;
  }

  function ConfirmMoves(n: nat): seq<Move> {
    seq(n, i => Move(ConfirmOrder, ContextFor(System, 0)))
  }

  lemma VerifiedPaymentStays()
    ensures Permit(Normalize(PaymentKind, "verified"), ConfirmOrder, ContextFor(System, 0))
         == Ok(OrderConfirmed)
    ensures TextStep(PaymentKind, "verified", ConfirmOrder, ContextFor(System, 0)) == "verified"
  {
    hide Normalize;
    ReadsPaymentTexts();
    assert 'a' <= "verified"[0] <= 'z';
  }

  /** The exception is real: a payment stored as "verified" can be confirmed without end... */
  lemma {:induction false} VerifiedPaymentLoops(n: nat)
    ensures TextRun(PaymentKind, "verified", ConfirmMoves(n)) == seq(n + 1, i => "verified")
    ensures TextOutcomes(PaymentKind, "verified", ConfirmMoves(n)) == seq(n, i => Ok(OrderConfirmed))
  {
    var moves := ConfirmMoves(n);
    if n > 0 {
      hide Normalize, Permit;
      VerifiedPaymentStays();
      VerifiedPaymentLoops(n - 1);
      assert moves[1..] == ConfirmMoves(n - 1);
    }
  }

  lemma VerifiedTextStays(s: string, m: Move)
    requires Text.IsLowerCase(s) && Normalize(PaymentKind, s) == PaymentVerified
    ensures Normalize(PaymentKind, TextStep(PaymentKind, s, m.event, m.ctx)) == PaymentVerified
  {
    hide Normalize;
    ReadsPaymentTexts();
  }

  /** ... and no run of it, whatever its lower-case spelling, ever shows another status. */
  lemma {:induction false} VerifiedPaymentNeverCompletes(s: string, moves: seq<Move>, i: nat)
    requires Text.IsLowerCase(s) && Normalize(PaymentKind, s) == PaymentVerified
    requires i < |TextRun(PaymentKind, s, moves)|
    ensures Normalize(PaymentKind, TextRun(PaymentKind, s, moves)[i]) == PaymentVerified != Completed
    decreases |moves|
  {
    hide Normalize, Permit;
    if moves != [] && i > 0 {
      VerifiedTextStays(s, moves[0]);
      LowerIsKept(s, moves[0]);
      VerifiedPaymentNeverCompletes(TextStep(PaymentKind, s, moves[0].event, moves[0].ctx), moves[1..], i - 1);
    }
  }

  // ----- Progress -----------------------------------------------------------

  /** How many transitions can still follow a token. */
  function Rank(t: Token): nat {
    match t
    case Discovered => 12
    case OfferSelected => 11
    case CheckoutCreated => 10
    case PolicyChecked => 9
    case AuthorizationPending => 8
    case Authorized => 7
    case PaymentCreated => 6
    case PaymentPending => 5
    case PaymentTimeout => 4
    case PaymentUnknown => 3
    case PaymentVerified => 2
    case OrderConfirmed => 1
    case _ => 0
  }

  lemma RankDrops(source: Token, event: Event)
    requires RuleFor(source, event).Some?
    ensures Rank(RuleFor(source, event).value.target) < Rank(source)
  {}

  lemma StepDropsRank(t: Token, m: Move)
    ensures Permit(t, m.event, m.ctx).Ok? ==> Rank(TokenStep(t, m)) < Rank(t)
    ensures Permit(t, m.event, m.ctx).Err? ==> TokenStep(t, m) == t
  {}

  function Successes(outcomes: seq<Result<Token, Error>>): nat {
    if outcomes == [] then 0
    else (if outcomes[0].Ok? then 1 else 0) + Successes(outcomes[1..])
  }

  function TokenAfter(t: Token, moves: seq<Move>): Token
    decreases |moves|
  {
    if moves == [] then t else TokenAfter(TokenStep(t, moves[0]), moves[1..])
  }

  lemma SuccessesCons(outcome: Result<Token, Error>, rest: seq<Result<Token, Error>>)
    ensures Successes([outcome] + rest) == (if outcome.Ok? then 1 else 0) + Successes(rest)
  {}

  lemma {:induction false} TokenRunIsBounded(t: Token, moves: seq<Move>)
    ensures Successes(TokenOutcomes(t, moves)) + Rank(TokenAfter(t, moves)) <= Rank(t)
    decreases |moves|
  {
    hide Permit, Rank;
    if moves != [] {
      var next := TokenStep(t, moves[0]);
      StepDropsRank(t, moves[0]);
      TokenRunIsBounded(next, moves[1..]);
      SuccessesCons(Permit(t, moves[0].event, moves[0].ctx), TokenOutcomes(next, moves[1..]));
    }
  }

  /** Any run of a faithful aggregate makes at most Rank transitions: ten after `created`. */
  lemma TransitionsAreBounded(kind: Kind, s: string, moves: seq<Move>)
    requires Faithful(kind, s)
    ensures Successes(TextOutcomes(kind, s, moves)) <= Rank(Normalize(kind, s))
    ensures Normalize(CheckoutKind, "created") == CheckoutCreated && Rank(CheckoutCreated) == 10
  {
    RunSimulates(kind, s, moves);
    TokenRunIsBounded(Normalize(kind, s), moves);
    ReadsCheckoutTexts();
  }

  /** The same for lower-case payments, in runs that confirm no order. */
  lemma LowerPaymentsAreBounded(s: string, moves: seq<Move>)
    requires Text.IsLowerCase(s) && Ok(OrderConfirmed) !in TextOutcomes(PaymentKind, s, moves)
    ensures Successes(TextOutcomes(PaymentKind, s, moves)) <= Rank(Normalize(PaymentKind, s))
    ensures Rank(Normalize(PaymentKind, "created")) == 6
  {
    PaymentRunSimulates(s, moves);
    TokenRunIsBounded(Normalize(PaymentKind, s), moves);
    hide Normalize;
    ReadsPaymentTexts();
  }

  /** The longest way through the rules, which meets the bound of ten. */
  function LongestWay(hash: Option<string>): seq<Move> {
    var system := ContextFor(System, 0);
    [Move(CheckPolicy, system), Move(RequireApproval, system),
     Move(ApproveAuthorization, ContextFor(Buyer, 0)),
     Move(CreatePayment, ContextFor(Buyer, 0).(suppliedHash := hash, persistedHash := hash)),
     Move(ProviderOrderCreated, system), Move(TimeoutPayment, system), Move(MarkUnknown, system),
     Move(VerifyUnknown, system), Move(ConfirmOrder, system), Move(CompleteOrder, system)]
  }

  lemma BoundIsTight(hash: Option<string>)
    ensures |LongestWay(hash)| == 10
    ensures Successes(TokenOutcomes(CheckoutCreated, LongestWay(hash))) == 10
  {
    var m := LongestWay(hash);
    LongestWaySucceeds(hash);
    AllSucceed(LongestVisits(), m);
  }

  function LongestVisits(): seq<Token> {
    [CheckoutCreated, PolicyChecked, AuthorizationPending, Authorized, PaymentCreated,
     PaymentPending, PaymentTimeout, PaymentUnknown, PaymentVerified, OrderConfirmed, Completed]
  }

  lemma LongestWaySucceeds(hash: Option<string>)
    ensures var m, v := LongestWay(hash), LongestVisits();
            forall i :: 0 <= i < 10 ==> Permit(v[i], m[i].event, m[i].ctx) == Ok(v[i + 1])
  {
  }

  lemma {:induction false} AllSucceed(visited: seq<Token>, m: seq<Move>)
    requires |visited| == |m| + 1
    requires forall i :: 0 <= i < |m| ==> Permit(visited[i], m[i].event, m[i].ctx) == Ok(visited[i + 1])
    ensures Successes(TokenOutcomes(visited[0], m)) == |m|
    decreases |m|
  {
    if m != [] {
      AllSucceed(visited[1..], m[1..]);
      assert TokenOutcomes(visited[0], m)[1..] == TokenOutcomes(visited[1], m[1..]);
    }
  }

  /** Terminal tokens are exactly those every event refuses as already finalized. */
  lemma TerminalAbsorbs(t: Token)
    ensures Terminal(t) <==> forall e: Event, ctx: Context :: Permit(t, e, ctx) == Err(AlreadyFinalized)
  {
    if !Terminal(t) {
      var ctx := ContextFor(Stranger(""), 0);
      assert Permit(t, SelectOffer, ctx) != Err(AlreadyFinalized);
    }
  }

  /** A terminal status text never changes again, whatever is attempted. */
  lemma {:induction false} TerminalTextIsFinal(kind: Kind, s: string, moves: seq<Move>)
    requires Terminal(Normalize(kind, s))
    ensures forall i :: 0 <= i < |TextRun(kind, s, moves)| ==> TextRun(kind, s, moves)[i] == s
    decreases |moves|
  {
    TerminalAbsorbs(Normalize(kind, s));
    if moves != [] {
      TerminalTextIsFinal(kind, s, moves[1..]);
    }
  }

  // ----- Paid states lie behind authorization -------------------------------

  predicate BeforeAuthorization(t: Token) {
    t.Discovered? || t.OfferSelected? || t.CheckoutCreated? || t.PolicyChecked?
    || t.AuthorizationPending?
  }

  predicate Paid(t: Token) {
    || t.PaymentCreated? || t.PaymentPending? || t.PaymentTimeout? || t.PaymentUnknown?
    || t.PaymentVerified? || t.PaymentFailed? || t.OrderConfirmed? || t.Completed?
  }

  predicate Stopped(t: Token) {
    t.PolicyBlocked? || t.Cancelled? || t.CheckoutExpired? || t.AuthorizationExpired?
  }

  lemma LeavingTheFront(t: Token, m: Move)
    requires BeforeAuthorization(t) || Stopped(t)
    ensures BeforeAuthorization(TokenStep(t, m)) || Stopped(TokenStep(t, m)) || TokenStep(t, m) == Authorized
  {}

  /** No run from before authorization visits a paid token without visiting AUTHORIZED first. */
  lemma {:induction false} PaidOnlyThroughAuthorized(t: Token, moves: seq<Move>, i: nat)
    requires BeforeAuthorization(t) || Stopped(t)
    requires i < |TokenRun(t, moves)| && Paid(TokenRun(t, moves)[i])
    ensures exists j :: 0 <= j < i && TokenRun(t, moves)[j] == Authorized
    decreases |moves|
  {
    if moves != [] && i > 0 {
      var run := TokenRun(t, moves);
      var next := TokenStep(t, moves[0]);
      var rest := TokenRun(next, moves[1..]);
      assert run[1..] == rest;
      LeavingTheFront(t, moves[0]);
      assert rest[0] == next;
      if next == Authorized {
        assert run[1] == Authorized;
      } else {
        PaidOnlyThroughAuthorized(next, moves[1..], i - 1);
        var j :| 0 <= j < i - 1 && rest[j] == Authorized;
        assert run[j + 1] == Authorized;
      }
    }
  }

  /** The same on status text: a checkout that shows a paid status was `authorized` before. */
  lemma PaidTextOnlyThroughAuthorized(s: string, moves: seq<Move>, i: nat)
    requires BeforeAuthorization(Normalize(CheckoutKind, s))
    requires i < |TextRun(CheckoutKind, s, moves)|
    requires Paid(Normalize(CheckoutKind, TextRun(CheckoutKind, s, moves)[i]))
    ensures exists j :: 0 <= j < i
              && Normalize(CheckoutKind, TextRun(CheckoutKind, s, moves)[j]) == Authorized
  {
    RunSimulates(CheckoutKind, s, moves);
    var texts := TextRun(CheckoutKind, s, moves);
    var tokens := TokenRun(Normalize(CheckoutKind, s), moves);
    assert NormalizeAll(CheckoutKind, texts)[i] == tokens[i];
    PaidOnlyThroughAuthorized(Normalize(CheckoutKind, s), moves, i);
    var j :| 0 <= j < i && tokens[j] == Authorized;
    assert NormalizeAll(CheckoutKind, texts)[j] == Authorized;
  }
}
