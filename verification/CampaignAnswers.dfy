/**
 * What the policy engine and each lifecycle call answer, with the limits, the statuses and the
 * dates written out.
 */
module CampaignAnswers {
  import opened Outcomes
  import opened Campaigns

  // ----- The rules --------------------------------------------------------------

  predicate ItemKeepsRules(p: Item, ceiling: real) {
    && p.discountPct <= ceiling && p.availableInventory >= 3
    && (p.marginPct.Some? ==> p.marginPct.value >= 15.0)
  }

  /** Another campaign of this merchant is live or approved, and has this product. */
  ghost predicate TakenBy(store: Store, merchantId: string, self: Option<nat>, x: nat, productId: string) {
    && x in store && store[x].merchantId == merchantId && self != Some(x)
    && (store[x].status == Active || store[x].status == Approved)
    && exists q :: q in store[x].products && q.productId == productId
  }

  /** What a campaign of this merchant must keep, beside the others in the store. */
  ghost predicate KeepsRules(store: Store, merchantId: string, self: Option<nat>, maxDiscount: real, days: int,
                             products: seq<Item>, ceiling: real)
  {
    && maxDiscount <= ceiling && 1 <= days <= 14
    && (forall p :: p in products ==> ItemKeepsRules(p, ceiling))
    && (forall p, x :: p in products ==> !TakenBy(store, merchantId, self, x, p.productId))
  }

  function Others(store: Store, merchantId: string, self: Option<nat>): set<Campaign> {
    if self.Some? then OthersOf(store, merchantId, self.value) else Listed(store, merchantId)
  }

  lemma OthersAre(store: Store, merchantId: string, self: Option<nat>, c: Campaign)
    ensures c in Others(store, merchantId, self) <==>
            exists x :: x in store && store[x] == c && c.merchantId == merchantId && self != Some(x)
  {}

  lemma NoOverlapIff(store: Store, merchantId: string, self: Option<nat>, products: seq<Item>)
    ensures (forall c :: c in Others(store, merchantId, self) && c.status in {Active, Approved} ==>
               !Overlaps(products, c.products)) <==>
            (forall p, x :: p in products ==> !TakenBy(store, merchantId, self, x, p.productId))
  {
    forall c ensures c in Others(store, merchantId, self) <==>
                     exists x :: x in store && store[x] == c && c.merchantId == merchantId && self != Some(x) {
      OthersAre(store, merchantId, self, c);
    }
    hide Others;
    if forall p, x :: p in products ==> !TakenBy(store, merchantId, self, x, p.productId) {
      forall c | c in Others(store, merchantId, self) && c.status in {Active, Approved}
        ensures !Overlaps(products, c.products)
      {
        var x :| x in store && store[x] == c && c.merchantId == merchantId && self != Some(x);
        forall i, j | 0 <= i < |products| && 0 <= j < |c.products|
          ensures products[i].productId != c.products[j].productId
        {
          assert !TakenBy(store, merchantId, self, x, products[i].productId);
          assert c.products[j] in store[x].products;
        }
      }
    } else {
      var p, x :| p in products && TakenBy(store, merchantId, self, x, p.productId);
      var i :| 0 <= i < |products| && products[i] == p;
      var j :| 0 <= j < |store[x].products| && store[x].products[j].productId == p.productId;
      assert store[x] in Others(store, merchantId, self);
      assert Overlaps(products, store[x].products);
    }
  }

  lemma CompliesIff(store: Store, merchantId: string, self: Option<nat>, maxDiscount: real, days: int,
                    products: seq<Item>, ceiling: real)
    ensures Compliant(maxDiscount, days, products, ceiling, Others(store, merchantId, self)) <==>
            KeepsRules(store, merchantId, self, maxDiscount, days, products, ceiling)
  {
    NoOverlapIff(store, merchantId, self, products);
    hide Overlaps, TakenBy, Others;
    assert ItemsFit(products, ceiling) <==> forall p :: p in products ==> ItemKeepsRules(p, ceiling) by {
      assert forall p :: ItemFits(p, ceiling) <==> ItemKeepsRules(p, ceiling);
    }
  }

  /** A proposal is never allowed outright: it is blocked exactly when it breaks a rule, else it needs approval. */
  lemma ProposalIsBlockedIff(store: Store, merchantId: string, maxDiscount: real, days: int, items: seq<Item>,
                             ceiling: real)
    ensures PolicyOf(maxDiscount, days, items, ceiling, Listed(store, merchantId)).decision
         == if KeepsRules(store, merchantId, None, maxDiscount, days, items, ceiling)
            then RequireApproval else Block
  {
    CompliesIff(store, merchantId, None, maxDiscount, days, items, ceiling);
    NoViolationsIffCompliant(maxDiscount, days, items, ceiling, Listed(store, merchantId));
    hide Compliant, KeepsRules, PassedRules, Violations, Listed;
  }

  /** An item breaks the rule this violation names. */
  predicate Breaks(p: Item, v: Violation, ceiling: real, taken: set<string>) {
    match v
    case ItemDiscountExceeded(id) => p.productId == id && p.discountPct > ceiling
    case InsufficientInventory(id) => p.productId == id && p.availableInventory < 3
    case MarginFloorBreach(id) => p.productId == id && p.marginPct.Some? && p.marginPct.value < 15.0
    case CampaignConflict(id) => p.productId == id && id in taken
    case _ => false
  }

  lemma ItemViolationsAre(p: Item, ceiling: real, taken: set<string>, v: Violation)
    ensures v in ItemViolations(p, ceiling, taken) <==> Breaks(p, v, ceiling, taken)
  {
    var a := if p.discountPct > ceiling then [ItemDiscountExceeded(p.productId)] else [];
    var b := if p.availableInventory < 3 then [InsufficientInventory(p.productId)] else [];
    var c := if p.marginPct.Some? && p.marginPct.value < 15.0 then [MarginFloorBreach(p.productId)] else [];
    var d := if p.productId in taken then [CampaignConflict(p.productId)] else [];
    assert ItemViolations(p, ceiling, taken) == a + b + c + d;
  }

  /** Every broken rule is reported, for each item that breaks it, and no other. */
  lemma ViolationsAre(maxDiscount: real, days: int, items: seq<Item>, ceiling: real, taken: set<string>, v: Violation)
    ensures v in Violations(maxDiscount, days, items, ceiling, taken) <==>
            match v
            case DiscountCeilingExceeded => maxDiscount > ceiling
            case InvalidDuration => days < 1 || days > 14
            case _ => exists p :: p in items && Breaks(p, v, ceiling, taken)
  {
    hide ItemViolations, ProductViolations, Breaks;
    ViolationsComeFromItems(items, ceiling, taken, v);
    forall p ensures v in ItemViolations(p, ceiling, taken) <==> Breaks(p, v, ceiling, taken) {
      ItemViolationsAre(p, ceiling, taken, v);
    }
    OnlyItemsBreak(v, ceiling, taken);
  }

  lemma OnlyItemsBreak(v: Violation, ceiling: real, taken: set<string>)
    ensures v == DiscountCeilingExceeded || v == InvalidDuration ==> forall p :: !Breaks(p, v, ceiling, taken)
  {}

  // ----- The lifecycle calls ------------------------------------------------------

  ghost predicate Succeeds(store: Store, merchantId: string, id: nat, call: Call) {
    Refusal(store, merchantId, id, call).None?
  }

  ghost predicate Finds(store: Store, merchantId: string, id: nat, statuses: set<Status>) {
    merchantId != "" && id in store && store[id].merchantId == merchantId && store[id].status in statuses
  }

  /** When each call succeeds, on a campaign of the caller's own. */
  lemma CallsSucceedIff(store: Store, merchantId: string, id: nat, ceiling: real, reason: string)
    ensures Succeeds(store, merchantId, id, Submit) <==> Finds(store, merchantId, id, {Draft, Proposed})
    ensures Succeeds(store, merchantId, id, Approve) <==>
            Finds(store, merchantId, id, {Proposed, Review}) && store[id].policy.decision != Block
    ensures Succeeds(store, merchantId, id, Activate(ceiling)) <==>
            && Finds(store, merchantId, id, {Approved})
            && var c := store[id];
            KeepsRules(store, merchantId, Some(id), c.maxDiscountPct, c.durationDays, c.products, ceiling)
    ensures Succeeds(store, merchantId, id, Reject(reason)) <==>
            merchantId != "" && id in store && store[id].merchantId == merchantId
    ensures Succeeds(store, merchantId, id, Pause) <==> Finds(store, merchantId, id, {Active})
    ensures Succeeds(store, merchantId, id, Complete) <==> Finds(store, merchantId, id, {Active, Paused})
  {
    if id in store {
      var c := store[id];
      CompliesIff(store, merchantId, Some(id), c.maxDiscountPct, c.durationDays, c.products, ceiling);
    }
    hide Compliant, KeepsRules, OthersOf;
  }

  /** What refuses a call; a refused call changes nothing. */
  lemma CallsAreRefusedAs(store: Store, merchantId: string, id: nat, call: Call, now: int)
    requires !Succeeds(store, merchantId, id, call)
    ensures Called(store, merchantId, id, call, now) == store
    ensures var mine := merchantId != "" && id in store && store[id].merchantId == merchantId;
            && (Refusal(store, merchantId, id, call) == Some(NotFound) <==> !mine)
            && (mine && call == Approve && store[id].status in {Proposed, Review} ==>
                  Refusal(store, merchantId, id, call) == Some(PolicyBlocked))
            && (mine && call.Activate? && store[id].status == Approved ==>
                  Refusal(store, merchantId, id, call) == Some(PolicyBlocked))
            && (mine && ((call == Approve && store[id].status !in {Proposed, Review})
                         || (call.Activate? && store[id].status != Approved)) ==>
                  Refusal(store, merchantId, id, call) == Some(IllegalTransition))
            && (mine && (call == Submit || call == Pause || call == Complete) ==>
                  Refusal(store, merchantId, id, call) == Some(IllegalTransition))
  {
    hide Compliant, OthersOf;
  }

  /** A call that succeeds changes one campaign: its status, and the dates that belong to that. */
  lemma CallsLeave(store: Store, merchantId: string, id: nat, call: Call, now: int)
    requires Succeeds(store, merchantId, id, call)
    ensures id in store
    ensures var after := Called(store, merchantId, id, call, now);
            && after.Keys == store.Keys && (forall x :: x in store && x != id ==> after[x] == store[x])
            && var (was, c) := (store[id], after[id]);
            && c.id == was.id && c.merchantId == was.merchantId && c.maxDiscountPct == was.maxDiscountPct
            && c.durationDays == was.durationDays && c.products == was.products && c.policy == was.policy
            && c.pausedAt == (if call == Pause then Some(now) else None)
            && c.completedAt == (if call == Complete then Some(now) else None)
            && c.rejectionReason == (if call.Reject? then Some(call.reason) else was.rejectionReason)
            && c.activatedAt == (if call.Activate? then Some(now) else was.activatedAt)
            && match call
               case Submit => c.status == Review && c.reviewedAt == Some(now) && c.approvedAt == was.approvedAt
               case Approve => c.status == Approved && c.reviewedAt == was.reviewedAt && c.approvedAt == Some(now)
               case Activate(_) =>
                 c.status == Active && c.reviewedAt == None
                 && c.approvedAt == (if was.approvedAt.Some? then was.approvedAt else Some(now))
               case Reject(_) => c.status == Rejected && c.reviewedAt == None && c.approvedAt == was.approvedAt
               case Pause => c.status == Paused && c.reviewedAt == None && c.approvedAt == was.approvedAt
               case Complete => c.status == Completed && c.reviewedAt == None && c.approvedAt == was.approvedAt
  {}
}
