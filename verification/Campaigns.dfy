/**
 * Promotional campaigns: the policy engine (services/campaigns/policy.py) and the
 * lifecycle over the in-memory store (services/campaigns/service.py).
 */
module Campaigns {
  import opened Outcomes

  datatype Status = Draft | Proposed | Review | Approved | Rejected | Active | Paused | Completed | Cancelled

  /** Percentages are exact here; a margin may be unknown. */
  datatype Item = Item(productId: string, discountPct: real, availableInventory: int, marginPct: Option<real>)

  datatype Decision = Allow | RequireApproval | Block

  datatype Violation =
    | DiscountCeilingExceeded
    | ItemDiscountExceeded(productId: string)
    | InsufficientInventory(productId: string)
    | MarginFloorBreach(productId: string)
    | CampaignConflict(productId: string)
    | InvalidDuration

  datatype Passed =
    | DiscountCeilingSatisfied | ItemDiscountsValid | InventoryAdequate | MarginFloorsPreserved
    | MarginUnverifiable(productIds: seq<string>) | NoConflicts | DurationValid

  datatype PolicyCheck = PolicyCheck(decision: Decision, passed: seq<Passed>, violated: seq<Violation>)

  datatype Campaign = Campaign(
    id: nat, merchantId: string, status: Status, maxDiscountPct: real, durationDays: int,
    products: seq<Item>, policy: PolicyCheck,
    reviewedAt: Option<int>, approvedAt: Option<int>, activatedAt: Option<int>,
    pausedAt: Option<int>, completedAt: Option<int>, rejectionReason: Option<string>)

  const MIN_INVENTORY_THRESHOLD := 3
  const MIN_MARGIN_FLOOR_PCT := 15.0
  const MAX_DURATION_DAYS := 14

  // ----- The policy engine --------------------------------------------------

  /** The products of campaigns that are active or approved. */
  function ActiveSkus(others: set<Campaign>): set<string> {
    set c, i | c in others && c.status in {Active, Approved} && 0 <= i < |c.products| :: c.products[i].productId
  }

  /** The rules an item breaks, in the order they are checked. */
  function ItemViolations(p: Item, ceiling: real, taken: set<string>): seq<Violation> {
    (if p.discountPct > ceiling then [ItemDiscountExceeded(p.productId)] else [])
    + (if p.availableInventory < MIN_INVENTORY_THRESHOLD then [InsufficientInventory(p.productId)] else [])
    + (if p.marginPct.Some? && p.marginPct.value < MIN_MARGIN_FLOOR_PCT
       then [MarginFloorBreach(p.productId)] else [])
    + (if p.productId in taken then [CampaignConflict(p.productId)] else [])
  }

  function ProductViolations(products: seq<Item>, ceiling: real, taken: set<string>): seq<Violation> {
    if products == [] then []
    else
      ProductViolations(products[..|products| - 1], ceiling, taken)
        + ItemViolations(products[|products| - 1], ceiling, taken)
  }

  predicate DurationAllowed(days: int) {
    1 <= days <= MAX_DURATION_DAYS
  }

  function Violations(maxDiscount: real, days: int, products: seq<Item>, ceiling: real, taken: set<string>)
    : seq<Violation>
  {
    (if maxDiscount > ceiling then [DiscountCeilingExceeded] else [])
    + ProductViolations(products, ceiling, taken)
    + (if DurationAllowed(days) then [] else [InvalidDuration])
  }

  predicate ItemFits(p: Item, ceiling: real) {
    && p.discountPct <= ceiling && p.availableInventory >= MIN_INVENTORY_THRESHOLD
    && (p.marginPct.Some? ==> p.marginPct.value >= MIN_MARGIN_FLOOR_PCT)
  }

  predicate ItemsFit(products: seq<Item>, ceiling: real) {
    forall i :: 0 <= i < |products| ==> ItemFits(products[i], ceiling)
  }

  predicate Overlaps(a: seq<Item>, b: seq<Item>) {
    exists i, j :: 0 <= i < |a| && 0 <= j < |b| && a[i].productId == b[j].productId
  }

  /** The rules as a merchant would state them. */
  ghost predicate Compliant(maxDiscount: real, days: int, products: seq<Item>, ceiling: real,
                            others: set<Campaign>)
  {
    && maxDiscount <= ceiling && DurationAllowed(days) && ItemsFit(products, ceiling)
    && forall c :: c in others && c.status in {Active, Approved} ==> !Overlaps(products, c.products)
  }

  method CollectActiveSkus(others: set<Campaign>) returns (skus: set<string>)
    ensures skus == ActiveSkus(others)
  {
    skus := {};
    var rest := others;
    while rest != {}
      invariant rest <= others && skus == ActiveSkus(others - rest)
    {
      var c :| c in rest;
      ghost var before := skus;
      if c.status == Active || c.status == Approved {
        for i := 0 to |c.products|
          invariant skus == before + set j | 0 <= j < i :: c.products[j].productId
        {
          skus := skus + {c.products[i].productId};
        }
      }
      MoreSkus(others - rest, c);
      rest := rest - {c};
      assert others - rest == (others - (rest + {c})) + {c};
    }
    assert others - {} == others;
  }

  lemma MoreSkus(done: set<Campaign>, c: Campaign)
    ensures ActiveSkus(done + {c})
         == ActiveSkus(done)
            + if c.status in {Active, Approved}
              then set j | 0 <= j < |c.products| :: c.products[j].productId else {}
  {}

  /** The items whose margin nobody can check. */
  function Unverifiable(products: seq<Item>): seq<string> {
    if products == [] then []
    else
      var p := products[|products| - 1];
      Unverifiable(products[..|products| - 1]) + (if p.marginPct.None? then [p.productId] else [])
  }

  // The engine finds out which rules passed by searching the violation texts for a rule's word.
  // A text is the word of its own rule, the product id in brackets, and numbers, so a word that is
  // found is the violation's own or lies within the product id.

  datatype Rule = ItemDiscounts | Inventory | Margins | Conflicts

  function Word(rule: Rule): string {
    match rule
    case ItemDiscounts => "ITEM_DISCOUNT_EXCEEDED"
    case Inventory => "INSUFFICIENT_INVENTORY"
    case Margins => "MARGIN_FLOOR_BREACH"
    case Conflicts => "CAMPAIGN_CONFLICT"
  }

  predicate Contains(text: string, word: string) {
    exists i :: 0 <= i <= |text| && word <= text[i..]
  }

  predicate Mentions(v: Violation, rule: Rule) {
    match v
    case ItemDiscountExceeded(id) => rule == ItemDiscounts || Contains(id, Word(rule))
    case InsufficientInventory(id) => rule == Inventory || Contains(id, Word(rule))
    case MarginFloorBreach(id) => rule == Margins || Contains(id, Word(rule))
    case CampaignConflict(id) => rule == Conflicts || Contains(id, Word(rule))
    case _ => false
  }

  predicate Keeps(p: Item, rule: Rule, ceiling: real, taken: set<string>) {
    match rule
    case ItemDiscounts => p.discountPct <= ceiling
    case Inventory => p.availableInventory >= MIN_INVENTORY_THRESHOLD
    case Margins => p.marginPct.Some? ==> p.marginPct.value >= MIN_MARGIN_FLOOR_PCT
    case Conflicts => p.productId !in taken
  }

  /** An item lets a rule pass: it keeps it, and breaks no other rule under an id with the rule's word. */
  predicate Clears(p: Item, rule: Rule, ceiling: real, taken: set<string>) {
    && Keeps(p, rule, ceiling, taken)
    && (Contains(p.productId, Word(rule)) ==> ItemFits(p, ceiling) && p.productId !in taken)
  }

  predicate AllClear(products: seq<Item>, rule: Rule, ceiling: real, taken: set<string>) {
    forall p :: p in products ==> Clears(p, rule, ceiling, taken)
  }

  /** The rules reported as passed, said of the items themselves. */
  function PassedRules(maxDiscount: real, days: int, products: seq<Item>, ceiling: real, taken: set<string>)
    : seq<Passed>
  {
    var unknown := Unverifiable(products);
    (if maxDiscount <= ceiling then [DiscountCeilingSatisfied] else [])
    + (if AllClear(products, ItemDiscounts, ceiling, taken) then [ItemDiscountsValid] else [])
    + (if AllClear(products, Inventory, ceiling, taken) then [InventoryAdequate] else [])
    + (if AllClear(products, Margins, ceiling, taken) && unknown == [] then [MarginFloorsPreserved] else [])
    + (if unknown != [] then [MarginUnverifiable(unknown)] else [])
    + (if AllClear(products, Conflicts, ceiling, taken) then [NoConflicts] else [])
    + (if DurationAllowed(days) then [DurationValid] else [])
  }

  function PolicyOf(maxDiscount: real, days: int, products: seq<Item>, ceiling: real, others: set<Campaign>)
    : PolicyCheck
  {
    var taken := ActiveSkus(others);
    var violated := Violations(maxDiscount, days, products, ceiling, taken);
    PolicyCheck(if violated == [] then RequireApproval else Block,
                PassedRules(maxDiscount, days, products, ceiling, taken), violated)
  }

  method CheckItem(p: Item, ceiling: real, taken: set<string>) returns (violated: seq<Violation>)
    ensures violated == ItemViolations(p, ceiling, taken)
  {
    violated := [];
    if p.discountPct > ceiling {
      violated := violated + [ItemDiscountExceeded(p.productId)];
    }
    if p.availableInventory < MIN_INVENTORY_THRESHOLD {
      violated := violated + [InsufficientInventory(p.productId)];
    }
    if p.marginPct.Some? && p.marginPct.value < MIN_MARGIN_FLOOR_PCT {
      violated := violated + [MarginFloorBreach(p.productId)];
    }
    if p.productId in taken {
      violated := violated + [CampaignConflict(p.productId)];
    }
  }

  method CheckItems(products: seq<Item>, ceiling: real, taken: set<string>)
    returns (violated: seq<Violation>, unknown: seq<string>)
    ensures violated == ProductViolations(products, ceiling, taken)
    ensures unknown == Unverifiable(products)
  {
    hide ItemViolations;
    violated, unknown := [], [];
    var n := 0;
    while n < |products|
      invariant 0 <= n <= |products|
      invariant violated == ProductViolations(products[..n], ceiling, taken)
      invariant unknown == Unverifiable(products[..n])
    {
      var broken := CheckItem(products[n], ceiling, taken);
      violated := violated + broken;
      if products[n].marginPct.None? {
        unknown := unknown + [products[n].productId];
      }
      assert products[..n + 1][..n] == products[..n];
      n := n + 1;
    }
    assert products[..|products|] == products;
  }

  method EvaluateCampaign(maxDiscount: real, days: int, products: seq<Item>, ceiling: real, others: set<Campaign>)
    returns (r: PolicyCheck)
    ensures r == PolicyOf(maxDiscount, days, products, ceiling, others)
    ensures r.decision == Block <==> !Compliant(maxDiscount, days, products, ceiling, others)
  {
    hide ProductViolations, Unverifiable, ActiveSkus, AllClear, Mentions, Compliant;
    NoViolationsIffCompliant(maxDiscount, days, products, ceiling, others);
    var overCeiling := maxDiscount > ceiling;
    var taken := CollectActiveSkus(others);
    var broken, unknown := CheckItems(products, ceiling, taken);
    ViolationKinds(products, ceiling, taken);
    var badDuration := days < 1 || days > MAX_DURATION_DAYS;
    var violated := (if overCeiling then [DiscountCeilingExceeded] else []) + broken
                    + (if badDuration then [InvalidDuration] else []);
    var passed :=
      (if overCeiling then [] else [DiscountCeilingSatisfied])
      + (if forall v :: v in broken ==> !Mentions(v, ItemDiscounts) then [ItemDiscountsValid] else [])
      + (if forall v :: v in broken ==> !Mentions(v, Inventory) then [InventoryAdequate] else [])
      + (if (forall v :: v in broken ==> !Mentions(v, Margins)) && unknown == [] then [MarginFloorsPreserved] else [])
      + (if unknown != [] then [MarginUnverifiable(unknown)] else [])
      + (if forall v :: v in broken ==> !Mentions(v, Conflicts) then [NoConflicts] else [])
      + (if badDuration then [] else [DurationValid]);
    r := PolicyCheck(if violated != [] then Block else RequireApproval, passed, violated);
  }

  lemma {:induction false} ViolationsComeFromItems(products: seq<Item>, ceiling: real, taken: set<string>, v: Violation)
    ensures v in ProductViolations(products, ceiling, taken) <==>
            exists p :: p in products && v in ItemViolations(p, ceiling, taken)
    decreases |products|
  {
    hide ItemViolations;
    if products != [] {
      ViolationsComeFromItems(products[..|products| - 1], ceiling, taken, v);
      assert products == products[..|products| - 1] + [products[|products| - 1]];
    }
  }

  /** No violation mentions a rule exactly when every item lets it pass. */
  lemma ViolationKinds(products: seq<Item>, ceiling: real, taken: set<string>)
    ensures forall rule :: (forall v :: v in ProductViolations(products, ceiling, taken) ==> !Mentions(v, rule))
                           <==> AllClear(products, rule, ceiling, taken)
  {
    hide ProductViolations, ItemViolations, Mentions, Clears;
    forall v | v in ProductViolations(products, ceiling, taken)
      ensures exists p :: p in products && v in ItemViolations(p, ceiling, taken)
    {
      ViolationsComeFromItems(products, ceiling, taken, v);
    }
    forall p, v | p in products && v in ItemViolations(p, ceiling, taken)
      ensures v in ProductViolations(products, ceiling, taken)
    {
      ViolationsComeFromItems(products, ceiling, taken, v);
    }
    forall p, rule | p in products
      ensures Clears(p, rule, ceiling, taken) <==>
              forall v :: v in ItemViolations(p, ceiling, taken) ==> !Mentions(v, rule)
    {
      ItemViolationKinds(p, ceiling, taken, rule);
    }
  }

  lemma ItemViolationKinds(p: Item, ceiling: real, taken: set<string>, rule: Rule)
    ensures Clears(p, rule, ceiling, taken) <==>
            forall v :: v in ItemViolations(p, ceiling, taken) ==> !Mentions(v, rule)
  {
    hide Contains, Word;
    var vs := ItemViolations(p, ceiling, taken);
    assert p.discountPct > ceiling ==> ItemDiscountExceeded(p.productId) in vs;
    assert p.availableInventory < MIN_INVENTORY_THRESHOLD ==> InsufficientInventory(p.productId) in vs;
    assert p.marginPct.Some? && p.marginPct.value < MIN_MARGIN_FLOOR_PCT ==> MarginFloorBreach(p.productId) in vs;
    assert p.productId in taken ==> CampaignConflict(p.productId) in vs;
  }

  /** It happens: a stocked item, over the discount ceiling, under an id with the inventory rule's word. */
  lemma WordInIdHidesRule(before: string, after: string, maxDiscount: real, days: int, ceiling: real)
    ensures var p := Item(before + Word(Inventory) + after, ceiling + 1.0, MIN_INVENTORY_THRESHOLD, None);
            var check := PolicyOf(maxDiscount, days, [p], ceiling, {});
            && Keeps(p, Inventory, ceiling, {})
            && (forall v :: v in check.violated ==> !v.InsufficientInventory?)
            && InventoryAdequate !in check.passed
  {
    var id := before + Word(Inventory) + after;
    var p := Item(id, ceiling + 1.0, MIN_INVENTORY_THRESHOLD, None);
    hide Word;
    assert id[|before|..] == Word(Inventory) + after;
    assert Contains(id, Word(Inventory));
    assert ActiveSkus({}) == {} && [p][..0] == [];
    assert !Clears(p, Inventory, ceiling, {}) && p in [p];
    assert ProductViolations([p], ceiling, {}) == [ItemDiscountExceeded(id)];
    hide ProductViolations, ActiveSkus, Unverifiable;
  }

  /** When no product id holds the rule's word, it is reported as passed exactly when every item keeps it. */
  lemma PlainIdsReportRules(products: seq<Item>, rule: Rule, ceiling: real, taken: set<string>)
    requires forall p :: p in products ==> !Contains(p.productId, Word(rule))
    ensures AllClear(products, rule, ceiling, taken) <==>
            forall p :: p in products ==> Keeps(p, rule, ceiling, taken)
  {
    hide Contains, Word, Keeps;
  }

  lemma {:induction false} NoProductViolations(products: seq<Item>, ceiling: real, taken: set<string>)
    ensures ProductViolations(products, ceiling, taken) == [] <==>
            forall i :: 0 <= i < |products| ==>
              ItemFits(products[i], ceiling) && products[i].productId !in taken
    decreases |products|
  {
    if products != [] {
      var n := |products| - 1;
      NoProductViolations(products[..n], ceiling, taken);
      assert ItemViolations(products[n], ceiling, taken) == [] <==>
             ItemFits(products[n], ceiling) && products[n].productId !in taken;
      hide ItemViolations, ItemFits;
      assert forall i :: 0 <= i < n ==> products[..n][i] == products[i];
    }
  }

  /** The engine finds no violation exactly when the campaign complies with every rule. */
  lemma NoViolationsIffCompliant(maxDiscount: real, days: int, products: seq<Item>, ceiling: real,
                                 others: set<Campaign>)
    ensures Violations(maxDiscount, days, products, ceiling, ActiveSkus(others)) == [] <==>
            Compliant(maxDiscount, days, products, ceiling, others)
  {
    var taken := ActiveSkus(others);
    NoProductViolations(products, ceiling, taken);
    hide ItemFits, ProductViolations;
    if forall i :: 0 <= i < |products| ==> products[i].productId !in taken {
      forall c | c in others && c.status in {Active, Approved}
        ensures !Overlaps(products, c.products)
      {
        forall i, j | 0 <= i < |products| && 0 <= j < |c.products|
          ensures products[i].productId != c.products[j].productId
        {
          assert c.products[j].productId in taken;
        }
      }
    }
    if forall c :: c in others && c.status in {Active, Approved} ==> !Overlaps(products, c.products) {
      forall i | 0 <= i < |products| ensures products[i].productId !in taken {}
    }
  }

  // ----- The lifecycle ------------------------------------------------------

  type Store = map<nat, Campaign>

  datatype Error = NotFound | IllegalTransition | PolicyBlocked

  /** Another tenant's campaign is answered as not found. */
  predicate Visible(store: Store, merchantId: string, id: nat) {
    merchantId != "" && id in store && store[id].merchantId == merchantId
  }

  function Listed(store: Store, merchantId: string): set<Campaign> {
    set x | x in store && store[x].merchantId == merchantId :: store[x]
  }

  function OthersOf(store: Store, merchantId: string, id: nat): set<Campaign> {
    set x | x in store && store[x].merchantId == merchantId && x != id :: store[x]
  }

  /** What each call asks of the status it finds, and the status it leaves. */
  datatype Call =
    | Submit | Approve | Activate(ceiling: real) | Reject(reason: string) | Pause | Complete

  predicate Accepts(call: Call, status: Status) {
    match call
    case Submit => status in {Draft, Proposed}
    case Approve => status in {Proposed, Review}
    case Activate(_) => status == Approved
    case Reject(_) => true
    case Pause => status == Active
    case Complete => status in {Active, Paused}
  }

  function Changed(call: Call, c: Campaign, now: int): Campaign {
    match call
    case Submit => c.(status := Review, reviewedAt := Some(now), pausedAt := None, completedAt := None)
    case Approve => c.(status := Approved, approvedAt := Some(now), pausedAt := None, completedAt := None)
    case Activate(_) =>
      c.(status := Active, reviewedAt := None, activatedAt := Some(now), pausedAt := None, completedAt := None,
         approvedAt := if c.approvedAt.Some? then c.approvedAt else Some(now))
    case Reject(reason) =>
      c.(status := Rejected, reviewedAt := None, pausedAt := None, completedAt := None,
         rejectionReason := Some(reason))
    case Pause => c.(status := Paused, reviewedAt := None, pausedAt := Some(now), completedAt := None)
    case Complete => c.(status := Completed, reviewedAt := None, pausedAt := None, completedAt := Some(now))
  }

  ghost function Refusal(store: Store, merchantId: string, id: nat, call: Call): Option<Error> {
    if !Visible(store, merchantId, id) then Some(NotFound)
    else
      var c := store[id];
      if !Accepts(call, c.status) then Some(IllegalTransition)
      else if call.Approve? && c.policy.decision == Block then Some(PolicyBlocked)
      else if call.Activate?
              && !Compliant(c.maxDiscountPct, c.durationDays, c.products, call.ceiling,
                            OthersOf(store, c.merchantId, id))
      then Some(PolicyBlocked)
      else None
  }

  ghost function Called(store: Store, merchantId: string, id: nat, call: Call, now: int): Store {
    if Refusal(store, merchantId, id, call).Some? then store
    else store[id := Changed(call, store[id], now)]
  }

  function Drafted(id: nat, merchantId: string, maxDiscount: real, days: int, items: seq<Item>,
                   policy: PolicyCheck): Campaign
  {
    Campaign(id, merchantId, Proposed, maxDiscount, days, items, policy, None, None, None, None, None, None)
  }

  /** The service over its in-memory store; identifiers are handed out once each. */
  class CampaignService {
    var store: Store
    var nextId: nat

    constructor ()
      ensures store == map[] && nextId == 0
    {
      store, nextId := map[], 0;
    }

    /** The items were found by a catalog search, or are the offline samples. */
    method Propose(merchantId: string, maxDiscount: real, days: int, items: seq<Item>, ceiling: real)
      returns (c: Campaign)
      modifies this
      ensures State(store, nextId)
           == Step(State(old(store), old(nextId)), ProposeOp(merchantId, maxDiscount, days, items, ceiling))
      ensures c == store[old(nextId)]
      ensures c.policy.decision == Block <==>
              !Compliant(maxDiscount, days, items, ceiling, Listed(old(store), merchantId))
    {
      hide PolicyOf, Compliant;
      var policy := EvaluateCampaign(maxDiscount, days, items, ceiling, Listed(store, merchantId));
      c := Drafted(nextId, merchantId, maxDiscount, days, items, policy);
      store := store[nextId := c];
      nextId := nextId + 1;
    }

    method SubmitForReview(merchantId: string, id: nat, now: int) returns (r: Result<Campaign, Error>)
      modifies this`store
      ensures store == Called(old(store), merchantId, id, Submit, now)
      ensures Answer(old(store), merchantId, id, Submit, now, r)
    {
      if !Visible(store, merchantId, id) { return Err(NotFound); }
      var c := store[id];
      if c.status != Draft && c.status != Proposed { return Err(IllegalTransition); }
      var submitted := Campaign(c.id, c.merchantId, Review, c.maxDiscountPct, c.durationDays, c.products,
                                c.policy, Some(now), c.approvedAt, c.activatedAt, None, None, c.rejectionReason);
      store := store[id := submitted];
      return Ok(submitted);
    }

    method ApproveCampaign(merchantId: string, id: nat, now: int) returns (r: Result<Campaign, Error>)
      modifies this`store
      ensures store == Called(old(store), merchantId, id, Approve, now)
      ensures Answer(old(store), merchantId, id, Approve, now, r)
    {
      if !Visible(store, merchantId, id) { return Err(NotFound); }
      var c := store[id];
      if c.status != Proposed && c.status != Review { return Err(IllegalTransition); }
      if c.policy.decision == Block { return Err(PolicyBlocked); }
      var approved := Campaign(c.id, c.merchantId, Approved, c.maxDiscountPct, c.durationDays, c.products,
                               c.policy, c.reviewedAt, Some(now), c.activatedAt, None, None, c.rejectionReason);
      store := store[id := approved];
      return Ok(approved);
    }

    method ActivateCampaign(merchantId: string, id: nat, ceiling: real, now: int)
      returns (r: Result<Campaign, Error>)
      modifies this`store
      ensures store == Called(old(store), merchantId, id, Activate(ceiling), now)
      ensures Answer(old(store), merchantId, id, Activate(ceiling), now, r)
    {
      if !Visible(store, merchantId, id) { return Err(NotFound); }
      var c := store[id];
      if c.status != Approved { return Err(IllegalTransition); }
      var others := OthersOf(store, c.merchantId, id);
      var recheck := EvaluateCampaign(c.maxDiscountPct, c.durationDays, c.products, ceiling, others);
      hide Compliant, PolicyOf;
      if recheck.decision == Block { return Err(PolicyBlocked); }
      var active := Campaign(c.id, c.merchantId, Active, c.maxDiscountPct, c.durationDays, c.products, c.policy,
                             None, if c.approvedAt.Some? then c.approvedAt else Some(now), Some(now),
                             None, None, c.rejectionReason);
      store := store[id := active];
      return Ok(active);
    }

    method RejectCampaign(merchantId: string, id: nat, reason: string, now: int)
      returns (r: Result<Campaign, Error>)
      modifies this`store
      ensures store == Called(old(store), merchantId, id, Reject(reason), now)
      ensures Answer(old(store), merchantId, id, Reject(reason), now, r)
    {
      if !Visible(store, merchantId, id) { return Err(NotFound); }
      var c := store[id];
      var rejected := Campaign(c.id, c.merchantId, Rejected, c.maxDiscountPct, c.durationDays, c.products,
                               c.policy, None, c.approvedAt, c.activatedAt, None, None, Some(reason));
      store := store[id := rejected];
      return Ok(rejected);
    }

    method PauseCampaign(merchantId: string, id: nat, now: int) returns (r: Result<Campaign, Error>)
      modifies this`store
      ensures store == Called(old(store), merchantId, id, Pause, now)
      ensures Answer(old(store), merchantId, id, Pause, now, r)
    {
      if !Visible(store, merchantId, id) { return Err(NotFound); }
      var c := store[id];
      if c.status != Active { return Err(IllegalTransition); }
      var paused := Campaign(c.id, c.merchantId, Paused, c.maxDiscountPct, c.durationDays, c.products,
                             c.policy, None, c.approvedAt, c.activatedAt, Some(now), None, c.rejectionReason);
      store := store[id := paused];
      return Ok(paused);
    }

    method CompleteCampaign(merchantId: string, id: nat, now: int) returns (r: Result<Campaign, Error>)
      modifies this`store
      ensures store == Called(old(store), merchantId, id, Complete, now)
      ensures Answer(old(store), merchantId, id, Complete, now, r)
    {
      if !Visible(store, merchantId, id) { return Err(NotFound); }
      var c := store[id];
      if c.status != Active && c.status != Paused { return Err(IllegalTransition); }
      var completed := Campaign(c.id, c.merchantId, Completed, c.maxDiscountPct, c.durationDays, c.products,
                                c.policy, None, c.approvedAt, c.activatedAt, None, Some(now), c.rejectionReason);
      store := store[id := completed];
      return Ok(completed);
    }
  }

  /** A refused call answers its error; any other answers the stored campaign. */
  ghost predicate Answer(store: Store, merchantId: string, id: nat, call: Call, now: int,
                         r: Result<Campaign, Error>)
  {
    match Refusal(store, merchantId, id, call)
    case Some(e) => r == Err(e)
    case None => r == Ok(Changed(call, store[id], now))
  }

  // ----- Runs ---------------------------------------------------------------

  datatype Op =
    | ProposeOp(merchantId: string, maxDiscount: real, days: int, items: seq<Item>, ceiling: real)
    | CallOp(merchantId: string, id: nat, call: Call, now: int)

  datatype State = State(store: Store, nextId: nat)

  /** A proposal with the verdict of the policy engine at that moment, or a lifecycle call. */
  ghost function Step(s: State, op: Op): State {
    match op
    case ProposeOp(merchantId, maxDiscount, days, items, ceiling) =>
      var policy := PolicyOf(maxDiscount, days, items, ceiling, Listed(s.store, merchantId));
      State(s.store[s.nextId := Drafted(s.nextId, merchantId, maxDiscount, days, items, policy)], s.nextId + 1)
    case CallOp(merchantId, id, call, now) => s.(store := Called(s.store, merchantId, id, call, now))
  }

  ghost function Run(s: State, ops: seq<Op>): State {
    if ops == [] then s else Step(Run(s, ops[..|ops| - 1]), ops[|ops| - 1])
  }

  predicate ItemsInStock(products: seq<Item>) {
    forall i :: 0 <= i < |products| ==>
      && products[i].availableInventory >= MIN_INVENTORY_THRESHOLD
      && (products[i].marginPct.Some? ==> products[i].marginPct.value >= MIN_MARGIN_FLOOR_PCT)
  }

  /** A campaign that went live met the rules that do not depend on the others. */
  predicate WellLaunched(c: Campaign) {
    c.status in {Active, Paused, Completed} ==> DurationAllowed(c.durationDays) && ItemsInStock(c.products)
  }

  /** Two different campaigns of one merchant are live. */
  predicate BothLive(store: Store, a: nat, b: nat)
    requires a in store && b in store
  {
    a != b && store[a].status == store[b].status == Active && store[a].merchantId == store[b].merchantId
  }

  ghost predicate Inv(s: State) {
    && (forall id :: id in s.store ==> id < s.nextId && s.store[id].id == id && WellLaunched(s.store[id]))
    && (forall a, b :: a in s.store && b in s.store && BothLive(s.store, a, b) ==>
          !Overlaps(s.store[a].products, s.store[b].products))
  }

  lemma ActivationIsDisjoint(store: Store, merchantId: string, id: nat, ceiling: real, other: nat)
    requires Refusal(store, merchantId, id, Activate(ceiling)).None?
    requires other in store && other != id && store[other].merchantId == merchantId
    requires store[other].status in {Active, Approved}
    ensures !Overlaps(store[id].products, store[other].products)
    ensures !Overlaps(store[other].products, store[id].products)
  {}

  lemma CallKeepsLaunch(store: Store, merchantId: string, id: nat, call: Call, now: int)
    requires Refusal(store, merchantId, id, call).None? && WellLaunched(store[id])
    ensures WellLaunched(Changed(call, store[id], now))
  {}

  lemma CallKeepsInv(s: State, merchantId: string, id: nat, call: Call, now: int)
    requires Inv(s)
    ensures Inv(Step(s, CallOp(merchantId, id, call, now)))
  {
    if Refusal(s.store, merchantId, id, call).None? {
      CallKeepsLaunch(s.store, merchantId, id, call, now);
      if call.Activate? {
        forall other | other in s.store && other != id && s.store[other].merchantId == merchantId
                       && s.store[other].status == Active
          ensures !Overlaps(s.store[id].products, s.store[other].products)
          ensures !Overlaps(s.store[other].products, s.store[id].products)
        {
          ActivationIsDisjoint(s.store, merchantId, id, call.ceiling, other);
        }
      }
      hide Overlaps, WellLaunched, Compliant;
    }
  }

  lemma ProposalKeepsInv(s: State, merchantId: string, maxDiscount: real, days: int, items: seq<Item>, ceiling: real)
    requires Inv(s)
    ensures Inv(Step(s, ProposeOp(merchantId, maxDiscount, days, items, ceiling)))
  {
    hide PolicyOf, Overlaps, ItemsInStock;
  }

  lemma {:induction false} RunKeepsInv(s: State, ops: seq<Op>)
    requires Inv(s)
    ensures Inv(Run(s, ops))
    decreases |ops|
  {
    hide Inv, Step;
    if ops != [] {
      var before := Run(s, ops[..|ops| - 1]);
      RunKeepsInv(s, ops[..|ops| - 1]);
      match ops[|ops| - 1]
      case CallOp(merchantId, id, call, now) => CallKeepsInv(before, merchantId, id, call, now);
      case ProposeOp(merchantId, maxDiscount, days, items, ceiling) =>
        ProposalKeepsInv(before, merchantId, maxDiscount, days, items, ceiling);
    }
  }

  const START: State := State(map[], 0)

  /** Over any run from an empty store, live campaigns of a merchant never share a product. */
  lemma ActiveCampaignsNeverOverlap(ops: seq<Op>, a: nat, b: nat)
    requires var end := Run(START, ops).store;
             a in end && b in end && BothLive(end, a, b)
    ensures !Overlaps(Run(START, ops).store[a].products, Run(START, ops).store[b].products)
  {
    RunKeepsInv(START, ops);
    hide Run, Overlaps, WellLaunched;
  }

  /** Operation i approved this campaign, which was awaiting it and had not been blocked. */
  ghost predicate ApprovedAt(ops: seq<Op>, i: nat, id: nat) {
    && i < |ops| && ops[i].CallOp? && ops[i].id == id && ops[i].call == Approve
    && var store := Run(START, ops[..i]).store;
    && Refusal(store, ops[i].merchantId, id, Approve).None?
    && store[id].status in {Proposed, Review} && store[id].policy.decision != Block
  }

  /** Operation j activated this campaign, which was approved and complied with every rule just then. */
  ghost predicate ActivatedAt(ops: seq<Op>, j: nat, id: nat) {
    && j < |ops| && ops[j].CallOp? && ops[j].id == id && ops[j].call.Activate?
    && var store := Run(START, ops[..j]).store;
    && Refusal(store, ops[j].merchantId, id, ops[j].call).None?
    && store[id].status == Approved
    && Compliant(store[id].maxDiscountPct, store[id].durationDays, store[id].products, ops[j].call.ceiling,
                 OthersOf(store, store[id].merchantId, id))
  }

  lemma {:induction false} WasApproved(ops: seq<Op>, id: nat) returns (i: nat)
    requires id in Run(START, ops).store && Run(START, ops).store[id].status in {Approved, Active, Paused, Completed}
    ensures ApprovedAt(ops, i, id)
    decreases |ops|
  {
    hide Compliant, PolicyOf;
    assert ops != [];
    var n := |ops| - 1;
    var before := Run(START, ops[..n]).store;
    if id in before && before[id].status in {Approved, Active, Paused, Completed} {
      i := WasApproved(ops[..n], id);
      assert ops[..n][..i] == ops[..i];
    } else {
      i := n;
    }
  }

  lemma {:induction false} WasActivated(ops: seq<Op>, id: nat) returns (j: nat)
    requires id in Run(START, ops).store && Run(START, ops).store[id].status in {Active, Paused, Completed}
    ensures ActivatedAt(ops, j, id)
    decreases |ops|
  {
    hide Compliant, PolicyOf;
    assert ops != [];
    var n := |ops| - 1;
    var before := Run(START, ops[..n]).store;
    if id in before && before[id].status in {Active, Paused, Completed} {
      j := WasActivated(ops[..n], id);
      assert ops[..n][..j] == ops[..j];
    } else {
      j := n;
    }
  }

  /** Whatever is live, paused or completed was approved first, then activated, and met the rules. */
  lemma LiveCampaignWasApproved(ops: seq<Op>, id: nat) returns (i: nat, j: nat)
    requires id in Run(START, ops).store && Run(START, ops).store[id].status in {Active, Paused, Completed}
    ensures i < j && ApprovedAt(ops, i, id) && ActivatedAt(ops, j, id)
    ensures DurationAllowed(Run(START, ops).store[id].durationDays)
    ensures ItemsInStock(Run(START, ops).store[id].products)
  {
    RunKeepsInv(START, ops);
    j := WasActivated(ops, id);
    i := WasApproved(ops[..j], id);
    assert ops[..j][..i] == ops[..i];
    hide Run, Compliant, Overlaps, ItemsInStock;
  }

  // ----- Ranks --------------------------------------------------------------

  function Rank(s: Status): nat {
    match s
    case Draft => 0
    case Proposed => 1
    case Review => 2
    case Approved => 3
    case Active => 4
    case Paused => 5
    case Completed => 6
    case Cancelled => 7
    case Rejected => 8
  }

  /** No lifecycle call takes a campaign back, and only a repeated rejection leaves it where it was. */
  lemma CallsClimb(store: Store, merchantId: string, id: nat, call: Call, now: int)
    requires Refusal(store, merchantId, id, call).None?
    ensures Rank(store[id].status) < Rank(Changed(call, store[id], now).status)
            || (call.Reject? && store[id].status == Rejected)
  {}

  /** A status rank never goes back over a run, and the terms of a campaign never change. */
  lemma {:induction false} RanksNeverFall(s: State, ops: seq<Op>, id: nat)
    requires Inv(s) && id in s.store
    ensures var end := Run(s, ops);
            && id in end.store && Rank(s.store[id].status) <= Rank(end.store[id].status)
            && end.store[id].merchantId == s.store[id].merchantId
            && end.store[id].products == s.store[id].products
    decreases |ops|
  {
    if ops != [] {
      var init := ops[..|ops| - 1];
      RanksNeverFall(s, init, id);
      RunKeepsInv(s, init);
      hide Overlaps, WellLaunched, Compliant;
      match ops[|ops| - 1]
      case CallOp(merchantId, other, call, now) =>
        if Refusal(Run(s, init).store, merchantId, other, call).None? {
          CallsClimb(Run(s, init).store, merchantId, other, call, now);
        }
      case ProposeOp(_, _, _, _, _) =>
    }
  }

  // ----- Approved campaigns that block each other ---------------------------

  /** Approval does not look for overlaps, so two approved campaigns of a merchant that share a
      product keep each other from being activated, whatever the ceiling. */
  lemma OverlappingApprovalsDeadlock(s: State, a: nat, b: nat, ceiling: real)
    requires Inv(s) && a in s.store && b in s.store && a != b
    requires s.store[a].merchantId == s.store[b].merchantId != ""
    requires s.store[a].status == s.store[b].status == Approved
    requires Overlaps(s.store[a].products, s.store[b].products)
    ensures Refusal(s.store, s.store[a].merchantId, a, Activate(ceiling)) == Some(PolicyBlocked)
    ensures Refusal(s.store, s.store[b].merchantId, b, Activate(ceiling)) == Some(PolicyBlocked)
  {}

  lemma RunStep(ops: seq<Op>, op: Op)
    ensures Run(START, ops + [op]) == Step(Run(START, ops), op)
  {
    assert (ops + [op])[..|ops|] == ops;
  }

  lemma ProposalComplies(s: State, merchantId: string, maxDiscount: real, days: int, items: seq<Item>, ceiling: real)
    requires forall x :: x in s.store ==> s.store[x].status == Proposed
    requires Compliant(maxDiscount, days, items, ceiling, {})
    ensures PolicyOf(maxDiscount, days, items, ceiling, Listed(s.store, merchantId)).decision == RequireApproval
  {
    NoViolationsIffCompliant(maxDiscount, days, items, ceiling, Listed(s.store, merchantId));
    hide Violations, PassedRules, ActiveSkus, ItemsFit;
  }

  /** The run that gets there: the same items proposed twice, and both proposals approved. */
  function TwiceApproved(merchantId: string, maxDiscount: real, days: int, items: seq<Item>, ceiling: real, now: int)
    : seq<Op>
  {
    var propose := ProposeOp(merchantId, maxDiscount, days, items, ceiling);
    [propose, propose, CallOp(merchantId, 0, Approve, now), CallOp(merchantId, 1, Approve, now)]
  }

  /** A proposal of this merchant and these items that may be approved. */
  predicate Approvable(store: Store, id: nat, merchantId: string, items: seq<Item>) {
    && id in store && store[id].merchantId == merchantId && store[id].products == items
    && store[id].status == Proposed && store[id].policy.decision == RequireApproval
  }

  lemma TwoProposals(merchantId: string, maxDiscount: real, days: int, items: seq<Item>, ceiling: real)
    requires Compliant(maxDiscount, days, items, ceiling, {})
    ensures var propose := ProposeOp(merchantId, maxDiscount, days, items, ceiling);
            var store := Run(START, [propose, propose]).store;
            Approvable(store, 0, merchantId, items) && Approvable(store, 1, merchantId, items)
  {
    hide PolicyOf, Compliant;
    var propose := ProposeOp(merchantId, maxDiscount, days, items, ceiling);
    RunStep([], propose);
    RunStep([propose], propose);
    assert [] + [propose] == [propose] && [propose] + [propose] == [propose, propose];
    assert Run(START, []) == START;
    ProposalComplies(START, merchantId, maxDiscount, days, items, ceiling);
    hide Run;
    ProposalComplies(Step(START, propose), merchantId, maxDiscount, days, items, ceiling);
  }

  lemma ApprovalOf(s: State, id: nat, merchantId: string, items: seq<Item>, now: int)
    requires Approvable(s.store, id, merchantId, items) && merchantId != ""
    ensures Step(s, CallOp(merchantId, id, Approve, now)).store == s.store[id := Changed(Approve, s.store[id], now)]
  {}

  lemma DeadlockIsReached(merchantId: string, maxDiscount: real, days: int, items: seq<Item>, ceiling: real, now: int,
                          later: real)
    requires merchantId != "" && items != [] && Compliant(maxDiscount, days, items, ceiling, {})
    ensures var store := Run(START, TwiceApproved(merchantId, maxDiscount, days, items, ceiling, now)).store;
            && 0 in store && 1 in store && store[0].status == store[1].status == Approved
            && Refusal(store, merchantId, 0, Activate(later)) == Some(PolicyBlocked)
            && Refusal(store, merchantId, 1, Activate(later)) == Some(PolicyBlocked)
  {
    hide Run, Step, Compliant, Overlaps, Refusal, Inv;
    var propose := ProposeOp(merchantId, maxDiscount, days, items, ceiling);
    var first, second := CallOp(merchantId, 0, Approve, now), CallOp(merchantId, 1, Approve, now);
    RunStep([propose, propose], first);
    RunStep([propose, propose, first], second);
    assert [propose, propose] + [first] == [propose, propose, first];
    assert [propose, propose, first] + [second] == [propose, propose, first, second];
    TwoProposals(merchantId, maxDiscount, days, items, ceiling);
    ApprovalOf(Run(START, [propose, propose]), 0, merchantId, items, now);
    ApprovalOf(Run(START, [propose, propose, first]), 1, merchantId, items, now);
    ItemsOverlapThemselves(items);
    StartHolds();
    RunKeepsInv(START, [propose, propose, first, second]);
    OverlappingApprovalsDeadlock(Run(START, [propose, propose, first, second]), 0, 1, later);
  }

  lemma StartHolds()
    ensures Inv(START)
  {}

  lemma ItemsOverlapThemselves(items: seq<Item>)
    requires items != []
    ensures Overlaps(items, items)
  {
    assert items[0].productId == items[0].productId;
  }
}
