/**
 * What a staged row must say to be valid, and what each valid row becomes, with the limits and
 * the defaults written out.
 */
module ImportAnswers {
  import opened Outcomes
  import opened Decimal
  import opened CatalogImports

  // ----- Validation ---------------------------------------------------------------

  /** Each field is in error exactly when it is missing or out of its range. */
  lemma FieldErrors(r: Row)
    ensures SkuField in RowErrors(r) <==> r.sku == ""
    ensures TitleField in RowErrors(r) <==> !(3 <= |r.title| <= 300)
    ensures PriceField in RowErrors(r) <==>
            !(r.priceMinor.Some? && 0 <= r.priceMinor.value <= 1_000_000_000)
    ensures CurrencyField in RowErrors(r) <==> !(r.currency == "INR" || r.currency == "USD")
    ensures InventoryField in RowErrors(r) <==> !(r.inventory.Some? && 0 <= r.inventory.value)
    ensures StatusField in RowErrors(r) <==> !(r.status == "active" || r.status == "inactive")
    ensures CategoryField in RowErrors(r) <==>
            r.category !in {"", "laptop", "smartphone", "monitor", "audio", "camera", "computer_accessory",
                            "phone_accessory", "home_electronics", "appliance", "uncategorized_review"}
  {}

  /** A checked row is the staged row with its verdict. */
  lemma CheckedIs(rows: seq<Row>, i: nat)
    requires i < |rows|
    ensures |CheckedAll(rows)| == |rows|
    ensures CheckedAll(rows)[i] == rows[i].(isValid := (forall f :: f !in RowErrors(rows[i])),
                                            errors := RowErrors(rows[i]))
  {
    hide RowErrors;
  }

  /** Where the valid rows stand, in order. */
  ghost predicate Stand(rows: seq<Row>, at: seq<nat>) {
    && (forall j :: 0 <= j < |at| ==> at[j] < |rows| && rows[at[j]].isValid)
    && (forall j, k :: 0 <= j < k < |at| ==> at[j] < at[k])
    && (forall i :: 0 <= i < |rows| && rows[i].isValid ==> i in at)
  }

  lemma StandsAfter(rows: seq<Row>, at: seq<nat>)
    requires rows != [] && Stand(rows[..|rows| - 1], at)
    ensures var n: nat := |rows| - 1;
            Stand(rows, if rows[n].isValid then at + [n] else at)
  {
    var n: nat := |rows| - 1;
    var all := if rows[n].isValid then at + [n] else at;
    assert forall j :: 0 <= j < |at| ==> at[j] < n && rows[..n][at[j]] == rows[at[j]];
    forall i | 0 <= i < |rows| && rows[i].isValid ensures i in all {
      if i < n {
        assert rows[..n][i].isValid;
        var j :| 0 <= j < |at| && at[j] == i;
        assert all[j] == i;
      } else {
        assert all[|at|] == n;
      }
    }
  }

  function Picked(rows: seq<Row>, at: seq<nat>): seq<Row>
    requires forall j :: 0 <= j < |at| ==> at[j] < |rows|
  {
    seq(|at|, j requires 0 <= j < |at| => rows[at[j]])
  }

  lemma PickedOfPrefix(rows: seq<Row>, at: seq<nat>)
    requires rows != [] && Stand(rows[..|rows| - 1], at)
    ensures Picked(rows[..|rows| - 1], at) == Picked(rows, at)
  {}

  /** The rows taken over are exactly the valid ones, in their order. */
  lemma {:induction false} ValidRowsInOrder(rows: seq<Row>) returns (at: seq<nat>)
    ensures Stand(rows, at) && ValidRows(rows) == Picked(rows, at)
    decreases |rows|
  {
    at := [];
    if rows != [] {
      var n := |rows| - 1;
      var init := ValidRowsInOrder(rows[..n]);
      StandsAfter(rows, init);
      PickedOfPrefix(rows, init);
      at := if rows[n].isValid then init + [n] else init;
      hide Stand;
      assert rows[n].isValid ==> Picked(rows, init + [n]) == Picked(rows, init) + [rows[n]];
    }
  }

  // ----- Publication --------------------------------------------------------------

  /** What an offer repeats of its row, and what it says where the row says nothing. */
  predicate Offers(o: Offer, r: Row, version: string, merchantId: string) {
    && o.version == version && o.merchantId == merchantId
    && o.status == (if r.status == "" then "active" else r.status)
    && o.unitPriceMinor == (if r.priceMinor.Some? then r.priceMinor.value else 0)
    && o.currency == (if r.currency == "" then "INR" else r.currency)
    && o.deliveryDays == (if r.deliveryDays == 0 then 3 else r.deliveryDays)
    && o.returnDays == (if r.returnDays == 0 then 14 else r.returnDays)
  }

  predicate HasUnit(r: Row, sku: string) {
    sku == if r.sku == "" then "sku_" + NatText(r.number) else r.sku
  }

  /** What a product repeats of a row. */
  predicate Describes(p: Product, r: Row, version: string, merchantId: string) {
    && p.version == version && p.merchantId == merchantId && HasUnit(r, p.sku)
    && p.title == (if r.title == "" then p.sku else r.title)
    && p.category == (if r.category == "" then "uncategorized_review" else r.category)
    && p.imageUrl == r.imageUrl
    && (p.status == NeedsReview <==> |r.title| < 8)
  }

  /** It is the first row that names this unit. */
  ghost predicate FirstOfUnit(rows: seq<Row>, i: nat, sku: string)
    requires i < |rows|
  {
    HasUnit(rows[i], sku) && forall h :: 0 <= h < i ==> !HasUnit(rows[h], sku)
  }

  ghost predicate OffersSay(b: Batch, rows: seq<Row>, version: string, merchantId: string) {
    && |b.offers| == |b.stock| == |rows|
    && forall i :: 0 <= i < |rows| ==>
         && Offers(b.offers[i], rows[i], version, merchantId)
         && b.stock[i] == Stock(b.offers[i].id, if rows[i].inventory.Some? then rows[i].inventory.value else 0, 0)
  }

  ghost predicate ProductsSay(b: Batch, rows: seq<Row>, version: string, merchantId: string) {
    forall k :: 0 <= k < |b.products| ==> DescribedBy(b.products[k], rows, version, merchantId)
  }

  ghost predicate UnitsAre(b: Batch, rows: seq<Row>) {
    forall sku :: sku in b.seen <==> exists i :: 0 <= i < |rows| && HasUnit(rows[i], sku)
  }

  ghost predicate DescribedBy(p: Product, rows: seq<Row>, version: string, merchantId: string) {
    exists i :: 0 <= i < |rows| && FirstOfUnit(rows, i, p.sku) && Describes(p, rows[i], version, merchantId)
  }

  lemma UnitOf(r: Row, sku: string)
    ensures HasUnit(r, sku) <==> sku == EffectiveSku(r)
  {}

  lemma DescriptionStays(p: Product, rows: seq<Row>, r: Row, version: string, merchantId: string)
    requires DescribedBy(p, rows, version, merchantId)
    ensures DescribedBy(p, rows + [r], version, merchantId)
  {
    hide HasUnit, Describes;
    var i :| 0 <= i < |rows| && FirstOfUnit(rows, i, p.sku) && Describes(p, rows[i], version, merchantId);
    assert FirstOfUnit(rows + [r], i, p.sku);
  }

  lemma NewProductIsDescribed(id: nat, rows: seq<Row>, r: Row, version: string, merchantId: string)
    requires forall h :: 0 <= h < |rows| ==> !HasUnit(rows[h], EffectiveSku(r))
    ensures DescribedBy(NewProduct(id, version, merchantId, r), rows + [r], version, merchantId)
  {
    var p := NewProduct(id, version, merchantId, r);
    UnitOf(r, EffectiveSku(r));
    assert Describes(p, r, version, merchantId);
    hide HasUnit, Describes, EffectiveSku;
    assert FirstOfUnit(rows + [r], |rows|, p.sku);
  }

  lemma NewOfferOffers(id: nat, version: string, productId: nat, merchantId: string, r: Row)
    ensures Offers(NewOffer(id, version, productId, merchantId, r), r, version, merchantId)
  {
    var o := NewOffer(id, version, productId, merchantId, r);
    assert o.status == (if r.status == "" then "active" else r.status);
    assert o.currency == (if r.currency == "" then "INR" else r.currency);
  }

  lemma OfferSays(b: Batch, rows: seq<Row>, version: string, merchantId: string, r: Row)
    requires OffersSay(b, rows, version, merchantId)
    ensures OffersSay(Promoted(b, version, merchantId, r), rows + [r], version, merchantId)
  {
    hide EffectiveSku, NewOffer, Offers;
    var last := WithProduct(b, version, merchantId, r);
    assert EffectiveSku(r) in last.seen;
    hide WithProduct;
    OfferIsLast(last, version, merchantId, r);
    NewOfferOffers(last.nextId, version, last.seen[EffectiveSku(r)], merchantId, r);
    ProductsLeaveOffers(b, version, merchantId, r);
  }

  lemma ProductsLeaveOffers(b: Batch, version: string, merchantId: string, r: Row)
    ensures WithProduct(b, version, merchantId, r).offers == b.offers
    ensures WithProduct(b, version, merchantId, r).stock == b.stock
  {}

  lemma OfferIsLast(b: Batch, version: string, merchantId: string, r: Row)
    requires EffectiveSku(r) in b.seen
    ensures var o := NewOffer(b.nextId, version, b.seen[EffectiveSku(r)], merchantId, r);
            && WithOffer(b, version, merchantId, r).offers == b.offers + [o]
            && WithOffer(b, version, merchantId, r).stock
               == b.stock + [Stock(o.id, if r.inventory.Some? then r.inventory.value else 0, 0)]
  {}

  lemma UnitsGrow(b: Batch, rows: seq<Row>, version: string, merchantId: string, r: Row)
    requires UnitsAre(b, rows)
    ensures UnitsAre(Promoted(b, version, merchantId, r), rows + [r])
  {
    var after, all := Promoted(b, version, merchantId, r), rows + [r];
    assert after.seen.Keys == b.seen.Keys + {EffectiveSku(r)};
    forall sku ensures sku in after.seen <==> exists i :: 0 <= i < |all| && HasUnit(all[i], sku) {
      UnitOf(r, sku);
      hide HasUnit, EffectiveSku, Promoted;
      if sku in b.seen {
        var i :| 0 <= i < |rows| && HasUnit(rows[i], sku);
        assert all[i] == rows[i];
      } else if sku == EffectiveSku(r) {
        assert all[|rows|] == r;
      }
    }
  }

  lemma ProductSays(b: Batch, rows: seq<Row>, version: string, merchantId: string, r: Row)
    requires ProductsSay(b, rows, version, merchantId) && UnitsAre(b, rows)
    ensures ProductsSay(Promoted(b, version, merchantId, r), rows + [r], version, merchantId)
  {
    var after := Promoted(b, version, merchantId, r);
    assert after.products == b.products || (EffectiveSku(r) !in b.seen
           && after.products == b.products + [NewProduct(b.nextId, version, merchantId, r)]);
    hide Promoted, EffectiveSku, NewProduct, DescribedBy;
    if EffectiveSku(r) !in b.seen {
      hide HasUnit;
      NewProductIsDescribed(b.nextId, rows, r, version, merchantId);
    }
    forall k | 0 <= k < |b.products| ensures DescribedBy(b.products[k], rows + [r], version, merchantId) {
      DescriptionStays(b.products[k], rows, r, version, merchantId);
    }
  }

  ghost predicate RowsBecome(b: Batch, rows: seq<Row>, version: string, merchantId: string) {
    OffersSay(b, rows, version, merchantId) && ProductsSay(b, rows, version, merchantId) && UnitsAre(b, rows)
  }

  lemma RowBecomes(b: Batch, rows: seq<Row>, version: string, merchantId: string, r: Row)
    requires RowsBecome(b, rows, version, merchantId)
    ensures RowsBecome(Promoted(b, version, merchantId, r), rows + [r], version, merchantId)
  {
    hide OffersSay, ProductsSay, UnitsAre, Promoted;
    OfferSays(b, rows, version, merchantId, r);
    ProductSays(b, rows, version, merchantId, r);
    UnitsGrow(b, rows, version, merchantId, r);
  }

  lemma NothingBecomes(nextId: nat, version: string, merchantId: string)
    ensures RowsBecome(EmptyBatch(nextId), [], version, merchantId)
  {}

  /** Each row becomes an offer on its own terms; each product is described by the first row of its unit. */
  lemma {:induction false} PublicationSaysItsRows(rows: seq<Row>, version: string, merchantId: string, nextId: nat)
    ensures RowsBecome(PromotedAll(rows, version, merchantId, nextId), rows, version, merchantId)
    decreases |rows|
  {
    hide RowsBecome, Promoted;
    NothingBecomes(nextId, version, merchantId);
    if rows != [] {
      var init, last := rows[..|rows| - 1], rows[|rows| - 1];
      PublicationSaysItsRows(init, version, merchantId, nextId);
      RowBecomes(PromotedAll(init, version, merchantId, nextId), init, version, merchantId, last);
      assert init + [last] == rows;
    }
  }

  ghost predicate LinkedAt(rows: seq<Row>, offers: seq<Offer>, at: seq<nat>, linked: seq<Row>)
    requires Stand(rows, at) && |offers| == |at|
  {
    && |linked| == |rows|
    && (forall j :: 0 <= j < |at| ==> linked[at[j]] == rows[at[j]].(offerId := Some(offers[j].id)))
    && (forall i :: 0 <= i < |rows| && !rows[i].isValid ==> linked[i] == rows[i])
  }

  lemma LastIsMost(at: seq<nat>, j: nat)
    requires (forall j, k :: 0 <= j < k < |at| ==> at[j] < at[k]) && j < |at|
    ensures at[j] <= at[|at| - 1]
  {}

  lemma StandsBefore(rows: seq<Row>, at: seq<nat>)
    requires Stand(rows, at) && rows != []
    ensures var n := |rows| - 1;
            if rows[n].isValid then at != [] && at[|at| - 1] == n && Stand(rows[..n], at[..|at| - 1])
            else Stand(rows[..n], at)
  {
    var n := |rows| - 1;
    if rows[n].isValid {
      assert at[|at| - 1] == n by {
        var j :| 0 <= j < |at| && at[j] == n;
        LastIsMost(at, j);
      }
      forall i | 0 <= i < n && rows[..n][i].isValid ensures i in at[..|at| - 1] {
        var j :| 0 <= j < |at| && at[j] == i;
        assert at[..|at| - 1][j] == i;
      }
    }
  }

  lemma LinkJoins(rows: seq<Row>, offers: seq<Offer>, at: seq<nat>, before: seq<Row>)
    requires rows != [] && Stand(rows, at) && |offers| == |at|
    requires var n := |rows| - 1;
             if rows[n].isValid then
               at != [] && at[|at| - 1] == n && Stand(rows[..n], at[..|at| - 1])
               && LinkedAt(rows[..n], offers[..|at| - 1], at[..|at| - 1], before)
             else Stand(rows[..n], at) && LinkedAt(rows[..n], offers, at, before)
    ensures var last := rows[|rows| - 1];
            LinkedAt(rows, offers, at,
                     before + [if last.isValid then last.(offerId := Some(offers[|offers| - 1].id)) else last])
  {}

  /** Each valid row is linked to its own offer, in order; the others stay as they were. */
  lemma {:induction false} LinksAre(rows: seq<Row>, offers: seq<Offer>, at: seq<nat>)
    requires Stand(rows, at) && |at| == |offers| == |ValidRows(rows)|
    ensures LinkedAt(rows, offers, at, Linked(rows, offers))
    decreases |rows|
  {
    if rows != [] {
      hide Stand, LinkedAt;
      var n := |rows| - 1;
      StandsBefore(rows, at);
      if rows[n].isValid {
        LinksAre(rows[..n], offers[..|offers| - 1], at[..|at| - 1]);
        LinkJoins(rows, offers, at, Linked(rows[..n], offers[..|offers| - 1]));
      } else {
        LinksAre(rows[..n], offers, at);
        LinkJoins(rows, offers, at, Linked(rows[..n], offers));
      }
    }
  }
}
