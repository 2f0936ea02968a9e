/**
 * CSV imports (services/catalog/service.py): staged rows are checked in place, and the rows
 * marked valid become the products, offers and stock of a new published version.
 */
module CatalogImports {
  import opened Outcomes
  import opened Decimal
  import V = CatalogPublication

  datatype Field = SkuField | TitleField | PriceField | CurrencyField | InventoryField | StatusField | CategoryField

  /** One staged row. An empty text counts as none, as it does in the source's tests. */
  datatype Row = Row(number: nat, sku: string, title: string, priceMinor: Option<int>, currency: string,
                     inventory: Option<int>, status: string, imageUrl: string, category: string,
                     deliveryDays: int, returnDays: int,
                     isValid: bool, errors: set<Field>, offerId: Option<nat>)

  datatype ImportStatus = Pending | Valid | Invalid | Published

  datatype Import = Import(merchantId: string, status: ImportStatus, totalRows: nat, validRows: nat,
                           invalidRows: nat, publishedVersion: Option<string>)

  datatype ProductStatus = ProductValid | NeedsReview

  datatype Product = Product(id: nat, version: string, merchantId: string, sku: string, category: string,
                             title: string, status: ProductStatus, imageUrl: string)

  datatype Offer = Offer(id: nat, version: string, productId: nat, merchantId: string, status: string,
                         unitPriceMinor: int, currency: string, deliveryDays: int, returnDays: int)

  datatype Stock = Stock(offerId: nat, available: int, reserved: int)

  datatype Error = ImportNotFound | NotValidated

  const VALID_CATEGORIES: set<string> :=
    {"laptop", "smartphone", "monitor", "audio", "camera", "computer_accessory", "phone_accessory",
     "home_electronics", "appliance", "uncategorized_review"}

  // ----- Validation ---------------------------------------------------------

  function RowErrors(r: Row): set<Field> {
    (if r.sku == "" then {SkuField} else {})
    + (if |r.title| < 3 || |r.title| > 300 then {TitleField} else {})
    + (if r.priceMinor.None? || r.priceMinor.value < 0 || r.priceMinor.value > 10_000_000_00
       then {PriceField} else {})
    + (if r.currency != "INR" && r.currency != "USD" then {CurrencyField} else {})
    + (if r.inventory.None? || r.inventory.value < 0 then {InventoryField} else {})
    + (if r.status != "active" && r.status != "inactive" then {StatusField} else {})
    + (if r.category != "" && r.category !in VALID_CATEGORIES then {CategoryField} else {})
  }

  function Checked(r: Row): Row {
    r.(isValid := RowErrors(r) == {}, errors := RowErrors(r))
  }

  function CheckedAll(rows: seq<Row>): seq<Row> {
    seq(|rows|, i requires 0 <= i < |rows| => Checked(rows[i]))
  }

  function ValidRows(rows: seq<Row>): seq<Row> {
    if rows == [] then []
    else
      ValidRows(rows[..|rows| - 1]) + (if rows[|rows| - 1].isValid then [rows[|rows| - 1]] else [])
  }

  // ----- Publication of the rows --------------------------------------------

  /** `text or default` */
  function Or(text: string, default: string): string {
    if text == "" then default else text
  }

  function OrZero(n: Option<int>): int {
    if n.Some? then n.value else 0
  }

  function OrDays(n: int, default: int): int {
    if n == 0 then default else n
  }

  function EffectiveSku(r: Row): string {
    Or(r.sku, "sku_" + NatText(r.number))
  }

  /** The rows a publication has added to the tables so far. */
  datatype Batch = Batch(products: seq<Product>, offers: seq<Offer>, stock: seq<Stock>,
                         seen: map<string, nat>, nextId: nat,
                         productCount: nat, validCount: nat, needsReviewCount: nat)

  function NewProduct(id: nat, version: string, merchantId: string, r: Row): Product {
    Product(id, version, merchantId, EffectiveSku(r), Or(r.category, "uncategorized_review"),
            Or(r.title, EffectiveSku(r)), if |r.title| < 8 then NeedsReview else ProductValid, r.imageUrl)
  }

  function NewOffer(id: nat, version: string, productId: nat, merchantId: string, r: Row): Offer {
    Offer(id, version, productId, merchantId, Or(r.status, "active"), OrZero(r.priceMinor),
          Or(r.currency, "INR"), OrDays(r.deliveryDays, 3), OrDays(r.returnDays, 14))
  }

  /** A product for a stock-keeping unit that has none yet. */
  function WithProduct(b: Batch, version: string, merchantId: string, r: Row): Batch {
    if EffectiveSku(r) in b.seen then b
    else
      var p := NewProduct(b.nextId, version, merchantId, r);
      b.(products := b.products + [p], seen := b.seen[EffectiveSku(r) := p.id], nextId := b.nextId + 1,
         productCount := b.productCount + 1,
         validCount := b.validCount + (if p.status == ProductValid then 1 else 0),
         needsReviewCount := b.needsReviewCount + (if p.status == NeedsReview then 1 else 0))
  }

  function WithOffer(b: Batch, version: string, merchantId: string, r: Row): Batch
    requires EffectiveSku(r) in b.seen
  {
    b.(offers := b.offers + [NewOffer(b.nextId, version, b.seen[EffectiveSku(r)], merchantId, r)],
       stock := b.stock + [Stock(b.nextId, OrZero(r.inventory), 0)],
       nextId := b.nextId + 1)
  }

  function Promoted(b: Batch, version: string, merchantId: string, r: Row): Batch {
    WithOffer(WithProduct(b, version, merchantId, r), version, merchantId, r)
  }

  /** The staged rows, each valid one with the offer made for it. */
  function Linked(rows: seq<Row>, offers: seq<Offer>): seq<Row>
    requires |offers| == |ValidRows(rows)|
  {
    if rows == [] then []
    else
      var init, last := rows[..|rows| - 1], rows[|rows| - 1];
      if last.isValid then
        Linked(init, offers[..|offers| - 1]) + [last.(offerId := Some(offers[|offers| - 1].id))]
      else Linked(init, offers) + [last]
  }

  function EmptyBatch(nextId: nat): Batch {
    Batch([], [], [], map[], nextId, 0, 0, 0)
  }

  function PromotedAll(rows: seq<Row>, version: string, merchantId: string, nextId: nat): Batch {
    if rows == [] then EmptyBatch(nextId)
    else
      Promoted(PromotedAll(rows[..|rows| - 1], version, merchantId, nextId), version, merchantId,
               rows[|rows| - 1])
  }

  // ----- What a publication conserves ---------------------------------------

  function Skus(rows: seq<Row>): set<string> {
    set r | r in rows :: EffectiveSku(r)
  }

  function TotalInventory(rows: seq<Row>): int {
    if rows == [] then 0 else TotalInventory(rows[..|rows| - 1]) + OrZero(rows[|rows| - 1].inventory)
  }

  function TotalStock(stock: seq<Stock>): int {
    if stock == [] then 0 else TotalStock(stock[..|stock| - 1]) + stock[|stock| - 1].available
  }

  function CountStatus(products: seq<Product>, s: ProductStatus): nat {
    if products == [] then 0
    else CountStatus(products[..|products| - 1], s) + (if products[|products| - 1].status == s then 1 else 0)
  }

  /** Exactly one product for each distinct stock-keeping unit of the rows. */
  ghost predicate OneProductPerSku(b: Batch, rows: seq<Row>) {
    && b.seen.Keys == Skus(rows)
    && (forall i, k :: 0 <= i < k < |b.products| ==> b.products[i].sku != b.products[k].sku)
    && (forall i :: 0 <= i < |b.products| ==>
          b.products[i].sku in b.seen && b.seen[b.products[i].sku] == b.products[i].id)
    && (forall sku :: sku in b.seen ==>
          exists i :: 0 <= i < |b.products| && b.products[i].sku == sku && b.products[i].id == b.seen[sku])
  }

  /** One offer and one stock row for each row, of the product that carries its unit. */
  ghost predicate OneOfferPerRow(b: Batch, rows: seq<Row>) {
    && |b.offers| == |b.stock| == |rows|
    && forall i :: 0 <= i < |rows| ==>
         && EffectiveSku(rows[i]) in b.seen
         && b.offers[i].productId == b.seen[EffectiveSku(rows[i])]
         && b.offers[i].unitPriceMinor == OrZero(rows[i].priceMinor)
         && b.stock[i] == Stock(b.offers[i].id, OrZero(rows[i].inventory), 0)
  }

  /** No identifier is used twice. */
  ghost predicate IdsAreNew(b: Batch, nextId: nat) {
    && nextId <= b.nextId
    && (forall i :: 0 <= i < |b.products| ==> nextId <= b.products[i].id < b.nextId)
    && (forall i :: 0 <= i < |b.offers| ==> nextId <= b.offers[i].id < b.nextId)
    && (forall i, k :: 0 <= i < k < |b.products| ==> b.products[i].id < b.products[k].id)
    && (forall i, k :: 0 <= i < k < |b.offers| ==> b.offers[i].id < b.offers[k].id)
  }

  ghost predicate CountsAgree(b: Batch) {
    && b.productCount == |b.products|
    && b.validCount == CountStatus(b.products, ProductValid)
    && b.needsReviewCount == CountStatus(b.products, NeedsReview)
    && b.productCount == b.validCount + b.needsReviewCount
  }

  lemma SkusGrow(rows: seq<Row>, r: Row)
    ensures Skus(rows + [r]) == Skus(rows) + {EffectiveSku(r)}
  {
    hide EffectiveSku;
  }

  /** A product with a new unit and a new identifier joins the others. */
  lemma ProductJoins(b: Batch, rows: seq<Row>, p: Product, after: Batch, r: Row)
    requires OneProductPerSku(b, rows) && p.sku == EffectiveSku(r) && p.sku !in b.seen
    requires after.products == b.products + [p] && after.seen == b.seen[p.sku := p.id]
    ensures OneProductPerSku(after, rows + [r])
  {
    hide EffectiveSku, Skus;
    SkusGrow(rows, r);
    forall sku | sku in after.seen
      ensures exists i :: 0 <= i < |after.products| && after.products[i].sku == sku
                          && after.products[i].id == after.seen[sku]
    {
      if sku == p.sku {
        assert after.products[|b.products|] == p;
      } else {
        var i :| 0 <= i < |b.products| && b.products[i].sku == sku && b.products[i].id == b.seen[sku];
        assert after.products[i] == b.products[i];
      }
    }
  }

  lemma ProductsStep(b: Batch, rows: seq<Row>, version: string, merchantId: string, r: Row)
    requires OneProductPerSku(b, rows)
    ensures OneProductPerSku(Promoted(b, version, merchantId, r), rows + [r])
  {
    hide EffectiveSku, NewOffer, Skus;
    SkusGrow(rows, r);
    if EffectiveSku(r) !in b.seen {
      hide OneProductPerSku;
      ProductJoins(b, rows, NewProduct(b.nextId, version, merchantId, r),
                   Promoted(b, version, merchantId, r), r);
    }
  }

  lemma OffersStep(b: Batch, rows: seq<Row>, version: string, merchantId: string, r: Row)
    requires OneOfferPerRow(b, rows)
    ensures OneOfferPerRow(Promoted(b, version, merchantId, r), rows + [r])
  {}

  lemma EmptyBatchFits(nextId: nat)
    ensures OneProductPerSku(EmptyBatch(nextId), []) && OneOfferPerRow(EmptyBatch(nextId), [])
    ensures CountsAgree(EmptyBatch(nextId)) && IdsAreNew(EmptyBatch(nextId), nextId)
  {}

  /** One product for each unit, and one offer with its stock for each row. */
  lemma {:induction false} PublicationConserves(rows: seq<Row>, version: string, merchantId: string, nextId: nat)
    ensures OneProductPerSku(PromotedAll(rows, version, merchantId, nextId), rows)
    ensures OneOfferPerRow(PromotedAll(rows, version, merchantId, nextId), rows)
    decreases |rows|
  {
    hide OneProductPerSku, OneOfferPerRow, Promoted;
    if rows == [] {
      EmptyBatchFits(nextId);
    } else {
      var init, last := rows[..|rows| - 1], rows[|rows| - 1];
      var b := PromotedAll(init, version, merchantId, nextId);
      PublicationConserves(init, version, merchantId, nextId);
      ProductsStep(b, init, version, merchantId, last);
      OffersStep(b, init, version, merchantId, last);
      assert init + [last] == rows;
    }
  }

  lemma CountsStep(b: Batch, version: string, merchantId: string, r: Row)
    requires CountsAgree(b)
    ensures CountsAgree(Promoted(b, version, merchantId, r))
  {}

  lemma IdsStep(b: Batch, version: string, merchantId: string, r: Row, nextId: nat)
    requires IdsAreNew(b, nextId)
    ensures IdsAreNew(Promoted(b, version, merchantId, r), nextId)
  {
    hide EffectiveSku;
  }

  /** The counts on the version are those of its products, and no identifier is used twice. */
  lemma {:induction false} PublicationCounts(rows: seq<Row>, version: string, merchantId: string, nextId: nat)
    ensures CountsAgree(PromotedAll(rows, version, merchantId, nextId))
    ensures IdsAreNew(PromotedAll(rows, version, merchantId, nextId), nextId)
    decreases |rows|
  {
    hide CountsAgree, IdsAreNew, Promoted;
    EmptyBatchFits(nextId);
    if rows != [] {
      var init, last := rows[..|rows| - 1], rows[|rows| - 1];
      PublicationCounts(init, version, merchantId, nextId);
      CountsStep(PromotedAll(init, version, merchantId, nextId), version, merchantId, last);
      IdsStep(PromotedAll(init, version, merchantId, nextId), version, merchantId, last, nextId);
    }
  }

  /** Stock on offer afterwards is exactly the stock the rows named. */
  lemma {:induction false} PublicationKeepsTotals(rows: seq<Row>, version: string, merchantId: string, nextId: nat)
    ensures TotalStock(PromotedAll(rows, version, merchantId, nextId).stock) == TotalInventory(rows)
    decreases |rows|
  {
    if rows != [] {
      var init, last := rows[..|rows| - 1], rows[|rows| - 1];
      PublicationKeepsTotals(init, version, merchantId, nextId);
      var b := PromotedAll(rows, version, merchantId, nextId);
      assert b.stock[..|b.stock| - 1] == PromotedAll(init, version, merchantId, nextId).stock;
      hide EffectiveSku;
    }
  }

  // ----- The service --------------------------------------------------------

  class CatalogService {
    var imports: map<string, Import>
    var rows: map<string, seq<Row>>
    var versions: V.CatalogVersionTable
    var products: seq<Product>
    var offers: seq<Offer>
    var stock: seq<Stock>
    var nextId: nat

    constructor (versions: V.CatalogVersionTable)
      ensures imports == map[] && rows == map[] && this.versions == versions
      ensures products == [] && offers == [] && stock == [] && nextId == 0
    {
      imports, rows, products, offers, stock, nextId := map[], map[], [], [], [], 0;
      this.versions := versions;
    }

    predicate OwnImport(merchantId: string, importId: string)
      reads this
    {
      importId in imports && imports[importId].merchantId == merchantId
    }

    function RowsOf(importId: string): seq<Row>
      reads this
    {
      if importId in rows then rows[importId] else []
    }

    /** Rows are checked one by one; a published import can be marked valid again. */
    method ValidateImport(merchantId: string, importId: string) returns (r: Result<(nat, nat), Error>)
      modifies this`imports, this`rows
      ensures !old(OwnImport(merchantId, importId)) ==>
                r == Err(ImportNotFound) && imports == old(imports) && rows == old(rows)
      ensures old(OwnImport(merchantId, importId)) ==>
                && var before := old(RowsOf(importId));
                && var valid := |ValidRows(CheckedAll(before))|;
                && r == Ok((valid, |before| - valid))
                && rows == old(rows)[importId := CheckedAll(before)]
                && imports == old(imports)[importId := old(imports)[importId].(
                     totalRows := |before|, validRows := valid, invalidRows := |before| - valid,
                     status := if valid == |before| then Valid else Invalid)]
    {
      if !OwnImport(merchantId, importId) { return Err(ImportNotFound); }
      var staged := RowsOf(importId);
      hide CheckedAll, ValidRows;
      var checked, valid, invalid := CheckRows(staged);
      rows := rows[importId := checked];
      imports := imports[importId := imports[importId].(
        totalRows := |staged|, validRows := valid, invalidRows := invalid,
        status := if invalid == 0 then Valid else Invalid)];
      return Ok((valid, invalid));
    }

    /** The new version is published with everything its valid rows name; `created` stays zero. */
    method PublishImport(merchantId: string, importId: string, version: string, now: int)
      returns (r: Result<(string, nat, nat), Error>)
      requires version !in versions.versions
      modifies this, versions
      ensures versions == old(versions)
      ensures r.Err? ==>
                && r.error == (if old(OwnImport(merchantId, importId)) then NotValidated else ImportNotFound)
                && imports == old(imports) && rows == old(rows) && products == old(products)
                && offers == old(offers) && stock == old(stock) && nextId == old(nextId)
                && versions.versions == old(versions.versions)
      ensures r.Ok? <==> old(OwnImport(merchantId, importId)) && old(imports)[importId].status in {Valid, Invalid}
      ensures r.Ok? ==>
                && var b := PromotedAll(ValidRows(old(RowsOf(importId))), version, merchantId, old(nextId));
                && r.value == (version, 0, |b.offers|)
                && products == old(products) + b.products && offers == old(offers) + b.offers
                && stock == old(stock) + b.stock && nextId == b.nextId
                && |b.offers| == |ValidRows(old(RowsOf(importId)))|
                && rows == old(rows)[importId := Linked(old(RowsOf(importId)), b.offers)]
                && imports == old(imports)[importId := old(imports)[importId].(
                     status := Published, publishedVersion := Some(version))]
                && versions.versions == V.AfterPublish(
                     old(versions.versions)[version := V.Version(merchantId, V.Draft, 0, b.productCount,
                                                                 b.validCount, b.needsReviewCount)],
                     merchantId, version, now)
    {
      hide ValidRows, PromotedAll, Linked, V.AfterPublish;
      if !OwnImport(merchantId, importId) { return Err(ImportNotFound); }
      if imports[importId].status != Valid && imports[importId].status != Invalid { return Err(NotValidated); }
      var b, linked := Promote(RowsOf(importId), version, merchantId, nextId);
      rows := rows[importId := linked];
      products := products + b.products;
      offers := offers + b.offers;
      stock := stock + b.stock;
      nextId := b.nextId;
      versions.versions := versions.versions[version :=
        V.Version(merchantId, V.Draft, 0, b.productCount, b.validCount, b.needsReviewCount)];
      imports := imports[importId := imports[importId].(status := Published, publishedVersion := Some(version))];
      var published := versions.AtomicPublish(merchantId, version, now);
      return Ok((version, 0, |b.offers|));
    }
  }

  /** The pass over the staged rows that marks each one. */
  method CheckRows(staged: seq<Row>) returns (checked: seq<Row>, valid: nat, invalid: nat)
    ensures checked == CheckedAll(staged)
    ensures valid == |ValidRows(checked)| && valid + invalid == |staged|
  {
    hide RowErrors;
    checked, valid, invalid := [], 0, 0;
    var i := 0;
    while i < |staged|
      invariant 0 <= i <= |staged| && |checked| == i
      invariant checked == CheckedAll(staged[..i])
      invariant valid == |ValidRows(checked)| && valid + invalid == i
    {
      var row := staged[i];
      var errors := RowErrors(row);
      if errors != {} {
        row := row.(isValid := false, errors := errors);
        invalid := invalid + 1;
      } else {
        row := row.(isValid := true, errors := {});
        valid := valid + 1;
      }
      assert (checked + [row])[..i] == checked;
      checked := checked + [row];
      i := i + 1;
    }
    assert staged[..|staged|] == staged;
  }

  /** One valid row: a product where its unit is new, and an offer with its stock. */
  method PromoteRow(b0: Batch, version: string, merchantId: string, row: Row) returns (b: Batch)
    ensures b == Promoted(b0, version, merchantId, row)
  {
    hide EffectiveSku, NewOffer;
    b := b0;
    var sku := EffectiveSku(row);
    if sku !in b.seen {
      var product := NewProduct(b.nextId, version, merchantId, row);
      var isValid := product.status == ProductValid;
      b := b.(products := b.products + [product], seen := b.seen[sku := product.id], nextId := b.nextId + 1,
              productCount := b.productCount + 1,
              validCount := b.validCount + (if isValid then 1 else 0),
              needsReviewCount := b.needsReviewCount + (if isValid then 0 else 1));
    }
    var offer := NewOffer(b.nextId, version, b.seen[sku], merchantId, row);
    b := b.(offers := b.offers + [offer], stock := b.stock + [Stock(b.nextId, OrZero(row.inventory), 0)],
            nextId := b.nextId + 1);
  }

  /** One pass over the staged rows that promotes the valid ones. */
  method Promote(rows: seq<Row>, version: string, merchantId: string, nextId: nat)
    returns (b: Batch, linked: seq<Row>)
    ensures b == PromotedAll(ValidRows(rows), version, merchantId, nextId)
    ensures |b.offers| == |ValidRows(rows)| && linked == Linked(rows, b.offers)
  {
    hide Promoted, ValidRows, Linked, PromotedAll;
    b, linked := EmptyBatch(nextId), [];
    NoRowsTaken(rows, version, merchantId, nextId);
    var i := 0;
    while i < |rows|
      invariant 0 <= i <= |rows|
      invariant b == PromotedAll(ValidRows(rows[..i]), version, merchantId, nextId)
      invariant |b.offers| == |ValidRows(rows[..i])| && linked == Linked(rows[..i], b.offers)
    {
      ValidRowsStep(rows, i);
      if rows[i].isValid {
        PromotedStep(ValidRows(rows[..i]), rows[i], version, merchantId, nextId);
        ghost var before := b;
        b := PromoteRow(b, version, merchantId, rows[i]);
        LinkedStep(rows, i, before.offers, b.offers);
        linked := linked + [rows[i].(offerId := Some(b.offers[|b.offers| - 1].id))];
      } else {
        LinkedStep(rows, i, b.offers, b.offers);
        linked := linked + [rows[i]];
      }
      i := i + 1;
    }
    assert rows[..|rows|] == rows;
  }

  lemma NoRowsTaken(rows: seq<Row>, version: string, merchantId: string, nextId: nat)
    ensures ValidRows(rows[..0]) == [] && PromotedAll([], version, merchantId, nextId) == EmptyBatch(nextId)
    ensures Linked(rows[..0], []) == []
  {}

  lemma ValidRowsStep(rows: seq<Row>, i: nat)
    requires i < |rows|
    ensures ValidRows(rows[..i + 1])
         == if rows[i].isValid then ValidRows(rows[..i]) + [rows[i]] else ValidRows(rows[..i])
  {
    assert rows[..i + 1][..i] == rows[..i];
  }

  lemma PromotedStep(taken: seq<Row>, row: Row, version: string, merchantId: string, nextId: nat)
    ensures var b := PromotedAll(taken, version, merchantId, nextId);
            var after := PromotedAll(taken + [row], version, merchantId, nextId);
            && after == Promoted(b, version, merchantId, row)
            && |after.offers| == |b.offers| + 1 && after.offers[..|b.offers|] == b.offers
  {}

  lemma LinkedStep(rows: seq<Row>, i: nat, before: seq<Offer>, after: seq<Offer>)
    requires i < |rows| && |before| == |ValidRows(rows[..i])| && |after| == |ValidRows(rows[..i + 1])|
    requires rows[i].isValid ==> |after| == |before| + 1 && after[..|before|] == before
    requires !rows[i].isValid ==> after == before
    ensures Linked(rows[..i + 1], after)
         == Linked(rows[..i], before)
            + [if rows[i].isValid then rows[i].(offerId := Some(after[|after| - 1].id)) else rows[i]]
  {
    assert rows[..i + 1][..i] == rows[..i];
  }

  // ----- Consequences -------------------------------------------------------

  lemma CheckedStep(rows: seq<Row>)
    requires rows != []
    ensures ValidRows(CheckedAll(rows))
         == ValidRows(CheckedAll(rows[..|rows| - 1]))
            + (if RowErrors(rows[|rows| - 1]) == {} then [Checked(rows[|rows| - 1])] else [])
  {
    hide RowErrors;
    assert CheckedAll(rows)[..|rows| - 1] == CheckedAll(rows[..|rows| - 1]);
  }

  /** After a check the rows marked valid break no rule, and name their unit. */
  lemma {:induction false} ValidRowsAreClean(rows: seq<Row>)
    ensures forall r :: r in ValidRows(CheckedAll(rows)) ==> r.isValid && RowErrors(r) == {} && r.sku != ""
    decreases |rows|
  {
    hide RowErrors, CheckedAll, ValidRows;
    if rows == [] {
      NothingChecked();
    } else {
      ValidRowsAreClean(rows[..|rows| - 1]);
      CheckedStep(rows);
      CheckingKeepsErrors(rows[|rows| - 1]);
    }
  }

  /** The import is valid, rather than invalid, exactly when no row breaks a rule. */
  lemma {:induction false} AllValidIffClean(rows: seq<Row>)
    ensures |ValidRows(CheckedAll(rows))| <= |rows|
    ensures |ValidRows(CheckedAll(rows))| == |rows| <==> forall i :: 0 <= i < |rows| ==> RowErrors(rows[i]) == {}
    decreases |rows|
  {
    hide RowErrors, CheckedAll, ValidRows;
    if rows == [] {
      NothingChecked();
    } else {
      AllValidIffClean(rows[..|rows| - 1]);
      CheckedStep(rows);
    }
  }

  lemma NothingChecked()
    ensures ValidRows(CheckedAll([])) == []
  {}

  lemma CheckingKeepsErrors(r: Row)
    ensures RowErrors(Checked(r)) == RowErrors(r)
    ensures RowErrors(r) == {} ==> r.sku != ""
  {}

  /** A new version published from an import is its merchant's only published version. */
  lemma NewVersionGoesLive(versions: V.Versions, version: string, v: V.Version, merchantId: string, now: int)
    requires V.OnePublished(versions) && version !in versions
    requires v.merchantId == merchantId && v.status == V.Draft
    ensures var after := V.AfterPublish(versions[version := v], merchantId, version, now);
            && V.OnePublished(after)
            && V.IsPublished(after, merchantId, version)
            && after[version].productCount == v.productCount
  {
    var added := versions[version := v];
    assert forall m, id :: V.IsPublished(added, m, id) ==> V.IsPublished(versions, m, id);
    V.PublishKeepsOne(added, merchantId, version, now);
  }
}
