/** The frozen price of services/checkout/hash.py. */
module PriceHash {
  import opened JsonText

  /** The keys of a stored snapshot. The last one is not a price factor. */
  datatype Field =
    | Currency | DiscountMinor | ExpiresAt | OfferId | OfferVersion | Quantity
    | ShippingMinor | TaxMinor | UnitPriceMinor | ProductId

  function FieldText(f: Field): string {
    match f
    case Currency => "currency"
    case DiscountMinor => "discount_minor"
    case ExpiresAt => "expires_at"
    case OfferId => "offer_id"
    case OfferVersion => "offer_version"
    case Quantity => "quantity"
    case ShippingMinor => "shipping_minor"
    case TaxMinor => "tax_minor"
    case UnitPriceMinor => "unit_price_minor"
    case ProductId => "product_id"
  }

  /** PRICE_FACTORS in the order sort_keys writes them. */
  const FACTORS: seq<Field> :=
    [Currency, DiscountMinor, ExpiresAt, OfferId, OfferVersion, Quantity, ShippingMinor,
     TaxMinor, UnitPriceMinor]

  type Dict = map<Field, Scalar>

  /** All price-determining factors; `expiresAt` is already ISO text. */
  datatype PriceSnapshot = PriceSnapshot(
    offerId: string, offerVersion: int, unitPriceMinor: int, quantity: int,
    shippingMinor: int, taxMinor: int, discountMinor: int,
    currency: string, expiresAt: string)

  function ToCanonicalDict(s: PriceSnapshot): Dict {
    map[OfferId := Str(s.offerId), OfferVersion := Num(s.offerVersion),
        UnitPriceMinor := Num(s.unitPriceMinor), Quantity := Num(s.quantity),
        ShippingMinor := Num(s.shippingMinor), TaxMinor := Num(s.taxMinor),
        DiscountMinor := Num(s.discountMinor), Currency := Str(s.currency),
        ExpiresAt := Str(s.expiresAt)]
  }

  /** The price factors a dict holds, in key order. */
  function Present(fields: seq<Field>, d: Dict): seq<Field> {
    if fields == [] then []
    else if fields[0] in d then [fields[0]] + Present(fields[1..], d)
    else Present(fields[1..], d)
  }

  function Entry(f: Field, v: Scalar): string {
    Quote(FieldText(f)) + ":" + ScalarText(v)
  }

  /** The entries joined by commas and closed. */
  function Entries(fields: seq<Field>, d: Dict): string
    requires forall f :: f in fields ==> f in d
  {
    if fields == [] then "}"
    else if |fields| == 1 then Entry(fields[0], d[fields[0]]) + "}"
    else Entry(fields[0], d[fields[0]]) + ("," + Entries(fields[1..], d))
  }

  lemma {:induction false} PresentIsIn(fields: seq<Field>, d: Dict)
    ensures forall f :: f in Present(fields, d) ==> f in d
  {
    if fields != [] {
      PresentIsIn(fields[1..], d);
    }
  }

  /** The canonical JSON text that is hashed: price factors only, keys sorted, no spaces. */
  function Preimage(d: Dict): string {
    PresentIsIn(FACTORS, d);
    "{" + Entries(Present(FACTORS, d), d)
  }

  /** compute_price_hash, on a snapshot or on a stored dict; sha256 is a parameter. */
  function ComputePriceHash(d: Dict, sha256: string -> string): string {
    sha256(Preimage(d))
  }

  // ----- What is not a price factor does not count --------------------------

  lemma {:induction false} SameFactorsSameEntries(fields: seq<Field>, d: Dict, e: Dict)
    requires forall f :: f in fields ==> f in d && f in e && d[f] == e[f]
    ensures Entries(fields, d) == Entries(fields, e)
  {
    if fields != [] {
      SameFactorsSameEntries(fields[1..], d, e);
    }
  }

  lemma {:induction false} SameFactorsSamePresent(fields: seq<Field>, d: Dict, e: Dict)
    requires forall f :: f in fields ==> (f in d <==> f in e)
    ensures Present(fields, d) == Present(fields, e)
    ensures forall f :: f in Present(fields, d) ==> f in fields
  {
    if fields != [] {
      SameFactorsSamePresent(fields[1..], d, e);
    }
  }

  /** Rehashing a stored dict ignores the product id that was added to it. */
  lemma ProductIdIsNotHashed(d: Dict, product: Scalar, sha256: string -> string)
    ensures ComputePriceHash(d[ProductId := product], sha256) == ComputePriceHash(d, sha256)
  {
    var e := d[ProductId := product];
    SameFactorsSamePresent(FACTORS, d, e);
    PresentIsIn(FACTORS, d);
    assert ProductId !in FACTORS;
    SameFactorsSameEntries(Present(FACTORS, d), d, e);
  }

  // ----- The preimage determines every factor -------------------------------

  lemma EntryReads(f: Field, v: Scalar, w: Scalar, x: string, y: string)
    requires EndsNumber(x) && EndsNumber(y) && Entry(f, v) + x == Entry(f, w) + y
    ensures v == w && x == y
  {
    var key := Quote(FieldText(f)) + ":";
    hide Quote, FieldText, ScalarText;
    assert Entry(f, v) + x == key + (ScalarText(v) + x);
    assert Entry(f, w) + y == key + (ScalarText(w) + y);
    assert (key + (ScalarText(v) + x))[|key|..] == ScalarText(v) + x;
    assert (key + (ScalarText(w) + y))[|key|..] == ScalarText(w) + y;
    ScalarReads(v, w, x, y);
  }

  lemma {:induction false} EntriesRead(fields: seq<Field>, d: Dict, e: Dict)
    requires forall f :: f in fields ==> f in d && f in e
    requires Entries(fields, d) == Entries(fields, e)
    ensures forall f :: f in fields ==> d[f] == e[f]
  {
    if fields != [] {
      hide Entry;
      var f, rest := fields[0], fields[1..];
      assert fields == [f] + rest;
      if rest == [] {
        EntryReads(f, d[f], e[f], "}", "}");
      } else {
        var x, y := "," + Entries(rest, d), "," + Entries(rest, e);
        EntryReads(f, d[f], e[f], x, y);
        assert x[1..] == Entries(rest, d) && y[1..] == Entries(rest, e);
        EntriesRead(rest, d, e);
      }
    }
  }

  lemma {:induction false} AllPresent(fields: seq<Field>, d: Dict)
    requires forall f :: f in fields ==> f in d
    ensures Present(fields, d) == fields
  {
    if fields != [] {
      AllPresent(fields[1..], d);
    }
  }

  lemma SnapshotHasAllFactors(s: PriceSnapshot)
    ensures forall f :: f in FACTORS ==> f in ToCanonicalDict(s)
  {}

  lemma DictDeterminesSnapshot(s: PriceSnapshot, t: PriceSnapshot)
    requires forall f :: f in FACTORS ==> f in ToCanonicalDict(s) && f in ToCanonicalDict(t)
                                          && ToCanonicalDict(s)[f] == ToCanonicalDict(t)[f]
    ensures s == t
  {
    var d, e := ToCanonicalDict(s), ToCanonicalDict(t);
    assert OfferId == FACTORS[3] && OfferVersion == FACTORS[4] && UnitPriceMinor == FACTORS[8];
    assert Quantity == FACTORS[5] && ShippingMinor == FACTORS[6] && TaxMinor == FACTORS[7];
    assert DiscountMinor == FACTORS[1] && Currency == FACTORS[0] && ExpiresAt == FACTORS[2];
    assert d[OfferId] == e[OfferId] && d[OfferVersion] == e[OfferVersion];
    assert d[UnitPriceMinor] == e[UnitPriceMinor] && d[Quantity] == e[Quantity];
    assert d[ShippingMinor] == e[ShippingMinor] && d[TaxMinor] == e[TaxMinor];
    assert d[DiscountMinor] == e[DiscountMinor] && d[Currency] == e[Currency];
    assert d[ExpiresAt] == e[ExpiresAt];
  }

  /** Two snapshots with one preimage agree on all nine factors. */
  lemma PreimageIsInjective(s: PriceSnapshot, t: PriceSnapshot)
    ensures Preimage(ToCanonicalDict(s)) == Preimage(ToCanonicalDict(t)) <==> s == t
  {
    var d, e := ToCanonicalDict(s), ToCanonicalDict(t);
    SnapshotHasAllFactors(s);
    SnapshotHasAllFactors(t);
    AllPresent(FACTORS, d);
    AllPresent(FACTORS, e);
    if Preimage(d) == Preimage(e) {
      assert ("{" + Entries(FACTORS, d))[1..] == Entries(FACTORS, d);
      assert ("{" + Entries(FACTORS, e))[1..] == Entries(FACTORS, e);
      EntriesRead(FACTORS, d, e);
      DictDeterminesSnapshot(s, t);
    }
  }

  /** Keys and values as a JSON object prints them, without its opening brace. */
  function Members(entries: seq<(string, Scalar)>): string {
    if entries == [] then "}"
    else
      "\"" + entries[0].0 + "\":" + ScalarText(entries[0].1)
        + (if |entries| == 1 then "}" else "," + Members(entries[1..]))
  }

  lemma FieldTextIsPlain(f: Field)
    ensures IsPlain(FieldText(f))
  {}

  lemma KeyIsPlain(f: Field)
    ensures Quote(FieldText(f)) == "\"" + FieldText(f) + "\""
  {
    hide EscapeAll, IsPlain, FieldText;
    FieldTextIsPlain(f);
    PlainTextIsKept(FieldText(f));
  }

  lemma {:induction false} EntriesAreMembers(fields: seq<Field>, d: Dict)
    requires forall f :: f in fields ==> f in d
    ensures Entries(fields, d)
         == Members(seq(|fields|, i requires 0 <= i < |fields| => (FieldText(fields[i]), d[fields[i]])))
  {
    hide FieldText, Quote, ScalarText;
    if fields != [] {
      var all := seq(|fields|, i requires 0 <= i < |fields| => (FieldText(fields[i]), d[fields[i]]));
      KeyIsPlain(fields[0]);
      EntriesAreMembers(fields[1..], d);
      assert all[1..] == seq(|fields[1..]|, i requires 0 <= i < |fields[1..]| =>
                               (FieldText(fields[1..][i]), d[fields[1..][i]]));
    }
  }

  /** What is hashed, from end to end: every factor under its own key. */
  lemma PreimageText(s: PriceSnapshot)
    ensures Preimage(ToCanonicalDict(s))
         == "{" + Members([("currency", Str(s.currency)), ("discount_minor", Num(s.discountMinor)),
                           ("expires_at", Str(s.expiresAt)), ("offer_id", Str(s.offerId)),
                           ("offer_version", Num(s.offerVersion)), ("quantity", Num(s.quantity)),
                           ("shipping_minor", Num(s.shippingMinor)), ("tax_minor", Num(s.taxMinor)),
                           ("unit_price_minor", Num(s.unitPriceMinor))])
  {
    hide Members, Entries;
    var d := ToCanonicalDict(s);
    SnapshotHasAllFactors(s);
    AllPresent(FACTORS, d);
    EntriesAreMembers(FACTORS, d);
    assert seq(|FACTORS|, i requires 0 <= i < |FACTORS| => (FieldText(FACTORS[i]), d[FACTORS[i]]))
        == [("currency", Str(s.currency)), ("discount_minor", Num(s.discountMinor)),
            ("expires_at", Str(s.expiresAt)), ("offer_id", Str(s.offerId)),
            ("offer_version", Num(s.offerVersion)), ("quantity", Num(s.quantity)),
            ("shipping_minor", Num(s.shippingMinor)), ("tax_minor", Num(s.taxMinor)),
            ("unit_price_minor", Num(s.unitPriceMinor))];
  }

  // ----- Key order ----------------------------------------------------------

  /** Python's order on strings. */
  predicate Less(s: string, t: string) {
    if s == [] then t != []
    else if t == [] then false
    else s[0] < t[0] || (s[0] == t[0] && Less(s[1..], t[1..]))
  }

  lemma {:induction false} LessAt(s: string, t: string, k: nat)
    requires k < |s| && k < |t| && s[..k] == t[..k] && s[k] < t[k]
    ensures Less(s, t)
  {
    if k > 0 {
      assert s[0] == s[..k][0] == t[..k][0] == t[0];
      assert s[1..][..k - 1] == s[..k][1..] && t[1..][..k - 1] == t[..k][1..];
      LessAt(s[1..], t[1..], k - 1);
    }
  }

  /** The factors stand in the order json.dumps sorts their keys in. */
  lemma FactorsAreSorted()
    ensures forall i :: 0 <= i < |FACTORS| - 1 ==> Less(FieldText(FACTORS[i]), FieldText(FACTORS[i + 1]))
  {
    forall i | 0 <= i < |FACTORS| - 1
      ensures Less(FieldText(FACTORS[i]), FieldText(FACTORS[i + 1]))
    {
      var k := if i == 3 then 6 else 0;
      assert FieldText(OfferId)[..6] == "offer_" == FieldText(OfferVersion)[..6];
      LessAt(FieldText(FACTORS[i]), FieldText(FACTORS[i + 1]), k);
    }
  }
}
