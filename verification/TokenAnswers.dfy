/**
 * What a credential may carry and what it must say, with the scopes, the texts and the limits
 * written out.
 */
module TokenAnswers {
  import opened Outcomes
  import opened Base64Url
  import opened Tokens

  // ----- Scopes ---------------------------------------------------------------

  /** Only a buyer can spend, only a platform administrator reads settlements. */
  predicate WithinRole(p: Principal) {
    && (CheckoutWrite in p.scopes || PaymentWrite in p.scopes ==> p.role == Buyer)
    && (SettlementRead in p.scopes ==> p.role == PlatformAdmin)
    && (p.role == MerchantAdmin || p.role == MerchantOperator ==> p.scopes <= {CatalogRead})
  }

  lemma IssuedWithinRole(lib: Library, t: TokenType, how: Method, r: Request, secret: string, now: real)
    requires Issue(lib, t, how, r, secret, now).Ok?
    ensures WithinRole(Issue(lib, t, how, r, secret, now).value.principal)
  {
    hide EncodeSignedToken, ClaimsFor, Truncated;
  }

  lemma VerifiedWithinRole(lib: Library, token: string, secret: string, expected: TokenType, how: Method, now: real)
    requires Verify(lib, token, secret, expected, how, now).Ok?
    ensures WithinRole(Verify(lib, token, secret, expected, how, now).value)
  {
    hide DecodeSignedToken, ReadScopes, ReadRole;
  }

  /** Neither an issued credential nor a verified one, of either type, says more. */
  lemma CredentialsStayWithinRole(lib: Library, r: Request, token: string, secret: string, now: real)
    ensures IssueAccessToken(lib, r, secret, now).Ok? ==>
              WithinRole(IssueAccessToken(lib, r, secret, now).value.principal)
    ensures IssueSessionToken(lib, r, secret, now).Ok? ==>
              WithinRole(IssueSessionToken(lib, r, secret, now).value.principal)
    ensures PrincipalFromAccessToken(lib, token, secret, now).Ok? ==>
              WithinRole(PrincipalFromAccessToken(lib, token, secret, now).value)
    ensures PrincipalFromSessionToken(lib, token, secret, now).Ok? ==>
              WithinRole(PrincipalFromSessionToken(lib, token, secret, now).value)
  {
    hide Issue, Verify, WithinRole;
    var whole := r.(scopes := None, clientId := None);
    if IssueAccessToken(lib, r, secret, now).Ok? { IssuedWithinRole(lib, Access, BearerToken, r, secret, now); }
    if IssueSessionToken(lib, r, secret, now).Ok? {
      IssuedWithinRole(lib, Session, SessionValue, whole, secret, now);
    }
    if PrincipalFromAccessToken(lib, token, secret, now).Ok? {
      VerifiedWithinRole(lib, token, secret, Access, BearerToken, now);
    }
    if PrincipalFromSessionToken(lib, token, secret, now).Ok? {
      VerifiedWithinRole(lib, token, secret, Session, SessionValue, now);
    }
  }

  /** What a request that names no scopes obtains. */
  function WholeRole(r: Role): set<Scope> {
    match r
    case Buyer => {CatalogRead, CheckoutWrite, PaymentWrite}
    case MerchantAdmin => {CatalogRead}
    case MerchantOperator => {CatalogRead}
    case PlatformAdmin => {CatalogRead, SettlementRead}
  }

  // ----- Issuing --------------------------------------------------------------

  predicate Issuable(r: Request, secret: string) {
    && secret != "" && 1 <= r.ttlSeconds && r.subject != "" && r.merchantId != ""
    && (r.role == Buyer ==> r.buyerId.Some? && r.buyerId.value != "")
    && (r.scopes.Some? ==> r.scopes.value <= WholeRole(r.role))
  }

  /** A credential is issued exactly when its request is whole, within its role and within the time limit. */
  lemma IssuesIff(lib: Library, r: Request, secret: string, now: real)
    ensures IssueAccessToken(lib, r, secret, now).Ok? <==> Issuable(r, secret) && r.ttlSeconds <= 86_400
    ensures IssueSessionToken(lib, r, secret, now).Ok? <==>
            Issuable(r.(scopes := None), secret) && r.ttlSeconds <= 2_592_000
  {
    hide ClaimsFor, Truncated, Segment;
  }

  /** An issued credential grants what was asked for, to whom it was asked for, from now on. */
  lemma IssuedPrincipal(lib: Library, r: Request, secret: string, now: real)
    ensures IssueAccessToken(lib, r, secret, now).Ok? ==>
              IssueAccessToken(lib, r, secret, now).value.principal
              == Principal(r.subject, r.role, r.merchantId, r.buyerId,
                           if r.scopes.Some? then r.scopes.value else WholeRole(r.role), BearerToken,
                           IssueAccessToken(lib, r, secret, now).value.issuedAt + r.ttlSeconds, r.clientId)
    ensures IssueSessionToken(lib, r, secret, now).Ok? ==>
              IssueSessionToken(lib, r, secret, now).value.principal
              == Principal(r.subject, r.role, r.merchantId, r.buyerId, WholeRole(r.role), SessionValue,
                           IssueSessionToken(lib, r, secret, now).value.issuedAt + r.ttlSeconds, None)
  {
    hide ClaimsFor, Truncated, EncodeSignedToken;
  }

  /** A credential is dated in whole seconds, rounded towards 1970. */
  lemma IssuedAtTheSecond(lib: Library, t: TokenType, how: Method, r: Request, secret: string, now: real)
    requires Issue(lib, t, how, r, secret, now).Ok?
    ensures var at := Issue(lib, t, how, r, secret, now).value.issuedAt as real;
            if now >= 0.0 then at <= now < at + 1.0 else at - 1.0 < now <= at
  {
    hide ClaimsFor, EncodeSignedToken, ValidPrincipal, GrantScopes;
  }

  // ----- What the claims say ----------------------------------------------------

  /** The claims of a credential, as they are printed. */
  lemma ClaimsSay(t: TokenType, r: Request, granted: set<Scope>, issuedAt: int)
    ensures var claims := ClaimsFor(t, r, granted, issuedAt);
            && Claim(claims, Typ) == Str(if t == Access then "access" else "session")
            && Claim(claims, Sub) == Str(r.subject) && Claim(claims, Tenant) == Str(r.merchantId)
            && Claim(claims, RoleName) == Str(match r.role
                 case Buyer => "buyer"
                 case MerchantAdmin => "merchant_admin"
                 case MerchantOperator => "merchant_operator"
                 case PlatformAdmin => "platform_admin")
            && Claim(claims, Iat) == Int(issuedAt) && Claim(claims, Exp) == Int(issuedAt + r.ttlSeconds)
            && Claim(claims, Jti) == Str(r.credentialId)
            && Claim(claims, BuyerName) == (if r.buyerId.Some? then Str(r.buyerId.value) else Null)
            && Claim(claims, Cid) == (if r.clientId.Some? then Str(r.clientId.value) else Null)
            && Claim(claims, ScopeList).List?
            && ListsScopes(Claim(claims, ScopeList).items, granted)
  {
    GrantedAreListed(granted);
    hide ScopesAsJson, ListsScopes;
  }

  /** Exactly these scopes are on the list. */
  ghost predicate ListsScopes(items: seq<Json>, scopes: set<Scope>) {
    && (CatalogRead in scopes <==> Str("catalog:read") in items)
    && (CheckoutWrite in scopes <==> Str("checkout:write") in items)
    && (PaymentWrite in scopes <==> Str("payment:write") in items)
    && (SettlementRead in scopes <==> Str("settlement:read") in items)
  }

  lemma GrantedAreListed(granted: set<Scope>)
    ensures ListsScopes(ScopesAsJson(granted), granted)
  {}

  lemma {:induction false} ReadMeansListed(items: seq<Json>)
    requires ReadScopes(items).Some?
    ensures ListsScopes(items, ReadScopes(items).value)
  {
    if items != [] {
      ReadMeansListed(items[1..]);
      assert items == [items[0]] + items[1..];
    }
  }

  /** The claims of a principal that is rebuilt say what it is; a missing list of scopes is an empty one. */
  lemma RebuiltMeansSaid(claims: Claims, how: Method)
    requires PrincipalFromClaims(claims, how).Ok?
    ensures var p := PrincipalFromClaims(claims, how).value;
            && Claim(claims, Sub) == Str(p.subject) && Claim(claims, Tenant) == Str(p.merchantId)
            && Claim(claims, RoleName) == Str(match p.role
                 case Buyer => "buyer"
                 case MerchantAdmin => "merchant_admin"
                 case MerchantOperator => "merchant_operator"
                 case PlatformAdmin => "platform_admin")
            && Claim(claims, Exp) == Int(p.expiresAt) && p.how == how
            && Claim(claims, BuyerName) == (if p.buyerId.Some? then Str(p.buyerId.value) else Null)
            && Claim(claims, Cid) == (if p.clientId.Some? then Str(p.clientId.value) else Null)
            && (ScopeList in claims ==> claims[ScopeList].List? && ListsScopes(claims[ScopeList].items, p.scopes))
            && (ScopeList !in claims ==> p.scopes == {})
            && p.subject != "" && p.merchantId != "" && WithinRole(p)
            && (p.role == Buyer ==> p.buyerId.Some? && p.buyerId.value != "")
  {
    if ScopeList in claims {
      ReadMeansListed(claims[ScopeList].items);
    }
    hide ReadScopes, ListsScopes;
  }

  // ----- Verifying --------------------------------------------------------------

  /** The claims that a text carries: its second segment, when all three are in order and it is signed. */
  ghost predicate Carries(lib: Library, token: string, secret: string, claims: Claims) {
    && 1 <= |token| <= 4096
    && |Split(token)| == 3
    && SegmentShape(Split(token)[0]) && SegmentShape(Split(token)[1]) && SegmentShape(Split(token)[2])
    && var (header, payload, signature) := (Split(token)[0], Split(token)[1], Split(token)[2]);
    && Decode(signature) == Some(lib.mac(secret, header + "." + payload))
    && Decode(header).Some? && lib.loads(Decode(header).value).Some?
    && lib.loads(Decode(header).value).value.Object?
    && Claim(lib.loads(Decode(header).value).value.fields, Alg) == Str("HS256")
    && Decode(payload).Some? && lib.loads(Decode(payload).value) == Some(Object(claims))
  }

  /** A text decodes exactly when it carries claims of the right type, not expired, not issued ahead of time. */
  lemma DecodesIff(lib: Library, token: string, secret: string, expected: TokenType, now: real, claims: Claims)
    ensures DecodeSignedToken(lib, token, secret, expected, now) == Ok(claims) <==>
            && secret != "" && Carries(lib, token, secret, claims)
            && Claim(claims, Typ) == Str(if expected == Access then "access" else "session")
            && Claim(claims, Exp).Int? && now < Claim(claims, Exp).n as real
            && Claim(claims, Iat).Int? && (Claim(claims, Iat).n - 60) as real <= now
  {
    hide Split, Decode, SegmentShape;
  }

  function JoinDots(parts: seq<string>): string {
    if parts == [] then ""
    else if |parts| == 1 then parts[0]
    else parts[0] + "." + JoinDots(parts[1..])
  }

  /** The segments hold no dot and make up the text. */
  lemma {:induction false} SplitJoins(text: string)
    ensures Split(text) != [] && JoinDots(Split(text)) == text
    ensures forall i :: 0 <= i < |Split(text)| ==> DotFree(Split(text)[i])
  {
    if text != "" {
      SplitJoins(text[1..]);
      var rest := Split(text[1..]);
      assert text == [text[0]] + text[1..];
      if text[0] == '.' {
        assert ([""] + rest)[1..] == rest;
      } else {
        PrependedJoins(text[0], rest);
      }
    }
  }

  lemma PrependedJoins(c: char, parts: seq<string>)
    requires parts != []
    ensures JoinDots([[c] + parts[0]] + parts[1..]) == [c] + JoinDots(parts)
  {
    var longer := [[c] + parts[0]] + parts[1..];
    if |parts| > 1 {
      assert longer[1..] == parts[1..] && longer[0] == [c] + parts[0];
      Regroups(c, parts[0], JoinDots(parts[1..]));
    }
  }

  lemma Regroups(c: char, first: string, rest: string)
    ensures [c] + first + "." + rest == [c] + (first + "." + rest)
  {}
}
