/**
 * Signed bearer tokens (packages/security/tokens.py) and the principals they name
 * (packages/security/principals.py): JWS Compact Serialization (section 7.1 of RFC 7515)
 * with HS256 (section 3.2 of RFC 7518) and `exp` (section 4.1.4 of RFC 7519). HMAC-SHA256
 * and the JSON library are functions this model knows nothing about beyond stated laws.
 */
module Tokens {
  import opened Outcomes
  import opened Base64Url

  // ----- Principals ---------------------------------------------------------

  datatype Role = Buyer | MerchantAdmin | MerchantOperator | PlatformAdmin

  datatype Scope = CatalogRead | CheckoutWrite | PaymentWrite | SettlementRead

  datatype Method = SessionValue | BearerToken

  function RoleText(r: Role): string {
    match r
    case Buyer => "buyer"
    case MerchantAdmin => "merchant_admin"
    case MerchantOperator => "merchant_operator"
    case PlatformAdmin => "platform_admin"
  }

  function ScopeText(s: Scope): string {
    match s
    case CatalogRead => "catalog:read"
    case CheckoutWrite => "checkout:write"
    case PaymentWrite => "payment:write"
    case SettlementRead => "settlement:read"
  }

  /** The ceiling on what a credential of each role may carry. */
  function RoleScopes(r: Role): set<Scope> {
    match r
    case Buyer => {CatalogRead, CheckoutWrite, PaymentWrite}
    case PlatformAdmin => {CatalogRead, SettlementRead}
    case _ => {CatalogRead}
  }

  datatype Principal = Principal(subject: string, role: Role, merchantId: string, buyerId: Option<string>,
                                 scopes: set<Scope>, how: Method, expiresAt: int, clientId: Option<string>)

  predicate ValidPrincipal(p: Principal) {
    && p.subject != "" && p.merchantId != ""
    && (p.role == Buyer ==> p.buyerId.Some? && p.buyerId.value != "")
    && p.scopes <= RoleScopes(p.role)
  }

  // ----- Claims -------------------------------------------------------------

  const CLAIM_NAMES: seq<string> :=
    ["alg", "typ", "sub", "role", "tenant", "scopes", "iat", "exp", "jti", "buyer", "cid"]

  type OtherText = s: string | s !in CLAIM_NAMES witness ""

  /** A key of a JSON object: one of the claim names, or any other text. */
  datatype Name = Alg | Typ | Sub | RoleName | Tenant | ScopeList | Iat | Exp | Jti | BuyerName | Cid
                | Other(text: OtherText)

  /** A number with a fraction is kept as it is printed. */
  datatype Json = Null | Str(text: string) | Int(n: int) | Bool(b: bool) | Float(shown: string)
                | List(items: seq<Json>) | Object(fields: map<Name, Json>)

  type Claims = map<Name, Json>

  function Claim(claims: Claims, name: Name): Json {
    if name in claims then claims[name] else Null
  }

  /** json.dumps as bytes, json.loads, and HMAC-SHA256 of a text under a secret. */
  datatype Library = Library(dumps: Claims -> seq<Byte>, loads: seq<Byte> -> Option<Json>,
                             mac: (string, string) -> seq<Byte>)

  /** This object is read back as it was printed. */
  predicate ReadsBack(lib: Library, c: Claims) {
    lib.loads(lib.dumps(c)) == Some(Object(c))
  }

  const ALGORITHM := "HS256"
  const MAX_TOKEN_LENGTH: nat := 4096
  const CLOCK_SKEW_SECONDS := 60
  const MAX_TTL_SECONDS := 30 * 86_400
  const MAX_ACCESS_TTL_SECONDS := 86_400

  datatype TokenType = Access | Session

  function TypeText(t: TokenType): string {
    match t
    case Access => "access"
    case Session => "session"
  }

  datatype Error =
    | EmptySecret | TtlTooShort | TtlTooLong | ScopesExceedRole | InvalidPrincipal
    | Missing | TooLarge | Malformed | BadSignature | BadAlgorithm | WrongType
    | BadExp | Expired | BadIat | IssuedInFuture
    | BadSubject | BadTenant | UnknownRole | BadScopes | UnknownScope | BadBuyer | BadClient | InvalidClaims

  // ----- Encoding -----------------------------------------------------------

  function Segment(lib: Library, claims: Claims): string {
    Encode(lib.dumps(claims))
  }

  const HEADER: Claims := map[Alg := Str(ALGORITHM), Typ := Str("JWT")]

  function EncodeSignedToken(lib: Library, claims: Claims, secret: string): Result<string, Error> {
    if secret == "" then Err(EmptySecret)
    else
      var input := Segment(lib, HEADER) + "." + Segment(lib, claims);
      Ok(input + "." + Encode(lib.mac(secret, input)))
  }

  // ----- Decoding -----------------------------------------------------------

  /** text.split(".") */
  function Split(text: string): seq<string> {
    if text == "" then [""]
    else
      var rest := Split(text[1..]);
      if text[0] == '.' then [""] + rest else [[text[0]] + rest[0]] + rest[1..]
  }

  /** The pattern ^[A-Za-z0-9_-]*$, whose end also matches before one last newline. */
  predicate SegmentShape(s: string) {
    InAlphabet(s) || (s != "" && s[|s| - 1] == '\n' && InAlphabet(s[..|s| - 1]))
  }

  function DecodeObject(lib: Library, segment: string): Result<Claims, Error> {
    match Decode(segment)
    case None => Err(Malformed)
    case Some(bytes) =>
      match lib.loads(bytes)
      case Some(Object(fields)) => Ok(fields)
      case _ => Err(Malformed)
  }

  function CheckClaims(claims: Claims, expected: TokenType, now: real): Result<Claims, Error> {
    if Claim(claims, Typ) != Str(TypeText(expected)) then Err(WrongType)
    else if !Claim(claims, Exp).Int? then Err(BadExp)
    else if now >= Claim(claims, Exp).n as real then Err(Expired)
    else if !Claim(claims, Iat).Int? then Err(BadIat)
    else if (Claim(claims, Iat).n - CLOCK_SKEW_SECONDS) as real > now then Err(IssuedInFuture)
    else Ok(claims)
  }

  function DecodeSigned(lib: Library, header: string, payload: string, signature: string, secret: string,
                        expected: TokenType, now: real): Result<Claims, Error>
  {
    match Decode(signature)
    case None => Err(Malformed)
    case Some(presented) =>
      if lib.mac(secret, header + "." + payload) != presented then Err(BadSignature)
      else
        match DecodeObject(lib, header)
        case Err(e) => Err(e)
        case Ok(h) =>
          if Claim(h, Alg) != Str(ALGORITHM) then Err(BadAlgorithm)
          else
            match DecodeObject(lib, payload)
            case Err(e) => Err(e)
            case Ok(claims) => CheckClaims(claims, expected, now)
  }

  function DecodeSignedToken(lib: Library, token: string, secret: string, expected: TokenType, now: real)
    : Result<Claims, Error>
  {
    if secret == "" then Err(EmptySecret)
    else if token == "" then Err(Missing)
    else if |token| > MAX_TOKEN_LENGTH then Err(TooLarge)
    else
      var parts := Split(token);
      if |parts| != 3 || !SegmentShape(parts[0]) || !SegmentShape(parts[1]) || !SegmentShape(parts[2])
      then Err(Malformed)
      else DecodeSigned(lib, parts[0], parts[1], parts[2], secret, expected, now)
  }

  // ----- Issuing ------------------------------------------------------------

  /** None asks for everything the role allows; anything beyond the role is refused. */
  function GrantScopes(role: Role, requested: Option<set<Scope>>): Result<set<Scope>, Error> {
    match requested
    case None => Ok(RoleScopes(role))
    case Some(s) => if s <= RoleScopes(role) then Ok(s) else Err(ScopesExceedRole)
  }

  /** Sorted by value. */
  function ScopesAsJson(s: set<Scope>): seq<Json> {
    (if CatalogRead in s then [Str(ScopeText(CatalogRead))] else [])
    + (if CheckoutWrite in s then [Str(ScopeText(CheckoutWrite))] else [])
    + (if PaymentWrite in s then [Str(ScopeText(PaymentWrite))] else [])
    + (if SettlementRead in s then [Str(ScopeText(SettlementRead))] else [])
  }

  datatype Request = Request(subject: string, role: Role, merchantId: string, buyerId: Option<string>,
                             scopes: Option<set<Scope>>, ttlSeconds: int, clientId: Option<string>,
                             credentialId: string)

  datatype Issued = Issued(token: string, issuedAt: int, principal: Principal)

  /** int(now) drops the fraction. */
  function Truncated(now: real): int {
    if now >= 0.0 then now.Floor else -((-now).Floor)
  }

  function ClaimsFor(t: TokenType, r: Request, granted: set<Scope>, issuedAt: int): Claims {
    var base: Claims := map[
      Typ := Str(TypeText(t)), Sub := Str(r.subject), RoleName := Str(RoleText(r.role)),
      Tenant := Str(r.merchantId), ScopeList := List(ScopesAsJson(granted)),
      Iat := Int(issuedAt), Exp := Int(issuedAt + r.ttlSeconds), Jti := Str(r.credentialId)];
    var withBuyer := if r.buyerId.Some? then base[BuyerName := Str(r.buyerId.value)] else base;
    if r.clientId.Some? then withBuyer[Cid := Str(r.clientId.value)] else withBuyer
  }

  /** The claims of a credential that can be issued. */
  function IssuedClaims(t: TokenType, r: Request, issued: real): Claims
    requires GrantScopes(r.role, r.scopes).Ok?
  {
    ClaimsFor(t, r, GrantScopes(r.role, r.scopes).value, Truncated(issued))
  }

  function Issue(lib: Library, t: TokenType, how: Method, r: Request, secret: string, now: real)
    : Result<Issued, Error>
  {
    if r.ttlSeconds < 1 then Err(TtlTooShort)
    else if r.ttlSeconds > MAX_TTL_SECONDS then Err(TtlTooLong)
    else
      match GrantScopes(r.role, r.scopes)
      case Err(e) => Err(e)
      case Ok(granted) =>
        var issuedAt := Truncated(now);
        var p := Principal(r.subject, r.role, r.merchantId, r.buyerId, granted, how,
                           issuedAt + r.ttlSeconds, r.clientId);
        if !ValidPrincipal(p) then Err(InvalidPrincipal)
        else
          match EncodeSignedToken(lib, ClaimsFor(t, r, granted, issuedAt), secret)
          case Err(e) => Err(e)
          case Ok(token) => Ok(Issued(token, issuedAt, p))
  }

  function IssueAccessToken(lib: Library, r: Request, secret: string, now: real): Result<Issued, Error> {
    if r.ttlSeconds > MAX_ACCESS_TTL_SECONDS then Err(TtlTooLong)
    else Issue(lib, Access, BearerToken, r, secret, now)
  }

  /** A session always carries everything its role allows, and no client. */
  function IssueSessionToken(lib: Library, r: Request, secret: string, now: real): Result<Issued, Error> {
    Issue(lib, Session, SessionValue, r.(scopes := None, clientId := None), secret, now)
  }

  // ----- Verifying ----------------------------------------------------------

  function ReadRole(v: Json): Option<Role> {
    if !v.Str? then None
    else if v.text == RoleText(Buyer) then Some(Buyer)
    else if v.text == RoleText(MerchantAdmin) then Some(MerchantAdmin)
    else if v.text == RoleText(MerchantOperator) then Some(MerchantOperator)
    else if v.text == RoleText(PlatformAdmin) then Some(PlatformAdmin)
    else None
  }

  function ReadScope(v: Json): Option<Scope> {
    if !v.Str? then None
    else if v.text == ScopeText(CatalogRead) then Some(CatalogRead)
    else if v.text == ScopeText(CheckoutWrite) then Some(CheckoutWrite)
    else if v.text == ScopeText(PaymentWrite) then Some(PaymentWrite)
    else if v.text == ScopeText(SettlementRead) then Some(SettlementRead)
    else None
  }

  /** All of them, or nothing if one is not known. */
  function ReadScopes(items: seq<Json>): Option<set<Scope>> {
    if items == [] then Some({})
    else
      match (ReadScope(items[0]), ReadScopes(items[1..]))
      case (Some(s), Some(rest)) => Some({s} + rest)
      case _ => None
  }

  function OptionalClaim(v: Json): Option<string> {
    if v.Str? then Some(v.text) else None
  }

  function PrincipalFromClaims(claims: Claims, how: Method): Result<Principal, Error> {
    var subject, tenant := Claim(claims, Sub), Claim(claims, Tenant);
    var role := ReadRole(Claim(claims, RoleName));
    var listed := if ScopeList in claims then claims[ScopeList] else List([]);
    var buyer, client := Claim(claims, BuyerName), Claim(claims, Cid);
    if !subject.Str? || subject.text == "" then Err(BadSubject)
    else if !tenant.Str? || tenant.text == "" then Err(BadTenant)
    else if role.None? then Err(UnknownRole)
    else if !listed.List? then Err(BadScopes)
    else if ReadScopes(listed.items).None? then Err(UnknownScope)
    else if !buyer.Null? && !buyer.Str? then Err(BadBuyer)
    else if !client.Null? && !client.Str? then Err(BadClient)
    else if !Claim(claims, Exp).Int? then Err(BadExp)
    else
      var p := Principal(subject.text, role.value, tenant.text, OptionalClaim(buyer),
                         ReadScopes(listed.items).value, how, Claim(claims, Exp).n, OptionalClaim(client));
      if ValidPrincipal(p) then Ok(p) else Err(InvalidClaims)
  }

  function Verify(lib: Library, token: string, secret: string, expected: TokenType, how: Method, now: real)
    : Result<Principal, Error>
  {
    match DecodeSignedToken(lib, token, secret, expected, now)
    case Err(e) => Err(e)
    case Ok(claims) => PrincipalFromClaims(claims, how)
  }

  function PrincipalFromAccessToken(lib: Library, token: string, secret: string, now: real)
    : Result<Principal, Error>
  {
    Verify(lib, token, secret, Access, BearerToken, now)
  }

  function PrincipalFromSessionToken(lib: Library, token: string, secret: string, now: real)
    : Result<Principal, Error>
  {
    Verify(lib, token, secret, Session, SessionValue, now)
  }

  // ----- Splitting undoes joining -------------------------------------------

  predicate DotFree(s: string) {
    forall i :: 0 <= i < |s| ==> s[i] != '.'
  }

  lemma {:induction false} SplitOne(s: string)
    requires DotFree(s)
    ensures Split(s) == [s]
  {
    if s != "" {
      SplitOne(s[1..]);
      assert [s[0]] + s[1..] == s;
    }
  }

  lemma {:induction false} SplitFirst(s: string, rest: string)
    requires DotFree(s)
    ensures Split(s + "." + rest) == [s] + Split(rest)
  {
    var text := s + "." + rest;
    if s == "" {
      assert text[1..] == rest;
    } else {
      SplitFirst(s[1..], rest);
      assert text[1..] == s[1..] + "." + rest;
      assert ([s[1..]] + Split(rest))[1..] == Split(rest);
      assert [s[0]] + s[1..] == s;
    }
  }

  lemma SplitThree(a: string, b: string, c: string)
    requires DotFree(a) && DotFree(b) && DotFree(c)
    ensures Split(a + "." + b + "." + c) == [a, b, c]
  {
    assert a + "." + b + "." + c == a + "." + (b + "." + c);
    SplitFirst(a, b + "." + c);
    SplitFirst(b, c);
    SplitOne(c);
  }

  // ----- Reading undoes writing ---------------------------------------------

  /** What was signed under a secret decodes to its claims, subject to type and time alone. */
  lemma SignedTokenDecodes(lib: Library, claims: Claims, secret: string, expected: TokenType, now: real)
    requires ReadsBack(lib, HEADER) && ReadsBack(lib, claims) && secret != ""
    ensures var token := EncodeSignedToken(lib, claims, secret).value;
            DecodeSignedToken(lib, token, secret, expected, now)
            == if |token| > 4096 then Err(TooLarge) else CheckClaims(claims, expected, now)
  {
    var header, payload := Segment(lib, HEADER), Segment(lib, claims);
    var signature := Encode(lib.mac(secret, header + "." + payload));
    DecodeEncode(lib.dumps(HEADER));
    DecodeEncode(lib.dumps(claims));
    DecodeEncode(lib.mac(secret, header + "." + payload));
    hide Encode, Decode, Split, CheckClaims;
    SplitThree(header, payload, signature);
    assert DecodeObject(lib, header) == Ok(HEADER);
    assert DecodeObject(lib, payload) == Ok(claims);
    assert SegmentShape(header) && SegmentShape(payload) && SegmentShape(signature);
    assert DecodeSigned(lib, header, payload, signature, secret, expected, now) == CheckClaims(claims, expected, now);
  }

  lemma RoleReads(r: Role)
    ensures ReadRole(Str(RoleText(r))) == Some(r)
  {}

  lemma ScopeReads(s: Scope)
    ensures ReadScope(Str(ScopeText(s))) == Some(s)
  {}

  lemma {:induction false} ReadScopesConcat(a: seq<Json>, b: seq<Json>)
    requires ReadScopes(a).Some? && ReadScopes(b).Some?
    ensures ReadScopes(a + b) == Some(ReadScopes(a).value + ReadScopes(b).value)
  {
    hide ReadScope;
    if a == [] {
      assert a + b == b && {} + ReadScopes(b).value == ReadScopes(b).value;
    } else {
      ReadScopesConcat(a[1..], b);
      assert (a + b)[1..] == a[1..] + b;
      var x := ReadScope(a[0]).value;
      assert {x} + (ReadScopes(a[1..]).value + ReadScopes(b).value)
          == ({x} + ReadScopes(a[1..]).value) + ReadScopes(b).value;
    }
  }

  function OneScope(s: set<Scope>, x: Scope): seq<Json> {
    if x in s then [Str(ScopeText(x))] else []
  }

  lemma OneScopeReads(s: set<Scope>, x: Scope)
    ensures ReadScopes(OneScope(s, x)) == Some(if x in s then {x} else {})
  {
    ScopeReads(x);
    hide ReadScope;
    if x in s {
      assert OneScope(s, x)[1..] == [] && {x} + {} == {x};
    }
  }

  lemma ScopesRead(s: set<Scope>)
    ensures ReadScopes(ScopesAsJson(s)) == Some(s)
  {
    OneScopeReads(s, CatalogRead);
    OneScopeReads(s, CheckoutWrite);
    OneScopeReads(s, PaymentWrite);
    OneScopeReads(s, SettlementRead);
    var a, b, c, d := OneScope(s, CatalogRead), OneScope(s, CheckoutWrite),
                      OneScope(s, PaymentWrite), OneScope(s, SettlementRead);
    assert ScopesAsJson(s) == a + b + c + d;
    hide ReadScopes, OneScope, ScopesAsJson;
    ReadScopesConcat(a, b);
    ReadScopesConcat(a + b, c);
    ReadScopesConcat(a + b + c, d);
    var all := ReadScopes(a).value + ReadScopes(b).value + ReadScopes(c).value + ReadScopes(d).value;
    forall x | x in s ensures x in all {
      match x
      case CatalogRead =>
      case CheckoutWrite =>
      case PaymentWrite =>
      case SettlementRead =>
    }
    assert s == all;
  }

  /** The claims of a request that could be issued name exactly the issued principal. */
  lemma ClaimsNamePrincipal(t: TokenType, r: Request, granted: set<Scope>, issuedAt: int, how: Method)
    requires ValidPrincipal(Principal(r.subject, r.role, r.merchantId, r.buyerId, granted, how,
                                      issuedAt + r.ttlSeconds, r.clientId))
    ensures PrincipalFromClaims(ClaimsFor(t, r, granted, issuedAt), how)
         == Ok(Principal(r.subject, r.role, r.merchantId, r.buyerId, granted, how,
                         issuedAt + r.ttlSeconds, r.clientId))
  {
    RoleReads(r.role);
    ScopesRead(granted);
    hide ReadRole, RoleText, ReadScopes, ScopesAsJson, RoleScopes, TypeText;
  }

  /** Claims carry their own type and window. */
  lemma ClaimsKeepTheirWindow(t: TokenType, r: Request, granted: set<Scope>, issuedAt: int,
                              expected: TokenType, now: real)
    ensures var claims := ClaimsFor(t, r, granted, issuedAt);
            CheckClaims(claims, expected, now)
            == if expected != t then Err(WrongType)
               else if now >= (issuedAt + r.ttlSeconds) as real then Err(Expired)
               else if (issuedAt - 60) as real > now then Err(IssuedInFuture)
               else Ok(claims)
  {}

  /** Verifying an issued token: its own type and window decide, and the principal comes back whole. */
  lemma IssuedTokenVerifies(lib: Library, t: TokenType, how: Method, r: Request, secret: string, issued: real,
                            expected: TokenType, now: real)
    requires Issue(lib, t, how, r, secret, issued).Ok?
    requires ReadsBack(lib, HEADER) && ReadsBack(lib, IssuedClaims(t, r, issued))
    ensures var i := Issue(lib, t, how, r, secret, issued).value;
            Verify(lib, i.token, secret, expected, how, now)
            == if |i.token| > 4096 then Err(TooLarge)
               else if expected != t then Err(WrongType)
               else if now >= i.principal.expiresAt as real then Err(Expired)
               else if (i.issuedAt - 60) as real > now then Err(IssuedInFuture)
               else Ok(i.principal)
  {
    hide ClaimsFor, CheckClaims, EncodeSignedToken, DecodeSignedToken, PrincipalFromClaims, ValidPrincipal,
         Truncated, GrantScopes;
    var granted := GrantScopes(r.role, r.scopes).value;
    var issuedAt := Truncated(issued);
    var claims := ClaimsFor(t, r, granted, issuedAt);
    SecretIsNeeded(lib, claims, secret);
    SignedTokenDecodes(lib, claims, secret, expected, now);
    ClaimsKeepTheirWindow(t, r, granted, issuedAt, expected, now);
    ClaimsNamePrincipal(t, r, granted, issuedAt, how);
  }

  lemma SecretIsNeeded(lib: Library, claims: Claims, secret: string)
    ensures EncodeSignedToken(lib, claims, secret).Ok? <==> secret != ""
  {}

  /** An access token of at most 4096 characters rebuilds its principal exactly inside its window. */
  lemma AccessTokenRoundTrip(lib: Library, r: Request, secret: string, issued: real, now: real)
    requires IssueAccessToken(lib, r, secret, issued).Ok?
    requires ReadsBack(lib, HEADER) && ReadsBack(lib, IssuedClaims(Access, r, issued))
    requires |IssueAccessToken(lib, r, secret, issued).value.token| <= 4096
    ensures var i := IssueAccessToken(lib, r, secret, issued).value;
            var back := PrincipalFromAccessToken(lib, i.token, secret, now);
            && (back.Ok? <==> (i.issuedAt - 60) as real <= now < i.principal.expiresAt as real)
            && (back.Ok? ==> back.value == i.principal)
            && PrincipalFromSessionToken(lib, i.token, secret, now).Err?
  {
    IssuedTokenVerifies(lib, Access, BearerToken, r, secret, issued, Access, now);
    hide Issue, DecodeSignedToken;
    WrongTypeNeverDecodes(lib, Access, BearerToken, r, secret, issued, Session, now);
  }

  lemma WrongTypeNeverDecodes(lib: Library, t: TokenType, how: Method, r: Request, secret: string,
                              issued: real, other: TokenType, now: real)
    requires Issue(lib, t, how, r, secret, issued).Ok? && other != t
    requires ReadsBack(lib, HEADER) && ReadsBack(lib, IssuedClaims(t, r, issued))
    ensures DecodeSignedToken(lib, Issue(lib, t, how, r, secret, issued).value.token,
                              secret, other, now).Err?
  {
    hide ClaimsFor, CheckClaims, EncodeSignedToken, DecodeSignedToken, ValidPrincipal, Truncated, GrantScopes;
    var granted := GrantScopes(r.role, r.scopes).value;
    var claims := ClaimsFor(t, r, granted, Truncated(issued));
    SecretIsNeeded(lib, claims, secret);
    SignedTokenDecodes(lib, claims, secret, other, now);
    ClaimsKeepTheirWindow(t, r, granted, Truncated(issued), other, now);
  }

  /** A session value does the same for the web surface, and is no bearer token. */
  lemma SessionTokenRoundTrip(lib: Library, r: Request, secret: string, issued: real, now: real)
    requires IssueSessionToken(lib, r, secret, issued).Ok?
    requires ReadsBack(lib, HEADER)
    requires ReadsBack(lib, IssuedClaims(Session, r.(scopes := None, clientId := None), issued))
    requires |IssueSessionToken(lib, r, secret, issued).value.token| <= 4096
    ensures var i := IssueSessionToken(lib, r, secret, issued).value;
            var back := PrincipalFromSessionToken(lib, i.token, secret, now);
            && (back.Ok? <==> (i.issuedAt - 60) as real <= now < i.principal.expiresAt as real)
            && (back.Ok? ==> back.value == i.principal && back.value.scopes == RoleScopes(r.role))
            && PrincipalFromAccessToken(lib, i.token, secret, now).Err?
  {
    var whole := r.(scopes := None, clientId := None);
    hide ClaimsFor, DecodeSignedToken, EncodeSignedToken, Truncated;
    IssuedTokenVerifies(lib, Session, SessionValue, whole, secret, issued, Session, now);
    WrongTypeNeverDecodes(lib, Session, SessionValue, whole, secret, issued, Access, now);
  }

  // ----- Such libraries exist -----------------------------------------------

  /** A library that tells two objects apart, by one byte. */
  function TwoObjects(claims: Claims): Library {
    Library((c: Claims) => if c == HEADER then [0] else [1],
            (bytes: seq<Byte>) => Some(Object(if bytes == [0] then HEADER else claims)),
            (secret: string, input: string) => [])
  }

  /** Every request that is not refused is issued by some such library, in a token that fits. */
  lemma RoundTripsHappen(r: Request, secret: string, issued: real)
    requires secret != "" && 1 <= r.ttlSeconds <= 86_400 && GrantScopes(r.role, r.scopes).Ok?
    requires ValidPrincipal(Principal(r.subject, r.role, r.merchantId, r.buyerId, GrantScopes(r.role, r.scopes).value,
                                      BearerToken, Truncated(issued) + r.ttlSeconds, r.clientId))
    ensures var lib := TwoObjects(IssuedClaims(Access, r, issued));
            && ReadsBack(lib, HEADER) && ReadsBack(lib, IssuedClaims(Access, r, issued))
            && IssueAccessToken(lib, r, secret, issued).Ok?
            && |IssueAccessToken(lib, r, secret, issued).value.token| <= 4096
            && PrincipalFromAccessToken(lib, IssueAccessToken(lib, r, secret, issued).value.token, secret,
                                        Truncated(issued) as real).Ok?
  {
    var claims := IssuedClaims(Access, r, issued);
    var lib := TwoObjects(claims);
    HeaderIsNoClaims(r, issued);
    hide IssuedClaims, ValidPrincipal, Truncated, GrantScopes, RoleScopes, ClaimsFor;
    assert |Encode([0])| == 2 && |Encode([1])| == 2 && |Encode([])| == 0;
    AccessTokenRoundTrip(lib, r, secret, issued, Truncated(issued) as real);
  }

  lemma HeaderIsNoClaims(r: Request, issued: real)
    requires GrantScopes(r.role, r.scopes).Ok?
    ensures IssuedClaims(Access, r, issued) != HEADER
  {
    assert Alg in HEADER && Alg !in IssuedClaims(Access, r, issued);
  }

  // ----- Whatever decodes ---------------------------------------------------

  /** Any accepted text, issued here or not: signed over what it says, of this type, in its window. */
  lemma AcceptedMeansSigned(lib: Library, token: string, secret: string, expected: TokenType, now: real)
    requires DecodeSignedToken(lib, token, secret, expected, now).Ok?
    ensures var claims := DecodeSignedToken(lib, token, secret, expected, now).value;
            && |token| <= 4096 && |Split(token)| == 3
            && Decode(Split(token)[2]) == Some(lib.mac(secret, Split(token)[0] + "." + Split(token)[1]))
            && Claim(claims, Typ) == Str(TypeText(expected))
            && Claim(claims, Exp).Int? && now < Claim(claims, Exp).n as real
            && Claim(claims, Iat).Int? && (Claim(claims, Iat).n - 60) as real <= now
  {}

  lemma SameClaimsAtAnyTime(lib: Library, token: string, secret: string, expected: TokenType,
                            now: real, other: TokenType, later: real)
    requires DecodeSignedToken(lib, token, secret, expected, now).Ok?
    ensures DecodeSignedToken(lib, token, secret, other, later)
         == CheckClaims(DecodeSignedToken(lib, token, secret, expected, now).value, other, later)
  {}

  /** Any text accepted once is refused as the other type, and from its expiry on. */
  lemma AcceptedOnceRefusedLater(lib: Library, token: string, secret: string, expected: TokenType, now: real,
                                 other: TokenType, later: real)
    requires DecodeSignedToken(lib, token, secret, expected, now).Ok?
    requires var claims := DecodeSignedToken(lib, token, secret, expected, now).value;
             other != expected || later >= Claim(claims, Exp).n as real
    ensures DecodeSignedToken(lib, token, secret, other, later).Err?
  {
    AcceptedMeansSigned(lib, token, secret, expected, now);
    SameClaimsAtAnyTime(lib, token, secret, expected, now, other, later);
    hide DecodeSignedToken, Claim;
  }

  /** No verified credential exceeds its role, whatever its claims say. */
  lemma VerifiedWithinRole(lib: Library, token: string, secret: string, now: real)
    requires PrincipalFromAccessToken(lib, token, secret, now).Ok?
    ensures var p := PrincipalFromAccessToken(lib, token, secret, now).value;
            && ValidPrincipal(p) && p.how == BearerToken && now < p.expiresAt as real
            && (PaymentWrite in p.scopes ==> p.role == Buyer && p.buyerId.Some?)
            && (CheckoutWrite in p.scopes ==> p.role == Buyer && p.buyerId.Some?)
            && (SettlementRead in p.scopes ==> p.role == PlatformAdmin)
            && (p.role == MerchantAdmin || p.role == MerchantOperator ==> p.scopes <= {CatalogRead})
  {}
}
