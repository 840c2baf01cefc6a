/**
  The HTTP handlers: what each route answers (status code and payload) for a
  request and the current tables, and the session registry `authTokens`.

  Each route is a function of the request (path parameter, query parameters,
  `Authorization` header, decoded JSON body) and of the tables as the handler finds
  them. `Server` holds the store and the token map; its methods run a route
  against the store, apply the write the route calls for, and answer as the
  route's function says. Message texts are left out: a `Message` payload stands
  for every `{ message, errors }` body.
 */
module Routes {
  import opened Wrappers
  import opened Seqs
  import opened Strings
  import opened Schema
  import opened Storage

  /** `DELETE_PASSWORD`, asked for before deleting a business. */
  const DeletePassword: string := "0102"

  /** What `authTokens` maps a token to. */
  datatype AuthData = AuthData(adminId: int, username: string)

  type AuthTokens = map<string, AuthData>

  datatype Payload =
    | Message
    | Succeeded
    | BusinessPayload(business: Business)
    | ListingPayload(listing: Listing)
    | BusinessesPayload(businesses: seq<Business>)
    | TransactionPayload(transaction: DocumentTransaction)
    | TransactionsPayload(transactions: seq<DocumentTransaction>)
    | LoginPayload(token: string, adminId: int, username: string)
    | SessionPayload(session: Option<AuthData>)

  /** `res.json(...)` answers 200 unless `res.status` set another code. */
  datatype Response = Response(status: nat, payload: Payload)

  function Error(status: nat): Response {
    Response(status, Message)
  }

  // ---------------------------------------------------------------------------
  // Request parameters

  /** `parseInt(param) || fallback`: a missing parameter, `NaN` and 0 all give the fallback. */
  function QueryNumber(param: Option<string>, fallback: int): (n: int)
    ensures fallback != 0 ==> n != 0
  {
    match param
    case None => fallback
    case Some(s) =>
      match ParseInt(s)
      case None => fallback
      case Some(v) => if v == 0 then fallback else v
  }

  /** A positive decimal parameter is taken as it is. */
  lemma QueryNumberOfDecimal(n: nat, fallback: int)
    requires n > 0
    ensures QueryNumber(Some(NatToDecimal(n)), fallback) == n
  {
    ParseIntOfDecimal(n);
  }

  /** A parameter with no digit (left out, "abc", "") or equal to 0 gives the fallback. */
  lemma QueryNumberFallback(param: Option<string>, fallback: int)
    requires || param.None?
             || (forall i :: 0 <= i < |param.value| ==> !('0' <= param.value[i] <= '9'))
             || param == Some("0")
    ensures QueryNumber(param, fallback) == fallback
  {
    if param.Some? && param != Some("0") {
      ParseIntWithoutDigits(param.value);
    } else if param == Some("0") {
      assert NatToDecimal(0) == "0";
      ParseIntOfDecimal(0);
    }
  }

  /**
    `req.headers.authorization?.replace('Bearer ', '')`, then the truthiness test:
    the header with its first "Bearer " removed; an empty result is no token.
   */
  function ExtractToken(authorization: Option<string>): (t: Option<string>)
    ensures t.Some? ==> t.value != ""
  {
    match authorization
    case None => None
    case Some(h) =>
      var t := ReplaceFirst(h, "Bearer ", "");
      if t == "" then None else Some(t)
  }

  /** `Bearer <token>` yields the token. */
  lemma ExtractBearer(token: string)
    requires token != ""
    ensures ExtractToken(Some("Bearer " + token)) == Some(token)
  {
    ReplaceFirstAtStart("Bearer ", token, "");
    assert "" + token == token;
  }

  /** The first "Bearer " in the header is the one removed, wherever it is ("Basic Bearer abc" gives "Basic abc"). */
  lemma ExtractFirstBearer(header: string, k: nat)
    requires OccursAt("Bearer ", header, k)
    requires forall j :: 0 <= j < k ==> !OccursAt("Bearer ", header, j)
    requires header[..k] + header[k + 7..] != ""
    ensures ExtractToken(Some(header)) == Some(header[..k] + header[k + 7..])
  {
    ReplaceFirstAt(header, "Bearer ", "", k);
    assert header[..k] + "" + header[k + 7..] == header[..k] + header[k + 7..];
  }

  /** A header without "Bearer " is taken whole as the token; "Bearer " alone is no token. */
  lemma ExtractWithoutBearer(header: string)
    requires header != "" && !Occurs("Bearer ", header)
    ensures ExtractToken(Some(header)) == Some(header)
    ensures ExtractToken(Some("Bearer ")) == None
  {
    ReplaceFirstWithoutOccurrence(header, "Bearer ", "");
    ReplaceFirstAtStart("Bearer ", "", "");
    assert "Bearer " + "" == "Bearer ";
  }

  /** `token ? authTokens.get(token) : null`. */
  function Session(tokens: AuthTokens, authorization: Option<string>): (r: Option<AuthData>)
    ensures r.Some? <==> ExtractToken(authorization).Some? && ExtractToken(authorization).value in tokens
    ensures r.Some? ==> r.value == tokens[ExtractToken(authorization).value]
  {
    match ExtractToken(authorization)
    case None => None
    case Some(t) => if t in tokens then Some(tokens[t]) else None
  }

  // ---------------------------------------------------------------------------
  // Routes that only read

  /** `GET /api/businesses?page&limit`: page 1 and limit 10 by default. */
  function ListRoute(rows: seq<Business>, page: Option<string>, limit: Option<string>): (resp: Response)
    ensures resp.status == 200 || resp == Error(500)
    ensures var p, l := QueryNumber(page, 1), QueryNumber(limit, 10);
      resp.status == 500 <==> l < 0 || (p - 1) * l < 0
    ensures var p, l := QueryNumber(page, 1), QueryNumber(limit, 10);
      resp.status == 200 ==>
        resp.payload == ListingPayload(Listing(Page(SortDesc(rows, CreatedAtOf), (p - 1) * l, l), |rows|))
  {
    match ListBusinesses(rows, QueryNumber(page, 1), QueryNumber(limit, 10))
    case Success(listing) => Response(200, ListingPayload(listing))
    case Failure(_) => Error(500)
  }

  /** Without parameters the listing is the ten newest businesses and the row count. */
  lemma ListRouteDefaults(rows: seq<Business>)
    ensures ListRoute(rows, None, None)
            == Response(200, ListingPayload(Listing(Page(SortDesc(rows, CreatedAtOf), 0, 10), |rows|)))
  {
    ListingIsPage(rows, 1, 10);
  }

  /** A negative limit reaches the database, which refuses it: 500. */
  lemma ListRouteNegativeLimit(rows: seq<Business>, page: Option<string>, n: nat)
    requires n > 0
    ensures ListRoute(rows, page, Some("-" + NatToDecimal(n))) == Error(500)
  {
    ParseIntOfNegativeDecimal(n);
  }

  /**
    `GET /api/businesses/:id`: 400 for `NaN`, 500 when PostgreSQL refuses an id
    beyond `integer`, 404 when no row has it.
   */
  function GetBusinessRoute(rows: seq<Business>, idParam: string): (resp: Response)
    ensures resp.status == 400 <==> ParseInt(idParam).None?
    ensures resp.status == 500 <==> ParseInt(idParam).Some? && !IsInt4(ParseInt(idParam).value)
    ensures resp.status == 404 <==> && ParseInt(idParam).Some? && IsInt4(ParseInt(idParam).value)
                                    && !exists i :: 0 <= i < |rows| && rows[i].id == ParseInt(idParam).value
    ensures resp.status == 200 ==> && resp.payload.BusinessPayload? && resp.payload.business in rows
                                   && resp.payload.business.id == ParseInt(idParam).value
    ensures resp.status in {200, 400, 404, 500}
  {
    match ParseInt(idParam)
    case None => Error(400)
    case Some(id) =>
      if !IsInt4(id) then Error(500)
      else match GetBusinessById(rows, id)
      case None => Error(404)
      case Some(b) => Response(200, BusinessPayload(b))
  }

  /** Asking for a stored business by its id returns it; a missing id is 404. */
  lemma GetBusinessRouteById(rows: seq<Business>, id: nat)
    requires id <= Int4Max
    ensures GetBusinessRoute(rows, NatToDecimal(id))
            == if exists i :: 0 <= i < |rows| && rows[i].id == id
               then Response(200, BusinessPayload(GetBusinessById(rows, id).value))
               else Error(404)
  {
    ParseIntOfDecimal(id);
  }

  /** `POST /api/businesses/search`. */
  function SearchRoute(rows: seq<Business>, body: Body): (resp: Response)
    ensures resp.status in {200, 400}
    ensures resp.status == 400 <==> ParseSearch(body).None?
    ensures resp.status == 200 ==>
              && resp.payload == BusinessesPayload(SearchBusinesses(rows, ParseSearch(body).value))
              && multiset(resp.payload.businesses) <= multiset(rows)
  {
    match ParseSearch(body)
    case None => Error(400)
    case Some(s) => Response(200, BusinessesPayload(SearchBusinesses(rows, s)))
  }

  /** `GET /api/businesses/:businessId/documents`. */
  function GetDocumentsRoute(txs: seq<DocumentTransaction>, idParam: string): (resp: Response)
    ensures resp.status == 400 <==> ParseInt(idParam).None?
    ensures resp.status == 500 <==> ParseInt(idParam).Some? && !IsInt4(ParseInt(idParam).value)
    ensures resp.status == 200 ==> && resp.payload.TransactionsPayload?
                                   && SortedDescBy(resp.payload.transactions, TransactionDateOf)
                                   && forall t :: t in resp.payload.transactions <==>
                                                    t in txs && t.businessId == ParseInt(idParam).value
    ensures resp.status in {200, 400, 500}
  {
    match ParseInt(idParam)
    case None => Error(400)
    case Some(id) =>
      if !IsInt4(id) then Error(500)
      else
        assert forall t :: t in TransactionsOf(txs, id) <==> t in txs && t.businessId == id by {
          forall t ensures t in TransactionsOf(txs, id) <==> t in txs && t.businessId == id {
            TransactionsOfHas(txs, id, t);
          }
        }
        Response(200, TransactionsPayload(TransactionsOf(txs, id)))
  }

  /** `GET /api/auth/me`: always 200, with the session if the token is known. */
  function MeRoute(tokens: AuthTokens, authorization: Option<string>): (resp: Response)
    ensures resp.status == 200 && resp.payload.SessionPayload?
    ensures resp.payload.session.Some? <==> ExtractToken(authorization).Some? && ExtractToken(authorization).value in tokens
    ensures resp.payload.session.Some? ==> resp.payload.session.value == tokens[ExtractToken(authorization).value]
  {
    Response(200, SessionPayload(Session(tokens, authorization)))
  }

  // ---------------------------------------------------------------------------
  // Routes that write: the answer, from the tables the handler finds

  /**
    `POST /api/businesses`: 400 for an invalid body or a taken tax ID, 500 for other
    errors. The validator enforces both `varchar(20)` limits, so the database's length
    error, the one other error an insert can meet here, never arises.
   */
  function CreateBusinessRoute(rows: seq<Business>, nextId: int, body: Body, now: int): (resp: Response)
    ensures resp.status in {201, 400}
    ensures ParseInsertBusiness(body).None? ==> resp == Error(400)
    ensures ParseInsertBusiness(body).Some? ==>
              (resp.status == 400 <==> TaxIdTaken(rows, ParseInsertBusiness(body).value.taxId, nextId))
    ensures resp.status == 201 ==>
              && ParseInsertBusiness(body).Some?
              && resp.payload == BusinessPayload(NewBusiness(ParseInsertBusiness(body).value, nextId, now))
  {
    match ParseInsertBusiness(body)
    case None => Error(400)
    case Some(x) =>
      match CreateBusinessIn(rows, x, nextId, now)
      case Success(b) => Response(201, BusinessPayload(b))
      case Failure(e) => Error(CreateErrorStatus(e))
  }

  /** The `catch` of `POST /api/businesses`: 400 for a duplicate key, 500 for any other database error. */
  function CreateErrorStatus(e: StoreError): nat {
    if e == DuplicateKey then 400 else 500
  }

  /** A client's insert body with a new tax ID is stored as submitted: 201 with the row. */
  lemma CreateBusinessRouteStores(rows: seq<Business>, nextId: int, x: InsertBusiness, now: int)
    requires InsertWithinLengths(x)
    requires forall i :: 0 <= i < |rows| ==> rows[i].taxId != x.taxId
    ensures CreateBusinessRoute(rows, nextId, InsertBusinessBody(x), now)
            == Response(201, BusinessPayload(NewBusiness(x, nextId, now)))
  {
    InsertBusinessRoundTrip(x);
  }

  /** A valid body whose tax ID is already stored is answered 400. */
  lemma CreateBusinessRouteDuplicate(rows: seq<Business>, nextId: int, body: Body, now: int)
    requires ParseInsertBusiness(body).Some?
    requires forall i :: 0 <= i < |rows| ==> rows[i].id < nextId
    requires exists i :: 0 <= i < |rows| && rows[i].taxId == ParseInsertBusiness(body).value.taxId
    ensures CreateBusinessRoute(rows, nextId, body, now) == Error(400)
  {
    var x := ParseInsertBusiness(body).value;
    CreateDuplicateIff(rows, x, nextId, now);
  }

  /** The body with the path id in place of any `id` it carries (`{ ...req.body, id }`). */
  function WithId(body: Body, key: string, id: int): Body {
    body[key := JNumber(id)]
  }

  /** The update that `PUT /api/businesses/:id` validates always carries the path id. */
  lemma UpdateUsesPathId(body: Body, id: int)
    ensures ParseUpdateBusiness(WithId(body, "id", id)).Some? ==> ParseUpdateBusiness(WithId(body, "id", id)).value.id == id
  {
  }

  /**
    `PUT /api/businesses/:id`: 400 for a non-numeric id or an invalid body, 404 when
    no row has the id, 500 for every database error (a taken tax ID included).
    The token map is not consulted.
   */
  function UpdateBusinessRoute(rows: seq<Business>, idParam: string, body: Body): (resp: Response)
    ensures ParseInt(idParam).None? ==> resp == Error(400)
    ensures ParseInt(idParam).Some? && !IsInt4(ParseInt(idParam).value) ==> resp.status in {400, 500}
    ensures resp.status == 200 ==> && resp.payload.BusinessPayload?
                                   && resp.payload.business.id == ParseInt(idParam).value
    ensures resp.status in {200, 400, 404, 500}
    ensures ParseInt(idParam).Some? ==>
              var id := ParseInt(idParam).value;
              var u := ParseUpdateBusiness(WithId(body, "id", id));
              && (u.None? ==> resp == Error(400))
              && (u.Some? && IsInt4(id) && u.value.patch == EmptyPatch ==> resp == Error(500))
              && (u.Some? && IsInt4(id) && u.value.patch != EmptyPatch ==>
                    && (resp.status == 404 <==> !exists i :: 0 <= i < |rows| && rows[i].id == id)
                    && (resp.status == 200 ==>
                          && GetBusinessById(rows, id).Some?
                          && resp.payload == BusinessPayload(PatchBusiness(GetBusinessById(rows, id).value, u.value.patch))))
  {
    match ParseInt(idParam)
    case None => Error(400)
    case Some(id) =>
      match ParseUpdateBusiness(WithId(body, "id", id))
      case None => Error(400)
      case Some(u) =>
        if !IsInt4(id) then Error(500)
        else match UpdateIn(rows, u)
        case Failure(_) => Error(500)
        case Success(None) => Error(404)
        case Success(Some(b)) => Response(200, BusinessPayload(b))
  }

  /** An update that would give a business another's tax ID is a 500, not the 400 of create. */
  lemma UpdateDuplicateIs500(rows: seq<Business>, id: nat, body: Body)
    requires ParseUpdateBusiness(WithId(body, "id", id)).Some?
    requires var u := ParseUpdateBusiness(WithId(body, "id", id)).value;
      && u.patch != EmptyPatch && GetBusinessById(rows, id).Some?
      && TaxIdTaken(rows, PatchBusiness(GetBusinessById(rows, id).value, u.patch).taxId, id)
    ensures UpdateBusinessRoute(rows, NatToDecimal(id), body) == Error(500)
  {
    ParseIntOfDecimal(id);
    UpdateUsesPathId(body, id);
  }

  /**
    `DELETE /api/businesses/:id` up to the store: the id to delete, or the answer given
    instead. 400 for `NaN` or a body without a string `password`, then 403 for a wrong
    password; an id beyond `integer` is refused by PostgreSQL (500) and deletes nothing.
   */
  function DeleteBusinessCheck(idParam: string, body: Body): (r: Result<int, Response>)
    ensures ParseInt(idParam).None? ==> r == Failure(Error(400))
    ensures ParseInt(idParam).Some? && !("password" in body && body["password"].JString?) ==> r == Failure(Error(400))
    ensures (&& ParseInt(idParam).Some? && "password" in body && body["password"].JString?
             && body["password"].s != DeletePassword) ==> r == Failure(Error(403))
    ensures r.Success? <==> && ParseInt(idParam).Some? && IsInt4(ParseInt(idParam).value)
                            && "password" in body && body["password"] == JString(DeletePassword)
    ensures r.Success? ==> ParseInt(idParam) == Some(r.value)
    ensures r.Failure? ==> r.error.payload == Message && r.error.status in {400, 403, 500}
  {
    match ParseInt(idParam)
    case None => Failure(Error(400))
    case Some(id) =>
      match ParseDeleteBusiness(WithId(body, "id", id))
      case None => Failure(Error(400))
      case Some(d) =>
        if d.password != DeletePassword then Failure(Error(403))
        else if !IsInt4(id) then Failure(Error(500))
        else Success(id)
  }

  /** A well-formed id with a string password other than "0102" is refused with 403, before any delete. */
  lemma WrongDeletePasswordIs403(id: nat, body: Body)
    requires "password" in body && body["password"].JString? && body["password"].s != DeletePassword
    ensures DeleteBusinessCheck(NatToDecimal(id), body) == Failure(Error(403))
  {
    ParseIntOfDecimal(id);
  }

  /** With the right password the path id is the one deleted, whatever `id` the body holds. */
  lemma DeletePasswordAdmits(id: nat, body: Body)
    requires id <= Int4Max
    requires "password" in body && body["password"] == JString(DeletePassword)
    ensures DeleteBusinessCheck(NatToDecimal(id), body) == Success(id)
  {
    ParseIntOfDecimal(id);
  }

  /** `DELETE /api/businesses/:id`: 200 when a row was removed, 404 when none had the id. */
  function DeleteBusinessRoute(rows: seq<Business>, idParam: string, body: Body): (resp: Response)
    ensures DeleteBusinessCheck(idParam, body).Failure? ==> resp == DeleteBusinessCheck(idParam, body).error
    ensures DeleteBusinessCheck(idParam, body).Success? ==>
              && resp.status in {200, 404}
              && (resp.status == 200 <==> exists i :: 0 <= i < |rows| && rows[i].id == DeleteBusinessCheck(idParam, body).value)
    ensures resp.status in {200, 400, 403, 404, 500}
  {
    match DeleteBusinessCheck(idParam, body)
    case Failure(resp) => resp
    case Success(id) => if GetBusinessById(rows, id).Some? then Response(200, Message) else Error(404)
  }

  /** `POST /api/auth/login`: 400 for an invalid body, 401 for wrong credentials. */
  function LoginRoute(admins: seq<AdminUser>, body: Body, token: string): (resp: Response)
    ensures resp.status in {200, 400, 401}
    ensures resp.status == 200 ==> resp.payload.LoginPayload? && resp.payload.token == token
    ensures resp.status == 200 ==>
              && ParseLogin(body).Some?
              && exists i :: && 0 <= i < |admins| && admins[i].id == resp.payload.adminId
                             && admins[i].username == resp.payload.username
                             && admins[i].username == ParseLogin(body).value.username
                             && admins[i].password == ParseLogin(body).value.password
    ensures resp.status == 400 <==> ParseLogin(body).None?
  {
    match ParseLogin(body)
    case None => Error(400)
    case Some(login) =>
      match AuthenticateAdmin(admins, login)
      case None => Error(401)
      case Some(a) => Response(200, LoginPayload(token, a.id, a.username))
  }

  /** A valid body logs in exactly when some admin has that username and password. */
  lemma LoginIff(admins: seq<AdminUser>, nextId: int, body: Body, token: string)
    requires AdminsValid(admins, nextId)
    requires ParseLogin(body).Some?
    ensures var login := ParseLogin(body).value;
      LoginRoute(admins, body, token).status == 200
      <==> exists i :: 0 <= i < |admins| && admins[i].username == login.username && admins[i].password == login.password
  {
    AuthenticateIff(admins, nextId, ParseLogin(body).value);
  }

  /** The token map after a logout with that header. */
  function LogoutTokens(tokens: AuthTokens, authorization: Option<string>): (r: AuthTokens)
    ensures ExtractToken(authorization).Some? ==> ExtractToken(authorization).value !in r
    ensures ExtractToken(authorization).None? ==> r == tokens
    ensures r.Keys <= tokens.Keys
  {
    match ExtractToken(authorization)
    case None => tokens
    case Some(t) => tokens - {t}
  }

  /** After a login stores a token, `/me` with `Bearer <token>` reports that admin. */
  lemma LoginThenMe(tokens: AuthTokens, token: string, data: AuthData)
    requires token != ""
    ensures MeRoute(tokens[token := data], Some("Bearer " + token)) == Response(200, SessionPayload(Some(data)))
  {
    ExtractBearer(token);
  }

  /** After a logout, `/me` with the same header reports no session. */
  lemma LogoutThenMe(tokens: AuthTokens, authorization: Option<string>)
    ensures MeRoute(LogoutTokens(tokens, authorization), authorization) == Response(200, SessionPayload(None))
  {
  }

  /** A logout removes at most its own token; every other session survives. */
  lemma LogoutKeepsOthers(tokens: AuthTokens, authorization: Option<string>, other: string)
    requires ExtractToken(authorization) != Some(other)
    ensures other in LogoutTokens(tokens, authorization) <==> other in tokens
    ensures other in tokens ==> LogoutTokens(tokens, authorization)[other] == tokens[other]
  {
  }

  /**
    `POST /api/auth/change-password`: 401 without a session, before the body is
    looked at; 400 for an invalid body or a wrong current password.
   */
  function ChangePasswordRoute(tokens: AuthTokens, admins: seq<AdminUser>, authorization: Option<string>,
                               body: Body): (resp: Response)
    ensures Session(tokens, authorization).None? ==> resp == Error(401)
    ensures resp.status in {200, 400, 401}
    ensures Session(tokens, authorization).Some? ==> resp.status in {200, 400}
    ensures Session(tokens, authorization).Some? && ParseChangePassword(body).None? ==> resp == Error(400)
    ensures Session(tokens, authorization).Some? && ParseChangePassword(body).Some? ==>
              var ok := ChangePasswordIn(admins, Session(tokens, authorization).value.username,
                                         ParseChangePassword(body).value);
              && (resp.status == 200 <==> ok)
              && (!ok ==> resp == Error(400))
  {
    match Session(tokens, authorization)
    case None => Error(401)
    case Some(auth) =>
      match ParseChangePassword(body)
      case None => Error(400)
      case Some(req) => if ChangePasswordIn(admins, auth.username, req) then Response(200, Message) else Error(400)
  }

  /** With a session and a valid body, the answer is 200 exactly when the current password is right. */
  lemma ChangePasswordRouteIff(tokens: AuthTokens, admins: seq<AdminUser>, nextId: int,
                               authorization: Option<string>, body: Body)
    requires AdminsValid(admins, nextId)
    requires Session(tokens, authorization).Some?
    requires ParseChangePassword(body).Some?
    ensures ChangePasswordRoute(tokens, admins, authorization, body).status == 200
      <==> exists i :: 0 <= i < |admins| && admins[i].username == Session(tokens, authorization).value.username
                       && admins[i].password == ParseChangePassword(body).value.currentPassword
  {
    var req := ParseChangePassword(body).value;
    AuthenticateIff(admins, nextId, LoginRequest(Session(tokens, authorization).value.username, req.currentPassword));
  }

  /** `POST /api/businesses/:businessId/documents`: 400 before the store, 500 for its errors. */
  function CreateDocumentRoute(rows: seq<Business>, nextId: int, idParam: string, body: Body, now: int,
                               dateOf: string -> Option<int>): (resp: Response)
    ensures ParseInt(idParam).None? ==> resp == Error(400)
    ensures ParseInt(idParam).Some? && !IsInt4(ParseInt(idParam).value) ==> resp.status in {400, 500}
    ensures resp.status in {201, 400, 500}
    ensures ParseInt(idParam).Some? && IsInt4(ParseInt(idParam).value) ==>
              var id := ParseInt(idParam).value;
              var x := ParseInsertDocumentTransaction(WithId(body, "businessId", id));
              && (x.None? ==> resp == Error(400))
              && (x.Some? ==>
                    var c := CreateTransactionIn(rows, x.value, nextId, now, dateOf);
                    && (resp.status == 201 <==> c.Success?)
                    && (c.Success? ==> resp == Response(201, TransactionPayload(c.value)))
                    && (c.Failure? ==> resp == Error(500))
                    && (resp.status == 201 <==> TransactionDate(x.value.transactionDate, now, dateOf).Some?
                                                && exists i :: 0 <= i < |rows| && rows[i].id == id))
  {
    match ParseInt(idParam)
    case None => Error(400)
    case Some(id) =>
      match ParseInsertDocumentTransaction(WithId(body, "businessId", id))
      case None => Error(400)
      case Some(x) =>
        if !IsInt4(id) then Error(500)
        else match CreateTransactionIn(rows, x, nextId, now, dateOf)
        case Success(t) => Response(201, TransactionPayload(t))
        case Failure(_) => Error(500)
  }

  /** A created transaction belongs to the business of the path, whatever `businessId` the body holds. */
  lemma CreateDocumentUsesPathId(rows: seq<Business>, nextId: int, id: nat, body: Body, now: int,
                                 dateOf: string -> Option<int>)
    requires CreateDocumentRoute(rows, nextId, NatToDecimal(id), body, now, dateOf).status == 201
    ensures var resp := CreateDocumentRoute(rows, nextId, NatToDecimal(id), body, now, dateOf);
      resp.payload.TransactionPayload? && resp.payload.transaction.businessId == id
  {
    ParseIntOfDecimal(id);
  }

  /**
    `DELETE /api/documents/:id` up to the store: 401 without a session (before the id
    is read), then 400 for `NaN`; an id beyond `integer` is refused by PostgreSQL (500).
   */
  function DeleteDocumentCheck(tokens: AuthTokens, authorization: Option<string>, idParam: string): (r: Result<int, Response>)
    ensures Session(tokens, authorization).None? ==> r == Failure(Error(401))
    ensures Session(tokens, authorization).Some? && ParseInt(idParam).None? ==> r == Failure(Error(400))
    ensures r.Success? <==> Session(tokens, authorization).Some? && ParseInt(idParam).Some?
                            && IsInt4(ParseInt(idParam).value)
    ensures r.Success? ==> ParseInt(idParam) == Some(r.value)
    ensures r.Failure? ==> r.error.payload == Message && r.error.status in {400, 401, 500}
  {
    match Session(tokens, authorization)
    case None => Failure(Error(401))
    case Some(_) =>
      match ParseInt(idParam)
      case None => Failure(Error(400))
      case Some(id) => if !IsInt4(id) then Failure(Error(500)) else Success(id)
  }

  /** `DELETE /api/documents/:id`: 200 when a transaction was removed, 404 when none had the id. */
  function DeleteDocumentRoute(tokens: AuthTokens, txs: seq<DocumentTransaction>, authorization: Option<string>,
                               idParam: string): (resp: Response)
    ensures DeleteDocumentCheck(tokens, authorization, idParam).Failure? ==>
              resp == DeleteDocumentCheck(tokens, authorization, idParam).error
    ensures DeleteDocumentCheck(tokens, authorization, idParam).Success? ==>
              && resp.status in {200, 404}
              && (resp.status == 200 <==>
                    exists i :: 0 <= i < |txs| && txs[i].id == DeleteDocumentCheck(tokens, authorization, idParam).value)
    ensures resp.status in {200, 400, 401, 404, 500}
  {
    match DeleteDocumentCheck(tokens, authorization, idParam)
    case Failure(resp) => resp
    case Success(id) =>
      if exists i :: 0 <= i < |txs| && txs[i].id == id then Response(200, Message) else Error(404)
  }

  // ---------------------------------------------------------------------------
  // The server

  class Server {
    const storage: DatabaseStorage
    var authTokens: AuthTokens

    ghost predicate Valid()
      reads this, storage
    {
      storage.Valid()
    }

    constructor (storage: DatabaseStorage)
      requires storage.Valid()
      ensures Valid() && this.storage == storage && authTokens == map[]
    {
      this.storage := storage;
      authTokens := map[];
    }

    method CreateBusiness(body: Body, now: int) returns (resp: Response)
      requires Valid()
      modifies storage
      ensures Valid()
      ensures resp == CreateBusinessRoute(old(storage.businesses), old(storage.nextBusinessId), body, now)
      ensures resp.status == 201 ==> && resp.payload.BusinessPayload?
                                     && storage.businesses == old(storage.businesses) + [resp.payload.business]
                                     && storage.nextBusinessId == old(storage.nextBusinessId) + 1
      ensures resp.status != 201 ==> storage.businesses == old(storage.businesses)
                                     && storage.nextBusinessId == old(storage.nextBusinessId)
      ensures storage.transactions == old(storage.transactions) && storage.admins == old(storage.admins)
      ensures storage.nextTransactionId == old(storage.nextTransactionId)
      ensures storage.nextAdminId == old(storage.nextAdminId)
    {
      match ParseInsertBusiness(body)
      case None =>
        resp := Error(400);
      case Some(x) =>
        var r := storage.CreateBusiness(x, now);
        resp := match r
          case Success(b) => Response(201, BusinessPayload(b))
          case Failure(DuplicateKey) => Error(400)
          case Failure(_) => Error(500);
    }

    method UpdateBusiness(idParam: string, body: Body) returns (resp: Response)
      requires Valid()
      modifies storage
      ensures Valid()
      ensures resp == UpdateBusinessRoute(old(storage.businesses), idParam, body)
      ensures storage.businesses == if resp.status == 200 then ReplaceRow(old(storage.businesses), resp.payload.business)
                                    else old(storage.businesses)
      ensures storage.nextBusinessId == old(storage.nextBusinessId)
      ensures storage.transactions == old(storage.transactions) && storage.admins == old(storage.admins)
      ensures storage.nextTransactionId == old(storage.nextTransactionId)
      ensures storage.nextAdminId == old(storage.nextAdminId)
    {
      match ParseInt(idParam)
      case None =>
        resp := Error(400);
      case Some(id) =>
        match ParseUpdateBusiness(WithId(body, "id", id))
        case None =>
          resp := Error(400);
        case Some(u) =>
          if !IsInt4(id) {
            resp := Error(500);
            return;
          }
          var r := storage.UpdateBusiness(u);
          resp := match r
            case Failure(_) => Error(500)
            case Success(None) => Error(404)
            case Success(Some(b)) => Response(200, BusinessPayload(b));
    }

    method DeleteBusiness(idParam: string, body: Body) returns (resp: Response)
      requires Valid()
      modifies storage
      ensures Valid()
      ensures resp == DeleteBusinessRoute(old(storage.businesses), idParam, body)
      ensures match DeleteBusinessCheck(idParam, body)
              case Failure(_) =>
                storage.businesses == old(storage.businesses) && storage.transactions == old(storage.transactions)
              case Success(id) =>
                && storage.businesses == WithoutBusiness(old(storage.businesses), id)
                && storage.transactions == WithoutTransactionsOf(old(storage.transactions), id)
      ensures storage.admins == old(storage.admins) && storage.nextBusinessId == old(storage.nextBusinessId)
      ensures storage.nextTransactionId == old(storage.nextTransactionId)
      ensures storage.nextAdminId == old(storage.nextAdminId)
    {
      match DeleteBusinessCheck(idParam, body)
      case Failure(early) =>
        resp := early;
      case Success(id) =>
        var removed := storage.DeleteBusiness(id);
        resp := if removed then Response(200, Message) else Error(404);
    }

    /** `token` stands for `generateToken()`, which never returns "". */
    method Login(body: Body, token: string) returns (resp: Response)
      requires Valid()
      requires token != ""
      modifies this
      ensures Valid()
      ensures resp == LoginRoute(storage.admins, body, token)
      ensures authTokens == if resp.status == 200
                            then old(authTokens)[token := AuthData(resp.payload.adminId, resp.payload.username)]
                            else old(authTokens)
      ensures resp.status == 200 ==> Session(authTokens, Some("Bearer " + token))
                                     == Some(AuthData(resp.payload.adminId, resp.payload.username))
    {
      resp := LoginRoute(storage.admins, body, token);
      if resp.status == 200 {
        var data := AuthData(resp.payload.adminId, resp.payload.username);
        LoginThenMe(authTokens, token, data);
        authTokens := authTokens[token := data];
      }
    }

    /** `POST /api/auth/logout`: always answers 200. */
    method Logout(authorization: Option<string>) returns (resp: Response)
      requires Valid()
      modifies this
      ensures Valid()
      ensures resp == Response(200, Succeeded)
      ensures authTokens == LogoutTokens(old(authTokens), authorization)
      ensures Session(authTokens, authorization).None?
    {
      resp := Response(200, Succeeded);
      var token := ExtractToken(authorization);
      if token.Some? {
        authTokens := authTokens - {token.value};
      }
    }

    method ChangePassword(authorization: Option<string>, body: Body) returns (resp: Response)
      requires Valid()
      modifies storage
      ensures Valid()
      ensures resp == ChangePasswordRoute(authTokens, old(storage.admins), authorization, body)
      ensures storage.admins == if resp.status == 200
                                then SetPassword(old(storage.admins), Session(authTokens, authorization).value.username,
                                                 ParseChangePassword(body).value.newPassword)
                                else old(storage.admins)
      ensures storage.businesses == old(storage.businesses) && storage.transactions == old(storage.transactions)
      ensures storage.nextBusinessId == old(storage.nextBusinessId)
      ensures storage.nextTransactionId == old(storage.nextTransactionId)
      ensures storage.nextAdminId == old(storage.nextAdminId)
    {
      match Session(authTokens, authorization)
      case None =>
        resp := Error(401);
      case Some(auth) =>
        match ParseChangePassword(body)
        case None =>
          resp := Error(400);
        case Some(req) =>
          var changed := storage.ChangeAdminPassword(auth.username, req);
          resp := if changed then Response(200, Message) else Error(400);
    }

    method CreateDocument(idParam: string, body: Body, now: int, dateOf: string -> Option<int>) returns (resp: Response)
      requires Valid()
      modifies storage
      ensures Valid()
      ensures resp == CreateDocumentRoute(old(storage.businesses), old(storage.nextTransactionId), idParam, body, now, dateOf)
      ensures resp.status == 201 ==> && resp.payload.TransactionPayload?
                                     && storage.transactions == old(storage.transactions) + [resp.payload.transaction]
                                     && storage.nextTransactionId == old(storage.nextTransactionId) + 1
      ensures resp.status != 201 ==> storage.transactions == old(storage.transactions)
                                     && storage.nextTransactionId == old(storage.nextTransactionId)
      ensures storage.businesses == old(storage.businesses) && storage.admins == old(storage.admins)
      ensures storage.nextBusinessId == old(storage.nextBusinessId)
      ensures storage.nextAdminId == old(storage.nextAdminId)
    {
      match ParseInt(idParam)
      case None =>
        resp := Error(400);
      case Some(id) =>
        match ParseInsertDocumentTransaction(WithId(body, "businessId", id))
        case None =>
          resp := Error(400);
        case Some(x) =>
          if !IsInt4(id) {
            resp := Error(500);
            return;
          }
          var r := storage.CreateDocumentTransaction(x, now, dateOf);
          resp := match r
            case Success(t) => Response(201, TransactionPayload(t))
            case Failure(_) => Error(500);
    }

    method DeleteDocument(authorization: Option<string>, idParam: string) returns (resp: Response)
      requires Valid()
      modifies storage
      ensures Valid()
      ensures resp == DeleteDocumentRoute(authTokens, old(storage.transactions), authorization, idParam)
      ensures storage.transactions == match DeleteDocumentCheck(authTokens, authorization, idParam)
                                      case Failure(_) => old(storage.transactions)
                                      case Success(id) => WithoutTransaction(old(storage.transactions), id)
      ensures storage.businesses == old(storage.businesses) && storage.admins == old(storage.admins)
      ensures storage.nextBusinessId == old(storage.nextBusinessId)
      ensures storage.nextTransactionId == old(storage.nextTransactionId)
      ensures storage.nextAdminId == old(storage.nextAdminId)
    {
      match DeleteDocumentCheck(authTokens, authorization, idParam)
      case Failure(early) =>
        resp := early;
      case Success(id) =>
        var removed := storage.DeleteDocumentTransaction(id);
        resp := if removed then Response(200, Message) else Error(404);
    }
  }
}
