/**
  The three tables (businesses, document transactions, admin users), the request
  records the server accepts, and the validators that turn a decoded JSON request
  body into one of those records, or reject it.

  A request body is a map from key to JSON value; a key missing from the map is
  JavaScript's `undefined`. Each validator follows its schema: required keys,
  nullable keys, keys that may be left out, minimum and maximum lengths, and keys
  the schema does not know, which are dropped.
 */
module Schema {
  import opened Wrappers

  /** The free-form `customFields` column: field name to value. */
  type CustomFields = map<string, string>

  /** `varchar("tax_id", { length: 20 })` and `varchar("phone", { length: 20 })`. */
  const TaxIdMaxLength: nat := 20
  const PhoneMaxLength: nat := 20

  /** `serial` and `integer` columns are PostgreSQL's 4-byte `int4`. */
  const Int4Min: int := -0x8000_0000
  const Int4Max: int := 0x7FFF_FFFF

  /** A value the `integer` columns can hold; PostgreSQL refuses a parameter outside this range. */
  predicate IsInt4(n: int) {
    Int4Min <= n <= Int4Max
  }

  datatype Business = Business(
    id: int,
    name: string,
    taxId: string,
    address: Option<string>,
    phone: Option<string>,
    email: Option<string>,
    website: Option<string>,
    industry: Option<string>,
    contactPerson: Option<string>,
    account: Option<string>,
    password: Option<string>,
    bankAccount: Option<string>,
    bankName: Option<string>,
    customFields: Option<CustomFields>,
    notes: Option<string>,
    createdAt: int)

  datatype DocumentTransaction = DocumentTransaction(
    id: int,
    businessId: int,
    documentType: string,
    transactionType: string,
    handledBy: string,
    transactionDate: int,
    notes: Option<string>,
    createdAt: int)

  datatype AdminUser = AdminUser(id: int, username: string, password: string, createdAt: int)

  /** The columns a search can name. */
  datatype Column =
    | NameColumn | TaxIdColumn | AddressColumn | PhoneColumn | EmailColumn | WebsiteColumn
    | IndustryColumn | ContactPersonColumn | AccountColumn | BankAccountColumn | BankNameColumn

  /** A row's value in a column; `None` is SQL NULL. */
  function ColumnValue(b: Business, c: Column): Option<string> {
    match c
    case NameColumn => Some(b.name)
    case TaxIdColumn => Some(b.taxId)
    case AddressColumn => b.address
    case PhoneColumn => b.phone
    case EmailColumn => b.email
    case WebsiteColumn => b.website
    case IndustryColumn => b.industry
    case ContactPersonColumn => b.contactPerson
    case AccountColumn => b.account
    case BankAccountColumn => b.bankAccount
    case BankNameColumn => b.bankName
  }

  /** A row respects the declared column lengths. */
  predicate WithinColumnLengths(b: Business) {
    |b.taxId| <= TaxIdMaxLength && (b.phone.Some? ==> |b.phone.value| <= PhoneMaxLength)
  }

  // ---------------------------------------------------------------------------
  // Request records

  /** A key that a request may leave out, as opposed to one it sets (possibly to null). */
  datatype Optional<T> = Omitted | Given(value: T)

  /** `insertBusinessSchema`: every column except `id` and `createdAt`. */
  datatype InsertBusiness = InsertBusiness(
    name: string,
    taxId: string,
    address: Option<string>,
    phone: Option<string>,
    email: Option<string>,
    website: Option<string>,
    industry: Option<string>,
    contactPerson: Option<string>,
    account: Option<string>,
    password: Option<string>,
    bankAccount: Option<string>,
    bankName: Option<string>,
    customFields: Optional<Option<CustomFields>>,
    notes: Option<string>)

  /** The business fields of `updateBusinessSchema`: each one may be left out. */
  datatype BusinessPatch = BusinessPatch(
    name: Optional<string>,
    taxId: Optional<string>,
    address: Optional<Option<string>>,
    phone: Optional<Option<string>>,
    email: Optional<Option<string>>,
    website: Optional<Option<string>>,
    industry: Optional<Option<string>>,
    contactPerson: Optional<Option<string>>,
    account: Optional<Option<string>>,
    password: Optional<Option<string>>,
    bankAccount: Optional<Option<string>>,
    bankName: Optional<Option<string>>,
    customFields: Optional<Option<CustomFields>>,
    notes: Optional<Option<string>>)

  const EmptyPatch := BusinessPatch(
    Omitted, Omitted, Omitted, Omitted, Omitted, Omitted, Omitted,
    Omitted, Omitted, Omitted, Omitted, Omitted, Omitted, Omitted)

  datatype UpdateBusiness = UpdateBusiness(id: int, patch: BusinessPatch)

  datatype SearchBusiness = SearchBusiness(field: string, value: string)

  datatype DeleteBusiness = DeleteBusiness(id: int, password: string)

  /** `insertDocumentTransactionSchema`; `transactionDate` is the unparsed date string, if sent. */
  datatype InsertDocumentTransaction = InsertDocumentTransaction(
    businessId: int,
    documentType: string,
    transactionType: string,
    handledBy: string,
    notes: Option<string>,
    transactionDate: Option<string>)

  datatype InsertAdminUser = InsertAdminUser(username: string, password: string)

  datatype LoginRequest = LoginRequest(username: string, password: string)

  datatype ChangePasswordRequest = ChangePasswordRequest(currentPassword: string, newPassword: string)

  /** The tags `searchBusinessSchema` admits for `field`. */
  const SearchFields: seq<string> := [
    "name", "namePartial", "taxId", "industry", "contactPerson", "phone", "email",
    "website", "address", "addressPartial", "account", "bankAccount", "bankName"]

  // ---------------------------------------------------------------------------
  // Request bodies and the readers for one key

  /**
    A JSON value as it reaches a validator. Objects are only modelled as maps of
    strings (the shape of `customFields`); arrays, nested objects and non-integer
    numbers are `JOther`.
   */
  datatype Json = JNull | JBool(b: bool) | JNumber(n: int) | JString(s: string) | JStringMap(m: map<string, string>) | JOther

  type Body = map<string, Json>

  /** `z.string()` with an optional `.min` and `.max`: the key must hold a string of that length. */
  function StringKey(body: Body, key: string, min: nat, max: Option<nat>): (r: Option<string>)
    ensures r.Some? <==> key in body && body[key].JString? && min <= |body[key].s|
                           && (max.Some? ==> |body[key].s| <= max.value)
    ensures r.Some? ==> body[key] == JString(r.value)
  {
    if key in body && body[key].JString? && min <= |body[key].s| && (max.None? || |body[key].s| <= max.value)
    then Some(body[key].s)
    else None
  }

  /** A nullable column left out or set: left out and `null` are both SQL NULL. */
  function NullableStringKey(body: Body, key: string, max: Option<nat>): (r: Option<Option<string>>)
    ensures r.Some? <==> key !in body || body[key].JNull?
                           || (body[key].JString? && (max.Some? ==> |body[key].s| <= max.value))
    ensures r == Some(None) <==> key !in body || body[key].JNull?
    ensures r.Some? && r.value.Some? ==> key in body && body[key] == JString(r.value.value)
  {
    if key !in body || body[key].JNull? then Some(None)
    else if body[key].JString? && (max.None? || |body[key].s| <= max.value) then Some(Some(body[key].s))
    else None
  }

  /** A key of a partial schema: left out, or present with a valid value. */
  function OptionalStringKey(body: Body, key: string, max: Option<nat>): (r: Option<Optional<string>>)
    ensures r.Some? <==> key !in body || (body[key].JString? && (max.Some? ==> |body[key].s| <= max.value))
    ensures r == Some(Omitted) <==> key !in body
    ensures r.Some? && r.value.Given? ==> key in body && body[key] == JString(r.value.value)
  {
    if key !in body then Some(Omitted)
    else
      var s :- StringKey(body, key, 0, max);
      Some(Given(s))
  }

  /** A nullable key of a partial schema: left out, `null`, or a string. */
  function OptionalNullableKey(body: Body, key: string, max: Option<nat>): (r: Option<Optional<Option<string>>>)
    ensures r.Some? <==> || key !in body || body[key].JNull?
                         || (body[key].JString? && (max.Some? ==> |body[key].s| <= max.value))
    ensures r == Some(Omitted) <==> key !in body
    ensures r == Some(Given(None)) <==> key in body && body[key].JNull?
    ensures r.Some? && r.value.Given? && r.value.value.Some? ==>
              key in body && body[key] == JString(r.value.value.value)
  {
    if key !in body then Some(Omitted)
    else
      var v :- NullableStringKey(body, key, max);
      Some(Given(v))
  }

  /** The `customFields` key: left out (the column default applies), `null`, or a map of strings. */
  function CustomFieldsKey(body: Body): (r: Option<Optional<Option<CustomFields>>>)
    ensures r.Some? <==> || "customFields" !in body || body["customFields"].JNull?
                         || body["customFields"].JStringMap?
    ensures r == Some(Omitted) <==> "customFields" !in body
    ensures r == Some(Given(None)) <==> "customFields" in body && body["customFields"].JNull?
    ensures r.Some? && r.value.Given? && r.value.value.Some? ==>
              "customFields" in body && body["customFields"] == JStringMap(r.value.value.value)
  {
    if "customFields" !in body then Some(Omitted)
    else match body["customFields"]
      case JNull => Some(Given(None))
      case JStringMap(m) => Some(Given(Some(m)))
      case _ => None
  }

  /** `z.number()`: the key must hold a number. */
  function NumberKey(body: Body, key: string): (r: Option<int>)
    ensures r.Some? <==> key in body && body[key].JNumber?
    ensures r.Some? ==> body[key] == JNumber(r.value)
  {
    if key in body && body[key].JNumber? then Some(body[key].n) else None
  }

  // ---------------------------------------------------------------------------
  // The validators

  /** `insertBusinessSchema.parse`. */
  function ParseInsertBusiness(body: Body): (r: Option<InsertBusiness>)
    ensures r.Some? <==> InsertKeysAcceptable(body)
    ensures r.Some? ==> InsertFromBody(body, r.value)
    ensures r.Some? ==> |r.value.taxId| <= TaxIdMaxLength
    ensures r.Some? && r.value.phone.Some? ==> |r.value.phone.value| <= PhoneMaxLength
  {
    var name :- StringKey(body, "name", 0, None);
    var taxId :- StringKey(body, "taxId", 0, Some(TaxIdMaxLength));
    var address :- NullableStringKey(body, "address", None);
    var phone :- NullableStringKey(body, "phone", Some(PhoneMaxLength));
    var email :- NullableStringKey(body, "email", None);
    var website :- NullableStringKey(body, "website", None);
    var industry :- NullableStringKey(body, "industry", None);
    var contactPerson :- NullableStringKey(body, "contactPerson", None);
    var account :- NullableStringKey(body, "account", None);
    var password :- NullableStringKey(body, "password", None);
    var bankAccount :- NullableStringKey(body, "bankAccount", None);
    var bankName :- NullableStringKey(body, "bankName", None);
    var customFields :- CustomFieldsKey(body);
    var notes :- NullableStringKey(body, "notes", None);
    Some(InsertBusiness(name, taxId, address, phone, email, website, industry, contactPerson,
                        account, password, bankAccount, bankName, customFields, notes))
  }

  /** A patch entry is left out exactly when the body lacks the key, and otherwise holds the body's string. */
  predicate StringEntryFromBody(body: Body, key: string, v: Optional<string>) {
    && (v.Omitted? <==> key !in body)
    && (v.Given? ==> key in body && body[key] == JString(v.value))
  }

  /** The same for a nullable key: a given value is the body's string, or `null`. */
  predicate NullableEntryFromBody(body: Body, key: string, v: Optional<Option<string>>) {
    && (v.Omitted? <==> key !in body)
    && (v.Given? ==> key in body && body[key] == NullableJson(v.value))
  }

  /** The same for `customFields`: a given value is the body's map of strings, or `null`. */
  predicate CustomFieldsEntryFromBody(body: Body, v: Optional<Option<CustomFields>>) {
    && (v.Omitted? <==> "customFields" !in body)
    && (v.Given? ==> "customFields" in body
                     && body["customFields"] == (if v.value.Some? then JStringMap(v.value.value) else JNull))
  }

  /** A key of a partial schema is absent or a string within the bound. */
  predicate StringKeyAcceptable(body: Body, key: string, max: Option<nat>) {
    key !in body || (body[key].JString? && (max.Some? ==> |body[key].s| <= max.value))
  }

  /** A nullable key of a partial schema is absent, `null`, or a string within the bound. */
  predicate NullableKeyAcceptable(body: Body, key: string, max: Option<nat>) {
    key !in body || body[key].JNull? || (body[key].JString? && (max.Some? ==> |body[key].s| <= max.value))
  }

  /** What `updateBusinessSchema` asks of the business keys: each one absent or of its column's type. */
  predicate UpdateKeysAcceptable(body: Body) {
    && StringKeyAcceptable(body, "name", None)
    && StringKeyAcceptable(body, "taxId", Some(TaxIdMaxLength))
    && NullableKeyAcceptable(body, "address", None)
    && NullableKeyAcceptable(body, "phone", Some(PhoneMaxLength))
    && NullableKeyAcceptable(body, "email", None)
    && NullableKeyAcceptable(body, "website", None)
    && NullableKeyAcceptable(body, "industry", None)
    && NullableKeyAcceptable(body, "contactPerson", None)
    && NullableKeyAcceptable(body, "account", None)
    && NullableKeyAcceptable(body, "password", None)
    && NullableKeyAcceptable(body, "bankAccount", None)
    && NullableKeyAcceptable(body, "bankName", None)
    && ("customFields" !in body || body["customFields"].JNull? || body["customFields"].JStringMap?)
    && NullableKeyAcceptable(body, "notes", None)
  }

  /** Every field of the patch comes from its key in the body, and a key the body lacks is left out. */
  predicate PatchFromBody(body: Body, p: BusinessPatch) {
    && StringEntryFromBody(body, "name", p.name)
    && StringEntryFromBody(body, "taxId", p.taxId)
    && NullableEntryFromBody(body, "address", p.address)
    && NullableEntryFromBody(body, "phone", p.phone)
    && NullableEntryFromBody(body, "email", p.email)
    && NullableEntryFromBody(body, "website", p.website)
    && NullableEntryFromBody(body, "industry", p.industry)
    && NullableEntryFromBody(body, "contactPerson", p.contactPerson)
    && NullableEntryFromBody(body, "account", p.account)
    && NullableEntryFromBody(body, "password", p.password)
    && NullableEntryFromBody(body, "bankAccount", p.bankAccount)
    && NullableEntryFromBody(body, "bankName", p.bankName)
    && CustomFieldsEntryFromBody(body, p.customFields)
    && NullableEntryFromBody(body, "notes", p.notes)
  }

  /** What `insertBusinessSchema` asks of a body: `name` and `taxId` present, every key of its column's type. */
  predicate InsertKeysAcceptable(body: Body) {
    "name" in body && "taxId" in body && UpdateKeysAcceptable(body)
  }

  /** A nullable column is NULL exactly when the body lacks the key or holds `null`, and otherwise the body's string. */
  predicate NullableFromBody(body: Body, key: string, v: Option<string>) {
    && (v.None? <==> key !in body || body[key].JNull?)
    && (v.Some? ==> key in body && body[key] == JString(v.value))
  }

  /** Every field of the record comes from its key in the body. */
  predicate InsertFromBody(body: Body, x: InsertBusiness) {
    && "name" in body && body["name"] == JString(x.name)
    && "taxId" in body && body["taxId"] == JString(x.taxId)
    && NullableFromBody(body, "address", x.address)
    && NullableFromBody(body, "phone", x.phone)
    && NullableFromBody(body, "email", x.email)
    && NullableFromBody(body, "website", x.website)
    && NullableFromBody(body, "industry", x.industry)
    && NullableFromBody(body, "contactPerson", x.contactPerson)
    && NullableFromBody(body, "account", x.account)
    && NullableFromBody(body, "password", x.password)
    && NullableFromBody(body, "bankAccount", x.bankAccount)
    && NullableFromBody(body, "bankName", x.bankName)
    && CustomFieldsEntryFromBody(body, x.customFields)
    && NullableFromBody(body, "notes", x.notes)
  }

  /** The business keys of `updateBusinessSchema`: every column of the insert schema, each optional. */
  function ParseBusinessPatch(body: Body): (r: Option<BusinessPatch>)
    ensures r.Some? <==> UpdateKeysAcceptable(body)
    ensures r.Some? ==> PatchFromBody(body, r.value)
  {
    var name :- OptionalStringKey(body, "name", None);
    var taxId :- OptionalStringKey(body, "taxId", Some(TaxIdMaxLength));
    var address :- OptionalNullableKey(body, "address", None);
    var phone :- OptionalNullableKey(body, "phone", Some(PhoneMaxLength));
    var email :- OptionalNullableKey(body, "email", None);
    var website :- OptionalNullableKey(body, "website", None);
    var industry :- OptionalNullableKey(body, "industry", None);
    var contactPerson :- OptionalNullableKey(body, "contactPerson", None);
    var account :- OptionalNullableKey(body, "account", None);
    var password :- OptionalNullableKey(body, "password", None);
    var bankAccount :- OptionalNullableKey(body, "bankAccount", None);
    var bankName :- OptionalNullableKey(body, "bankName", None);
    var customFields :- CustomFieldsKey(body);
    var notes :- OptionalNullableKey(body, "notes", None);
    Some(BusinessPatch(name, taxId, address, phone, email, website, industry,
                       contactPerson, account, password, bankAccount, bankName, customFields, notes))
  }

  /** `updateBusinessSchema.parse`: the insert schema made partial, plus a numeric `id`. */
  function ParseUpdateBusiness(body: Body): (r: Option<UpdateBusiness>)
    ensures r.Some? <==> "id" in body && body["id"].JNumber? && UpdateKeysAcceptable(body)
    ensures r.Some? ==> "id" in body && body["id"] == JNumber(r.value.id)
    ensures r.Some? ==> PatchFromBody(body, r.value.patch)
  {
    var id :- NumberKey(body, "id");
    var patch :- ParseBusinessPatch(body);
    Some(UpdateBusiness(id, patch))
  }

  /** `searchBusinessSchema.parse`: `field` one of the listed tags, `value` a non-empty string. */
  function ParseSearch(body: Body): (r: Option<SearchBusiness>)
    ensures r.Some? <==> && "field" in body && body["field"].JString? && body["field"].s in SearchFields
                         && "value" in body && body["value"].JString? && body["value"].s != []
    ensures r.Some? ==> r.value == SearchBusiness(body["field"].s, body["value"].s)
  {
    var field :- StringKey(body, "field", 0, None);
    if field !in SearchFields then None
    else
      var value :- StringKey(body, "value", 1, None);
      Some(SearchBusiness(field, value))
  }

  /** `deleteBusinessSchema.parse`: a numeric `id` and a string `password` (possibly empty). */
  function ParseDeleteBusiness(body: Body): (r: Option<DeleteBusiness>)
    ensures r.Some? <==> && "id" in body && body["id"].JNumber?
                         && "password" in body && body["password"].JString?
    ensures r.Some? ==> r.value == DeleteBusiness(body["id"].n, body["password"].s)
  {
    var id :- NumberKey(body, "id");
    var password :- StringKey(body, "password", 0, None);
    Some(DeleteBusiness(id, password))
  }

  /** An optional string that may not be `null`: `z.string().optional()`. */
  function OptionalNonNullString(body: Body, key: string): (r: Option<Option<string>>)
    ensures r.Some? <==> key !in body || body[key].JString?
    ensures r == Some(None) <==> key !in body
    ensures r.Some? && r.value.Some? ==> key in body && body[key] == JString(r.value.value)
  {
    if key !in body then Some(None)
    else if body[key].JString? then Some(Some(body[key].s))
    else None
  }

  /**
    `insertDocumentTransactionSchema.parse`: a numeric `businessId`, three required strings
    (`transactionType` is any string, not only "giao" or "nhận"), nullable `notes`, and a
    `transactionDate` string that may be left out but not set to `null`.
   */
  function ParseInsertDocumentTransaction(body: Body): (r: Option<InsertDocumentTransaction>)
    ensures r.Some? <==> && "businessId" in body && body["businessId"].JNumber?
                         && "documentType" in body && body["documentType"].JString?
                         && "transactionType" in body && body["transactionType"].JString?
                         && "handledBy" in body && body["handledBy"].JString?
                         && ("notes" !in body || body["notes"].JNull? || body["notes"].JString?)
                         && ("transactionDate" !in body || body["transactionDate"].JString?)
    ensures r.Some? ==> body["businessId"] == JNumber(r.value.businessId)
    ensures r.Some? ==> body["documentType"] == JString(r.value.documentType)
    ensures r.Some? ==> body["transactionType"] == JString(r.value.transactionType)
    ensures r.Some? ==> body["handledBy"] == JString(r.value.handledBy)
    ensures r.Some? ==> (r.value.notes.None? <==> "notes" !in body || body["notes"].JNull?)
    ensures r.Some? && r.value.notes.Some? ==> body["notes"] == JString(r.value.notes.value)
    ensures r.Some? ==> (r.value.transactionDate.None? <==> "transactionDate" !in body)
    ensures r.Some? && r.value.transactionDate.Some? ==>
              body["transactionDate"] == JString(r.value.transactionDate.value)
  {
    var businessId :- NumberKey(body, "businessId");
    var documentType :- StringKey(body, "documentType", 0, None);
    var transactionType :- StringKey(body, "transactionType", 0, None);
    var handledBy :- StringKey(body, "handledBy", 0, None);
    var notes :- NullableStringKey(body, "notes", None);
    var transactionDate :- OptionalNonNullString(body, "transactionDate");
    Some(InsertDocumentTransaction(businessId, documentType, transactionType, handledBy, notes, transactionDate))
  }

  /**
    A document body with the four required keys is accepted whatever strings they hold:
    `transactionType` is free text here, not only "giao" or "nhận".
   */
  lemma InsertDocumentAcceptsAnyText(businessId: int, documentType: string, transactionType: string, handledBy: string)
    ensures var body := map["businessId" := JNumber(businessId), "documentType" := JString(documentType),
                            "transactionType" := JString(transactionType), "handledBy" := JString(handledBy)];
      ParseInsertDocumentTransaction(body)
      == Some(InsertDocumentTransaction(businessId, documentType, transactionType, handledBy, None, None))
  {
  }

  /** `loginSchema.parse`: non-empty `username` and `password`. */
  function ParseLogin(body: Body): (r: Option<LoginRequest>)
    ensures r.Some? <==> && "username" in body && body["username"].JString? && body["username"].s != []
                         && "password" in body && body["password"].JString? && body["password"].s != []
    ensures r.Some? ==> r.value == LoginRequest(body["username"].s, body["password"].s)
  {
    var username :- StringKey(body, "username", 1, None);
    var password :- StringKey(body, "password", 1, None);
    Some(LoginRequest(username, password))
  }

  /** `changePasswordSchema.parse`: non-empty `currentPassword` and `newPassword`. */
  function ParseChangePassword(body: Body): (r: Option<ChangePasswordRequest>)
    ensures r.Some? <==> && "currentPassword" in body && body["currentPassword"].JString?
                         && body["currentPassword"].s != []
                         && "newPassword" in body && body["newPassword"].JString? && body["newPassword"].s != []
    ensures r.Some? ==> r.value == ChangePasswordRequest(body["currentPassword"].s, body["newPassword"].s)
  {
    var currentPassword :- StringKey(body, "currentPassword", 1, None);
    var newPassword :- StringKey(body, "newPassword", 1, None);
    Some(ChangePasswordRequest(currentPassword, newPassword))
  }

  // ---------------------------------------------------------------------------
  // Bodies as a client sends them, and what the validators make of them

  function NullableJson(v: Option<string>): Json {
    match v
    case None => JNull
    case Some(s) => JString(s)
  }

  /** The JSON body a client sends for an insert (`JSON.stringify` of the record). */
  function InsertBusinessBody(x: InsertBusiness): Body {
    ColumnsBody(x) + CustomFieldsBody(x.customFields)
  }

  /** `customFields` as sent: no key when left out. */
  function CustomFieldsBody(v: Optional<Option<CustomFields>>): Body {
    match v
    case Omitted => map[]
    case Given(None) => map["customFields" := JNull]
    case Given(Some(m)) => map["customFields" := JStringMap(m)]
  }

  /** The keys of an insert body other than `customFields`. */
  function ColumnsBody(x: InsertBusiness): Body {
    map[
      "name" := JString(x.name), "taxId" := JString(x.taxId),
      "address" := NullableJson(x.address), "phone" := NullableJson(x.phone),
      "email" := NullableJson(x.email), "website" := NullableJson(x.website),
      "industry" := NullableJson(x.industry), "contactPerson" := NullableJson(x.contactPerson),
      "account" := NullableJson(x.account), "password" := NullableJson(x.password),
      "bankAccount" := NullableJson(x.bankAccount), "bankName" := NullableJson(x.bankName),
      "notes" := NullableJson(x.notes)]
  }

  /** An insert record fits the validator's length limits. */
  predicate InsertWithinLengths(x: InsertBusiness) {
    |x.taxId| <= TaxIdMaxLength && (x.phone.Some? ==> |x.phone.value| <= PhoneMaxLength)
  }

  lemma ColumnsBodyFirstKeys(x: InsertBusiness)
    ensures var body := ColumnsBody(x);
      && body["name"] == JString(x.name) && body["taxId"] == JString(x.taxId)
      && body["address"] == NullableJson(x.address) && body["phone"] == NullableJson(x.phone)
      && body["email"] == NullableJson(x.email) && body["website"] == NullableJson(x.website)
      && body["industry"] == NullableJson(x.industry)
  {
  }

  lemma ColumnsBodyLastKeys(x: InsertBusiness)
    ensures var body := ColumnsBody(x);
      && body["contactPerson"] == NullableJson(x.contactPerson)
      && body["account"] == NullableJson(x.account) && body["password"] == NullableJson(x.password)
      && body["bankAccount"] == NullableJson(x.bankAccount) && body["bankName"] == NullableJson(x.bankName)
      && body["notes"] == NullableJson(x.notes)
  {
  }

  /** Every insert record within the length limits survives the trip through JSON and the validator. */
  lemma InsertBusinessRoundTrip(x: InsertBusiness)
    requires InsertWithinLengths(x)
    ensures ParseInsertBusiness(InsertBusinessBody(x)) == Some(x)
  {
    InsertBodyFirstKeys(x);
    InsertBodyLastKeys(x);
    InsertBodyCustomFields(x);
  }

  lemma InsertBodyCustomFields(x: InsertBusiness)
    ensures CustomFieldsKey(InsertBusinessBody(x)) == Some(x.customFields)
  {
    var cols := ColumnsBody(x);
    var extra := CustomFieldsBody(x.customFields);
    assert "customFields" !in cols.Keys;
    match x.customFields
    case Omitted =>
      assert "customFields" !in (cols + extra).Keys;
    case Given(v) =>
      assert "customFields" in extra;
      assert (cols + extra)["customFields"] == extra["customFields"];
  }

  /** The keys of the columns reach the body unchanged. */
  lemma InsertBodyColumn(x: InsertBusiness, key: string)
    requires key != "customFields" && key in ColumnsBody(x)
    ensures key in InsertBusinessBody(x) && InsertBusinessBody(x)[key] == ColumnsBody(x)[key]
  {
    assert key !in CustomFieldsBody(x.customFields);
  }

  lemma InsertBodyFirstKeys(x: InsertBusiness)
    requires InsertWithinLengths(x)
    ensures var body := InsertBusinessBody(x);
      && StringKey(body, "name", 0, None) == Some(x.name)
      && StringKey(body, "taxId", 0, Some(TaxIdMaxLength)) == Some(x.taxId)
      && NullableStringKey(body, "address", None) == Some(x.address)
      && NullableStringKey(body, "phone", Some(PhoneMaxLength)) == Some(x.phone)
      && NullableStringKey(body, "email", None) == Some(x.email)
      && NullableStringKey(body, "website", None) == Some(x.website)
      && NullableStringKey(body, "industry", None) == Some(x.industry)
  {
    ColumnsBodyFirstKeys(x);
    var body := InsertBusinessBody(x);
    InsertBodyColumn(x, "address");
    InsertBodyColumn(x, "name");
    InsertBodyColumn(x, "taxId");
    NullableOf(body, "address", x.address, None);
    InsertBodyColumn(x, "phone");
    NullableOf(body, "phone", x.phone, Some(PhoneMaxLength));
    InsertBodyColumn(x, "email");
    NullableOf(body, "email", x.email, None);
    InsertBodyColumn(x, "website");
    NullableOf(body, "website", x.website, None);
    InsertBodyColumn(x, "industry");
    NullableOf(body, "industry", x.industry, None);
  }

  lemma InsertBodyLastKeys(x: InsertBusiness)
    ensures var body := InsertBusinessBody(x);
      && NullableStringKey(body, "contactPerson", None) == Some(x.contactPerson)
      && NullableStringKey(body, "account", None) == Some(x.account)
      && NullableStringKey(body, "password", None) == Some(x.password)
      && NullableStringKey(body, "bankAccount", None) == Some(x.bankAccount)
      && NullableStringKey(body, "bankName", None) == Some(x.bankName)
      && NullableStringKey(body, "notes", None) == Some(x.notes)
  {
    ColumnsBodyLastKeys(x);
    var body := InsertBusinessBody(x);
    InsertBodyColumn(x, "contactPerson");
    NullableOf(body, "contactPerson", x.contactPerson, None);
    InsertBodyColumn(x, "account");
    NullableOf(body, "account", x.account, None);
    InsertBodyColumn(x, "password");
    NullableOf(body, "password", x.password, None);
    InsertBodyColumn(x, "bankAccount");
    NullableOf(body, "bankAccount", x.bankAccount, None);
    InsertBodyColumn(x, "bankName");
    NullableOf(body, "bankName", x.bankName, None);
    InsertBodyColumn(x, "notes");
    NullableOf(body, "notes", x.notes, None);
  }

  lemma NullableOf(body: Body, key: string, v: Option<string>, max: Option<nat>)
    requires key in body && body[key] == NullableJson(v)
    requires v.Some? && max.Some? ==> |v.value| <= max.value
    ensures NullableStringKey(body, key, max) == Some(v)
  {
  }

  /** A tax ID longer than the column is rejected by the validator, before the store sees it. */
  lemma InsertRejectsLongTaxId(body: Body)
    requires "taxId" in body && body["taxId"].JString? && |body["taxId"].s| > TaxIdMaxLength
    ensures ParseInsertBusiness(body) == None
  {
  }

  /** The keys `insertBusinessSchema` reads. */
  const InsertKeys: set<string> := {
    "name", "taxId", "address", "phone", "email", "website", "industry", "contactPerson",
    "account", "password", "bankAccount", "bankName", "customFields", "notes"}

  /** Two bodies hold the same thing under `key` (both lack it, or both hold the same value). */
  predicate AgreeOn(b1: Body, b2: Body, key: string) {
    (key in b1 <==> key in b2) && (key in b1 ==> b1[key] == b2[key])
  }

  lemma NullableAgrees(b1: Body, b2: Body, key: string, max: Option<nat>)
    requires AgreeOn(b1, b2, key)
    ensures NullableStringKey(b1, key, max) == NullableStringKey(b2, key, max)
  {
  }

  /**
    Only the schema's own keys matter: bodies that agree on them validate alike, so
    `id`, `createdAt` and any other key a client adds are dropped.
   */
  lemma InsertReadsOnlySchemaKeys(b1: Body, b2: Body)
    requires forall k :: k in InsertKeys ==> AgreeOn(b1, b2, k)
    ensures ParseInsertBusiness(b1) == ParseInsertBusiness(b2)
  {
    assert AgreeOn(b1, b2, "name") && AgreeOn(b1, b2, "taxId") && AgreeOn(b1, b2, "customFields");
    assert StringKey(b1, "name", 0, None) == StringKey(b2, "name", 0, None);
    assert StringKey(b1, "taxId", 0, Some(TaxIdMaxLength)) == StringKey(b2, "taxId", 0, Some(TaxIdMaxLength));
    assert CustomFieldsKey(b1) == CustomFieldsKey(b2);
    InsertNullablesAgree(b1, b2);
  }

  lemma InsertNullablesAgree(b1: Body, b2: Body)
    requires forall k :: k in InsertKeys ==> AgreeOn(b1, b2, k)
    ensures && NullableStringKey(b1, "address", None) == NullableStringKey(b2, "address", None)
            && NullableStringKey(b1, "phone", Some(PhoneMaxLength)) == NullableStringKey(b2, "phone", Some(PhoneMaxLength))
            && NullableStringKey(b1, "email", None) == NullableStringKey(b2, "email", None)
            && NullableStringKey(b1, "website", None) == NullableStringKey(b2, "website", None)
            && NullableStringKey(b1, "industry", None) == NullableStringKey(b2, "industry", None)
            && NullableStringKey(b1, "contactPerson", None) == NullableStringKey(b2, "contactPerson", None)
            && NullableStringKey(b1, "account", None) == NullableStringKey(b2, "account", None)
            && NullableStringKey(b1, "password", None) == NullableStringKey(b2, "password", None)
            && NullableStringKey(b1, "bankAccount", None) == NullableStringKey(b2, "bankAccount", None)
            && NullableStringKey(b1, "bankName", None) == NullableStringKey(b2, "bankName", None)
            && NullableStringKey(b1, "notes", None) == NullableStringKey(b2, "notes", None)
  {
    NullableAgrees(b1, b2, "address", None);
    NullableAgrees(b1, b2, "phone", Some(PhoneMaxLength));
    NullableAgrees(b1, b2, "email", None);
    NullableAgrees(b1, b2, "website", None);
    NullableAgrees(b1, b2, "industry", None);
    NullableAgrees(b1, b2, "contactPerson", None);
    NullableAgrees(b1, b2, "account", None);
    NullableAgrees(b1, b2, "password", None);
    NullableAgrees(b1, b2, "bankAccount", None);
    NullableAgrees(b1, b2, "bankName", None);
    NullableAgrees(b1, b2, "notes", None);
  }

  /** `id` and `createdAt` are not part of the insert schema: whatever the body holds there is dropped. */
  lemma InsertIgnoresIdAndCreatedAt(body: Body, id: Json, createdAt: Json)
    ensures ParseInsertBusiness(body["id" := id]["createdAt" := createdAt]) == ParseInsertBusiness(body)
  {
    var b := body["id" := id]["createdAt" := createdAt];
    assert "id" !in InsertKeys && "createdAt" !in InsertKeys;
    forall k | k in InsertKeys ensures AgreeOn(b, body, k) {
      assert k != "id" && k != "createdAt";
    }
    InsertReadsOnlySchemaKeys(b, body);
  }

  /** Every business field of an update may be left out: a body with only an `id` is a valid, empty update. */
  lemma UpdateFieldsAllOptional(id: int)
    ensures ParseUpdateBusiness(map["id" := JNumber(id)]) == Some(UpdateBusiness(id, EmptyPatch))
  {
  }

  /** An update without a numeric `id` is rejected. */
  lemma UpdateNeedsNumericId(body: Body)
    requires "id" !in body || !body["id"].JNumber?
    ensures ParseUpdateBusiness(body) == None
  {
  }
}
